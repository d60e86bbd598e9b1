/** How many requests an operation can cost, in a run and in all that can follow it. */
module FotaRequests {
  import opened Wrappers
  import opened FotaModel
  import opened FotaInvariants
  import opened FotaTraces
  import opened FotaHolders

  // ---- requests and passes

  lemma SendTasksCount(os: set<OpId>, o: OpId)
    ensures SendTasks(os)[Send(o)] == if o in os then 1 else 0
  {
    assert Send(o) in (set p | p in os :: Send(p)) <==> o in os;
  }

  /** The step is a pass that finds `o` queued. */
  predicate PassFinds(w: World, l: Label, o: OpId) {
    l.RunPass? && o in QueuedOps(w, l.endpoint)
  }

  lemma ReportAddsNoSend(w: World, ep: Endpoint, report: Report, s: UpdateId, o: OpId)
    requires Active(w, ep) != {} ==> IsLatest(w, ep, s)
    ensures HandleFota(w, ep, report, s).tasks[Send(o)] == w.tasks[Send(o)]
    ensures HandleFota(w, ep, report, s).flights == w.flights
  {
    if Active(w, ep) != {} {
      assert Cleaned(w, ep, s).tasks == w.tasks && Cleaned(w, ep, s).flights == w.flights;
    }
  }

  /** The send tasks of an operation come from passes that find it queued, and go when it is sent. */
  lemma TasksStep(w: World, l: Label, o: OpId)
    requires Enabled(w, l)
    ensures Apply(w, l).tasks[Send(o)] + (if l == BeginSend(o) then 1 else 0) ==
            w.tasks[Send(o)] + if PassFinds(w, l, o) then 1 else 0
  {
    match l
    case Reported(ep, report, s) => ReportAddsNoSend(w, ep, report, s, o);
    case RunPass(ep) => SendTasksCount(QueuedOps(w, ep), o);
    case _ =>
  }

  /** The passes among the first `n` steps that found `o` queued. */
  ghost function PassesFinding(run: Run, n: nat, o: OpId): nat
    requires n <= |run.labels| < |run.worlds|
  {
    if n == 0 then 0
    else PassesFinding(run, n - 1, o) + if PassFinds(run.worlds[n - 1], run.labels[n - 1], o) then 1 else 0
  }

  lemma RunTasksStep(run: Run, n: nat, o: OpId)
    requires IsRun(run) && n < |run.labels|
    ensures run.worlds[n + 1].tasks[Send(o)] + (if run.labels[n] == BeginSend(o) then 1 else 0) ==
            run.worlds[n].tasks[Send(o)] + if PassFinds(run.worlds[n], run.labels[n], o) then 1 else 0
  {
    RunStep(run, n);
    TasksStep(run.worlds[n], run.labels[n], o);
  }

  /** In every run the requests made for an operation and the tasks that still wait to make one are
      together the passes that found it queued. */
  lemma {:induction false} RequestsArePasses(run: Run, n: nat, o: OpId)
    requires IsRun(run) && n < |run.worlds|
    ensures Begins(run.labels[..n], o) + run.worlds[n].tasks[Send(o)] == PassesFinding(run, n, o)
  {
    if n > 0 {
      RequestsArePasses(run, n - 1, o);
      RunTasksStep(run, n - 1, o);
      assert run.labels[..n][..n - 1] == run.labels[..n - 1];
    }
  }

  // ---- when the number of requests is bounded

  /** `o` is queued, or a failure of a send that holds it or waits for it can queue it again. */
  ghost predicate CanQueue(w: World, o: OpId) {
    && o in w.ops
    && (|| w.ops[o].status == Queued
        || (exists f :: f in w.flights && w.flights[f].op == o && w.flights[f].copy.counter < 2)
        || (Send(o) in w.tasks && w.ops[o].counter < 2))
  }

  lemma ReportCannotQueue(w: World, ep: Endpoint, report: Report, s: UpdateId, o: OpId)
    requires Inv(w) && (Active(w, ep) != {} ==> IsLatest(w, ep, s)) && o in w.ops && !CanQueue(w, o)
    ensures var v := HandleFota(w, ep, report, s); o in v.ops && !CanQueue(v, o)
  {
    if Active(w, ep) != {} {
      ReportOp(w, ep, report, s, o);
      ReportAddsNoSend(w, ep, report, s, o);
    }
  }

  lemma BeginCannotQueue(w: World, p: OpId, o: OpId)
    requires Inv(w) && Send(p) in w.tasks && o in w.ops && !CanQueue(w, o)
    ensures o in Begun(w, p).ops && !CanQueue(Begun(w, p), o)
  {
    var v := Begun(w, p);
    forall f | f in v.flights && v.flights[f].op == o ensures v.flights[f].copy.counter >= 2 {
      if f in w.flights {
        assert v.flights[f] == w.flights[f];
      }
    }
  }

  lemma FinishCannotQueue(w: World, f: FlightId, r: Response, o: OpId)
    requires Inv(w) && f in w.flights && o in w.ops && !CanQueue(w, o)
    ensures o in Finished(w, f, r).ops && !CanQueue(Finished(w, f, r), o)
  {
    var v := Finished(w, f, r);
    FinishRows(w, f, r);
    assert v.flights == w.flights - {f} && v.tasks == w.tasks;
    assert w.flights[f].op == o ==> w.flights[f].copy.counter >= 2;
  }

  lemma CannotQueueStep(w: World, l: Label, o: OpId)
    requires Inv(w) && Enabled(w, l) && o in w.ops && !CanQueue(w, o)
    ensures o in Apply(w, l).ops && !CanQueue(Apply(w, l), o)
  {
    match l
    case Reported(ep, report, s) => ReportCannotQueue(w, ep, report, s, o);
    case RunPass(ep) => SendTasksCount(QueuedOps(w, ep), o);
    case BeginSend(p) => BeginCannotQueue(w, p, o);
    case FinishSend(f, r) => FinishCannotQueue(w, f, r, o);
    case _ =>
  }

  lemma RunCannotQueueStep(run: Run, n: nat, o: OpId)
    requires IsRun(run) && n < |run.labels| && o in run.worlds[n].ops && !CanQueue(run.worlds[n], o)
    ensures o in run.worlds[n + 1].ops && !CanQueue(run.worlds[n + 1], o)
    ensures !PassFinds(run.worlds[n], run.labels[n], o)
  {
    RunStep(run, n);
    CannotQueueStep(run.worlds[n], run.labels[n], o);
  }

  /** What cannot be queued again is sent only by the tasks that already wait. */
  lemma {:induction false} OnlyWaitingSends(run: Run, i: nat, j: nat, o: OpId)
    requires IsRun(run) && i <= j < |run.worlds| && o in run.worlds[i].ops && !CanQueue(run.worlds[i], o)
    ensures o in run.worlds[j].ops && !CanQueue(run.worlds[j], o)
    ensures Begins(run.labels[..j], o) + run.worlds[j].tasks[Send(o)] ==
            Begins(run.labels[..i], o) + run.worlds[i].tasks[Send(o)]
    decreases j - i
  {
    if i < j {
      OnlyWaitingSends(run, i, j - 1, o);
      RunCannotQueueStep(run, j - 1, o);
      RunTasksStep(run, j - 1, o);
      assert run.labels[..j][..j - 1] == run.labels[..j - 1];
    }
  }

  // ---- continuations that send again and again

  lemma BeginsOneMore(labels: seq<Label>, l: Label, o: OpId)
    ensures Begins(labels + [l], o) == Begins(labels, o) + if l == BeginSend(o) then 1 else 0
  {
    assert (labels + [l])[..|labels|] == labels;
  }

  /** The run with one more step. */
  lemma OneMoreStep(run: Run, l: Label, o: OpId) returns (longer: Run)
    requires IsRun(run) && Enabled(Last(run), l)
    ensures Continues(longer, run) && Last(longer) == Apply(Last(run), l)
    ensures Begins(longer.labels, o) == Begins(run.labels, o) + if l == BeginSend(o) then 1 else 0
  {
    longer := Extended(run, l);
    BeginsOneMore(run.labels, l, o);
  }

  lemma ContinuesOn(a: Run, b: Run, c: Run)
    requires Continues(b, a) && Continues(c, b)
    ensures Continues(c, a)
  {
    assert c.worlds[..|a.worlds|] == b.worlds[..|a.worlds|] && c.labels[..|a.labels|] == b.labels[..|a.labels|];
  }

  /** Each registration event queues a waiting operation once more. */
  lemma {:induction false} QueuedTimes(run: Run, o: OpId, k: nat) returns (longer: Run)
    requires IsRun(run) && o in Last(run).ops && Last(run).ops[o].status == Queued
    ensures Continues(longer, run) && Last(longer).ops == Last(run).ops
    ensures Begins(longer.labels, o) == Begins(run.labels, o)
    ensures Last(longer).tasks[Send(o)] == Last(run).tasks[Send(o)] + k
    decreases k
  {
    longer := run;
    if k > 0 {
      var ep := Last(run).ops[o].endpoint;
      var a := OneMoreStep(run, Registered(ep), o);
      var b := OneMoreStep(a, RunPass(ep), o);
      TasksStep(Last(run), Registered(ep), o);
      TasksStep(Last(a), RunPass(ep), o);
      longer := QueuedTimes(b, o, k - 1);
      ContinuesOn(run, a, b);
      ContinuesOn(run, b, longer);
    }
  }

  lemma BeginUsesTask(w: World, o: OpId)
    requires o in w.ops && Send(o) in w.tasks
    ensures o in Begun(w, o).ops && Begun(w, o).tasks[Send(o)] == w.tasks[Send(o)] - 1
  {
  }

  lemma {:induction false} BegunTimes(run: Run, o: OpId, k: nat) returns (longer: Run)
    requires IsRun(run) && o in Last(run).ops && Last(run).tasks[Send(o)] >= k
    ensures Continues(longer, run) && Begins(longer.labels, o) == Begins(run.labels, o) + k
    decreases k
  {
    longer := run;
    if k > 0 {
      BeginUsesTask(Last(run), o);
      var a := OneMoreStep(run, BeginSend(o), o);
      longer := BegunTimes(a, o, k - 1);
      ContinuesOn(run, a, longer);
    }
  }

  lemma FinishQueues(w: World, f: FlightId)
    requires Inv(w) && f in w.flights && w.flights[f].copy.counter < 2
    ensures var v, o := Finished(w, f, Unreachable), w.flights[f].op; o in v.ops && v.ops[o].status == Queued
  {
    FinishRows(w, f, Unreachable);
  }

  lemma FlightToQueued(run: Run, o: OpId, f: FlightId) returns (longer: Run)
    requires IsRun(run) && f in Last(run).flights && Last(run).flights[f].op == o && Last(run).flights[f].copy.counter < 2
    ensures Continues(longer, run) && o in Last(longer).ops && Last(longer).ops[o].status == Queued
    ensures Begins(longer.labels, o) == Begins(run.labels, o)
  {
    RunKeepsInv(run, |run.labels|);
    FinishQueues(Last(run), f);
    longer := OneMoreStep(run, FinishSend(f, Unreachable), o);
  }

  lemma ToQueued(run: Run, o: OpId) returns (longer: Run)
    requires IsRun(run) && CanQueue(Last(run), o)
    ensures Continues(longer, run) && o in Last(longer).ops && Last(longer).ops[o].status == Queued
    ensures Begins(longer.labels, o) >= Begins(run.labels, o)
  {
    var w := Last(run);
    longer := run;
    if w.ops[o].status != Queued {
      if f :| f in w.flights && w.flights[f].op == o && w.flights[f].copy.counter < 2 {
        longer := FlightToQueued(run, o, f);
      } else {
        var a := OneMoreStep(run, BeginSend(o), o);
        longer := FlightToQueued(a, o, w.nextFlight);
        ContinuesOn(run, a, longer);
      }
    }
  }

  /** From every state in which an operation is or can be queued, a continuation sends it any number
      of times more. */
  lemma RequestsUnbounded(run: Run, o: OpId, k: nat) returns (longer: Run)
    requires IsRun(run) && CanQueue(Last(run), o)
    ensures Continues(longer, run) && Begins(longer.labels, o) >= Begins(run.labels, o) + k
  {
    var a := ToQueued(run, o);
    var b := QueuedTimes(a, o, k);
    longer := BegunTimes(b, o, k);
    ContinuesOn(run, a, b);
    ContinuesOn(run, b, longer);
  }

  /** `o` costs at most `b` requests, in this run and however it goes on. */
  ghost predicate Bounded(run: Run, o: OpId, b: nat) {
    forall longer :: Continues(longer, run) ==> Begins(longer.labels, o) <= b
  }

  /** An operation costs at most `b` requests, in every continuation of any run, if and only if it is
      not queued and cannot be queued again, and the requests made and the tasks that wait for it
      are together at most `b`. */
  lemma BoundedExactly(run: Run, o: OpId, b: nat)
    requires IsRun(run) && o in Last(run).ops
    ensures Bounded(run, o, b) <==>
            !CanQueue(Last(run), o) && Begins(run.labels, o) + Last(run).tasks[Send(o)] <= b
  {
    var n, w := |run.labels|, Last(run);
    if CanQueue(w, o) {
      var longer := RequestsUnbounded(run, o, b + 1);
    } else if Begins(run.labels, o) + w.tasks[Send(o)] > b {
      var longer := BegunTimes(run, o, w.tasks[Send(o)]);
    } else {
      forall longer | Continues(longer, run) ensures Begins(longer.labels, o) <= b {
        assert longer.worlds[n] == run.worlds[n] && longer.labels[..n] == run.labels;
        OnlyWaitingSends(longer, n, |longer.labels|, o);
        assert longer.labels[..|longer.labels|] == longer.labels;
      }
    }
  }

  /** A new operation can always come to cost any number of requests. */
  lemma NewOperationUnbounded(ep: Endpoint, k: nat) returns (run: Run)
    ensures IsRun(run) && Begins(run.labels, 0) == k
  {
    var a := OneMoreStep(Run([INITIAL], []), Create(ep, "v2", 0, false), 0);
    assert Last(a) == Created(INITIAL, ep, "v2", 0, false);
    var b := QueuedTimes(a, 0, k);
    run := BegunTimes(b, 0, k);
  }
}
