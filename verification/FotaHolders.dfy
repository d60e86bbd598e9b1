/** Who still holds an operation: the send tasks that wait for it and the sends under way. What
    becomes of its status, and of the number of its requests, is decided by them. */
module FotaHolders {
  import opened Wrappers
  import opened FotaModel
  import opened FotaInvariants
  import opened FotaTraces

  // ---- final for good

  /** No send of `o` waits or is under way. */
  ghost predicate Untaken(w: World, o: OpId) {
    Send(o) !in w.tasks && !Held(w, o)
  }

  /** Row `o` has a final status and will not be sent. */
  ghost predicate Settled(w: World, o: OpId) {
    o in w.ops && !Pending(w.ops[o].status) && Untaken(w, o)
  }

  /** The flights of `o` are the same before and after. */
  lemma SameHolders(w: World, v: World, o: OpId)
    requires forall f :: f in w.flights && w.flights[f].op == o ==> f in v.flights && v.flights[f] == w.flights[f]
    requires forall f :: f in v.flights && v.flights[f].op == o ==> f in w.flights && v.flights[f] == w.flights[f]
    ensures Held(v, o) <==> Held(w, o)
  {
    if f :| f in w.flights && w.flights[f].op == o {
      assert f in v.flights && v.flights[f].op == o;
    }
  }

  lemma PassSparesSettled(w: World, ep: Endpoint, o: OpId)
    requires Settled(w, o)
    ensures Settled(Passed(w, ep), o)
  {
    assert Send(o) !in (set p | p in QueuedOps(w, ep) :: Send(p));
    assert Held(Passed(w, ep), o) ==> Held(w, o);
  }

  lemma ReportSparesSettled(w: World, ep: Endpoint, report: Report, s: UpdateId, o: OpId)
    requires Inv(w) && (Active(w, ep) != {} ==> IsLatest(w, ep, s)) && Settled(w, o)
    ensures Settled(HandleFota(w, ep, report, s), o) && HandleFota(w, ep, report, s).ops[o] == w.ops[o]
  {
    if Active(w, ep) != {} {
      ReportOp(w, ep, report, s, o);
      assert HandleFota(w, ep, report, s).flights == w.flights;
      assert Send(o) !in HandleFota(w, ep, report, s).tasks;
      assert Held(HandleFota(w, ep, report, s), o) ==> Held(w, o);
    }
  }

  lemma SendSparesSettled(w: World, l: Label, o: OpId)
    requires Inv(w) && Enabled(w, l) && (l.BeginSend? || l.FinishSend?) && Settled(w, o)
    ensures Settled(Apply(w, l), o) && Apply(w, l).ops[o] == w.ops[o]
  {
    var v := Apply(w, l);
    if l.FinishSend? {
      FinishRows(w, l.flight, l.response);
      assert w.flights[l.flight].op != o;
      assert v.tasks == w.tasks && v.flights == w.flights - {l.flight};
    } else {
      assert l.op != o;
    }
    SameHolders(w, v, o);
  }

  lemma SettledStep(w: World, l: Label, o: OpId)
    requires Inv(w) && Enabled(w, l) && Settled(w, o)
    ensures Settled(Apply(w, l), o) && Apply(w, l).ops[o] == w.ops[o]
  {
    match l
    case Reported(ep, report, s) => ReportSparesSettled(w, ep, report, s, o);
    case RunPass(ep) => PassSparesSettled(w, ep, o);
    case BeginSend(_) => SendSparesSettled(w, l, o);
    case FinishSend(_, _) => SendSparesSettled(w, l, o);
    case _ => assert Held(Apply(w, l), o) ==> Held(w, o);
  }

  lemma {:induction false} SettledStays(run: Run, i: nat, j: nat, o: OpId)
    requires IsRun(run) && i <= j < |run.worlds| && Settled(run.worlds[i], o)
    ensures Settled(run.worlds[j], o) && run.worlds[j].ops[o] == run.worlds[i].ops[o]
    decreases j - i
  {
    if i < j {
      SettledStays(run, i, j - 1, o);
      RunStep(run, j - 1);
      SettledStep(run.worlds[j - 1], run.labels[j - 1], o);
    }
  }

  /** While something holds a final row, a next step takes it to another status. */
  lemma TakenCanChange(w: World, o: OpId) returns (l: Label)
    requires Inv(w) && o in w.ops && !Pending(w.ops[o].status) && !Untaken(w, o)
    ensures Enabled(w, l) && o in Apply(w, l).ops && Apply(w, l).ops[o].status != w.ops[o].status
  {
    if Send(o) in w.tasks {
      l := BeginSend(o);
    } else {
      var f :| f in w.flights && w.flights[f].op == o;
      l := FinishSend(f, Answer(if w.ops[o].status == Confirmed then 400 else 200, ""));
    }
    FinalStatusLeftExactly(w, l, o);
  }

  ghost predicate Continues(longer: Run, run: Run) {
    IsRun(longer) && IsRun(run) && run.worlds <= longer.worlds && run.labels <= longer.labels
  }

  /** `o` ends every continuation of the run with the row it has now. */
  ghost predicate FinalForGood(run: Run, o: OpId)
    requires IsRun(run) && o in Last(run).ops
  {
    forall longer :: Continues(longer, run) ==> o in Last(longer).ops && Last(longer).ops[o] == Last(run).ops[o]
  }

  /** A CONFIRMED or FAILED row never changes again, in any continuation of any run, if and only if
      no send task waits for it and no send of it is under way. */
  lemma FinalForGoodExactly(run: Run, o: OpId)
    requires IsRun(run) && o in Last(run).ops && !Pending(Last(run).ops[o].status)
    ensures FinalForGood(run, o) <==> Untaken(Last(run), o)
  {
    var n := |run.labels|;
    if Untaken(Last(run), o) {
      forall longer | Continues(longer, run)
        ensures o in Last(longer).ops && Last(longer).ops[o] == Last(run).ops[o]
      {
        assert longer.worlds[n] == run.worlds[n];
        SettledStays(longer, n, |longer.labels|, o);
      }
    } else {
      RunKeepsInv(run, n);
      var l := TakenCanChange(Last(run), o);
      var longer := Extended(run, l);
      assert Continues(longer, run);
    }
  }

  // ---- the number of requests

  /** At most one task, waiting or under way, holds `o`. */
  ghost predicate OneHolder(w: World, o: OpId) {
    && w.tasks[Send(o)] <= 1
    && (Held(w, o) ==> Send(o) !in w.tasks)
    && forall f, g :: f in w.flights && g in w.flights && w.flights[f].op == w.flights[g].op == o ==> f == g
  }

  /** The requests made for `o`. */
  function Begins(labels: seq<Label>, o: OpId): nat {
    if labels == [] then 0
    else Begins(labels[..|labels| - 1], o) + if labels[|labels| - 1] == BeginSend(o) then 1 else 0
  }

  /** `b` requests were made for `o`: a send under way is the last of them, and a row that can
      still be sent has counted them all. */
  ghost predicate Budget(w: World, o: OpId, b: nat) {
    && b <= MAX_ATTEMPTS
    && (o !in w.ops ==> b == 0 && Untaken(w, o))
    && (o in w.ops && Held(w, o) ==> w.ops[o].status != Queued)
    && (forall f :: f in w.flights && w.flights[f].op == o ==> w.flights[f].copy.counter + 1 == b)
    && (o in w.ops && !Held(w, o) && (Send(o) in w.tasks || w.ops[o].status == Queued) ==>
          w.ops[o].counter == b < MAX_ATTEMPTS)
  }

  lemma BeginBudget(w: World, o: OpId, b: nat)
    requires Inv(w) && Send(o) in w.tasks && OneHolder(w, o) && Budget(w, o, b)
    ensures Budget(Begun(w, o), o, b + 1)
  {
    var v := Begun(w, o);
    assert o in w.ops && !Held(w, o);
    assert v.flights[w.nextFlight].op == o;
  }

  lemma FinishBudget(w: World, f: FlightId, r: Response, o: OpId, b: nat)
    requires Inv(w) && f in w.flights && w.flights[f].op == o && OneHolder(w, o) && Budget(w, o, b)
    ensures Budget(Finished(w, f, r), o, b)
  {
    FinishRows(w, f, r);
    var v := Finished(w, f, r);
    assert v.tasks == w.tasks && v.flights == w.flights - {f};
    assert Held(w, o) && !Held(v, o);
  }

  lemma OtherSendBudget(w: World, l: Label, o: OpId, b: nat)
    requires Inv(w) && Enabled(w, l) && Budget(w, o, b)
    requires match l case BeginSend(p) => p != o case FinishSend(f, _) => w.flights[f].op != o case _ => false
    ensures Budget(Apply(w, l), o, b)
  {
    var v := Apply(w, l);
    if l.FinishSend? {
      FinishRows(w, l.flight, l.response);
      assert v.tasks == w.tasks && v.flights == w.flights - {l.flight};
    }
    assert Send(o) in v.tasks <==> Send(o) in w.tasks;
    assert o in v.ops <==> o in w.ops;
    assert o in w.ops ==> v.ops[o] == w.ops[o];
    SameHolders(w, v, o);
  }

  lemma PassBudget(w: World, ep: Endpoint, o: OpId, b: nat)
    requires Inv(w) && Budget(w, o, b)
    ensures Budget(Passed(w, ep), o, b)
  {
    var sends := set p | p in QueuedOps(w, ep) :: Send(p);
    assert Send(o) in sends ==> o in w.ops && w.ops[o].status == Queued;
    SameHolders(w, Passed(w, ep), o);
  }

  lemma ReportBudget(w: World, ep: Endpoint, report: Report, s: UpdateId, o: OpId, b: nat)
    requires Inv(w) && (Active(w, ep) != {} ==> IsLatest(w, ep, s)) && Budget(w, o, b)
    ensures Budget(HandleFota(w, ep, report, s), o, b)
  {
    var v := HandleFota(w, ep, report, s);
    if Active(w, ep) != {} {
      assert v.flights == w.flights && (Send(o) in v.tasks <==> Send(o) in w.tasks);
      SameHolders(w, v, o);
      if o in w.ops {
        ReportOp(w, ep, report, s, o);
      } else if o in v.ops {
        FreshRow(w, ep, report, s, o);
      }
    }
  }

  lemma FreshRow(w: World, ep: Endpoint, report: Report, s: UpdateId, o: OpId)
    requires Inv(w) && IsLatest(w, ep, s) && o !in w.ops && o in HandleFota(w, ep, report, s).ops
    ensures HandleFota(w, ep, report, s).ops[o].counter == 0
  {
    assert o !in Cleaned(w, ep, s).ops;
  }

  lemma BudgetStep(w: World, l: Label, o: OpId, b: nat)
    requires Inv(w) && Enabled(w, l) && OneHolder(w, o) && Budget(w, o, b)
    ensures Budget(Apply(w, l), o, b + if l == BeginSend(o) then 1 else 0)
  {
    match l
    case Reported(ep, report, s) => ReportBudget(w, ep, report, s, o, b);
    case RunPass(ep) => PassBudget(w, ep, o, b);
    case BeginSend(p) => if p == o { BeginBudget(w, o, b); } else { OtherSendBudget(w, l, o, b); }
    case FinishSend(f, r) =>
      if w.flights[f].op == o { FinishBudget(w, f, r, o, b); } else { OtherSendBudget(w, l, o, b); }
    case _ => SameHolders(w, Apply(w, l), o);
  }

  lemma RunBudgetStep(run: Run, n: nat, o: OpId, b: nat)
    requires IsRun(run) && n < |run.labels| && OneHolder(run.worlds[n], o) && Budget(run.worlds[n], o, b)
    ensures Budget(run.worlds[n + 1], o, b + if run.labels[n] == BeginSend(o) then 1 else 0)
  {
    RunStep(run, n);
    BudgetStep(run.worlds[n], run.labels[n], o, b);
  }

  lemma {:induction false} RunKeepsBudget(run: Run, n: nat, o: OpId)
    requires IsRun(run) && n < |run.worlds|
    requires forall i :: 0 <= i < n ==> OneHolder(run.worlds[i], o)
    ensures Budget(run.worlds[n], o, Begins(run.labels[..n], o))
  {
    if n > 0 {
      RunKeepsBudget(run, n - 1, o);
      RunBudgetStep(run, n - 1, o, Begins(run.labels[..n - 1], o));
      assert run.labels[..n][..n - 1] == run.labels[..n - 1];
    }
  }

  /** In any run, with reports, aborts and other sends falling anywhere between the start and the
      end of a send, an operation that never has two holders costs at most three requests. */
  lemma AtMostThreeSends(run: Run, n: nat, o: OpId)
    requires IsRun(run) && n < |run.worlds|
    requires forall i :: 0 <= i < n ==> OneHolder(run.worlds[i], o)
    ensures Begins(run.labels[..n], o) <= MAX_ATTEMPTS
  {
    RunKeepsBudget(run, n, o);
  }
}
