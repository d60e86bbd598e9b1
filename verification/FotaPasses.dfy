/** The protocol when every pending pass runs its sends to completion before anything else
    happens: no duplicate tasks, no stale copies. */
module FotaPasses {
  import opened Wrappers
  import opened FotaModel
  import opened FotaInvariants
  import FotaTraces

  // ---- a pass and its sends

  /** One send from start to end. */
  ghost function SendNow(w: World, o: OpId, answer: Response): World
    requires o in w.ops
  {
    Finished(Begun(w, o), w.nextFlight, answer)
  }

  lemma SendNowOps(w: World, o: OpId, answer: Response)
    requires o in w.ops && w.flights == map[]
    ensures var v := SendNow(w, o, answer);
            && v.ops == w.ops[o := Outcome(w.ops[o].(status := Sending), answer)]
            && v.flights == map[] && v.nextOp == w.nextOp && v.nextFlight == w.nextFlight + 1
            && v.tasks == w.tasks - multiset{Send(o)}
  {
  }

  ghost function Sends(w: World, order: seq<OpId>, answers: seq<Response>): World
    requires |order| == |answers| && w.flights == map[]
    requires forall o :: o in order ==> o in w.ops
    decreases |order|
  {
    if order == [] then w
    else
      SendNowOps(w, order[0], answers[0]);
      Sends(SendNow(w, order[0], answers[0]), order[1..], answers[1..])
  }

  /** `order` lists each element of `s` once. */
  ghost predicate Lists(order: seq<OpId>, s: set<OpId>) {
    && (forall o :: o in order <==> o in s)
    && (forall i, j :: 0 <= i < j < |order| ==> order[i] != order[j])
  }

  ghost predicate CanPass(w: World, ep: Endpoint, order: seq<OpId>, answers: seq<Response>) {
    && w.flights == map[]
    && Pass(ep) in w.tasks
    && Lists(order, QueuedOps(w, ep))
    && |answers| == |order|
  }

  ghost function FullPass(w: World, ep: Endpoint, order: seq<OpId>, answers: seq<Response>): World
    requires CanPass(w, ep, order, answers)
  {
    Sends(Passed(w, ep), order, answers)
  }

  // ---- a full pass is a stretch of an ordinary run

  ghost predicate Reaches(w: World, labels: seq<Label>, v: World)
    decreases |labels|
  {
    if labels == [] then w == v
    else Enabled(w, labels[0]) && Reaches(Apply(w, labels[0]), labels[1..], v)
  }

  lemma ReachesFirst(w: World, l: Label, rest: seq<Label>, v: World)
    requires Enabled(w, l) && Reaches(Apply(w, l), rest, v)
    ensures Reaches(w, [l] + rest, v)
  {
    assert ([l] + rest)[1..] == rest;
  }

  function SendLabels(next: FlightId, order: seq<OpId>, answers: seq<Response>): seq<Label>
    requires |order| == |answers|
    decreases |order|
  {
    if order == [] then []
    else [BeginSend(order[0]), FinishSend(next, answers[0])] + SendLabels(next + 1, order[1..], answers[1..])
  }

  lemma {:induction false} SendsAreSteps(w: World, order: seq<OpId>, answers: seq<Response>)
    requires |order| == |answers| && w.flights == map[]
    requires forall o :: o in order ==> o in w.ops && Send(o) in w.tasks
    requires forall i, j :: 0 <= i < j < |order| ==> order[i] != order[j]
    ensures Reaches(w, SendLabels(w.nextFlight, order, answers), Sends(w, order, answers))
    decreases |order|
  {
    if order != [] {
      var o, rest := order[0], SendLabels(w.nextFlight + 1, order[1..], answers[1..]);
      var labels := SendLabels(w.nextFlight, order, answers);
      var v := Apply(w, BeginSend(o));
      var x := SendNow(w, o, answers[0]);
      SendNowOps(w, o, answers[0]);
      assert labels[0] == BeginSend(o) && labels[1..][0] == FinishSend(w.nextFlight, answers[0]);
      assert labels[1..][1..] == rest;
      assert v == Begun(w, o) && Apply(v, FinishSend(w.nextFlight, answers[0])) == x;
      forall p | p in order[1..] ensures p in x.ops && Send(p) in x.tasks {
        var i :| 1 <= i < |order| && order[i] == p;
        assert p != o;
      }
      SendsAreSteps(x, order[1..], answers[1..]);
      assert Reaches(v, labels[1..], Sends(w, order, answers));
    }
  }

  /** A full pass takes the ordinary steps: one RunPass, then one BeginSend and one FinishSend
      for each queued operation. */
  lemma PassIsSteps(w: World, ep: Endpoint, order: seq<OpId>, answers: seq<Response>)
    requires CanPass(w, ep, order, answers)
    ensures Reaches(w, [RunPass(ep)] + SendLabels(w.nextFlight, order, answers), FullPass(w, ep, order, answers))
  {
    var v, rest := Passed(w, ep), SendLabels(w.nextFlight, order, answers);
    forall o | o in order ensures o in v.ops && Send(o) in v.tasks {
      assert Send(o) in (set p | p in QueuedOps(w, ep) :: Send(p));
    }
    SendsAreSteps(v, order, answers);
    ReachesFirst(w, RunPass(ep), rest, FullPass(w, ep, order, answers));
  }

  // ---- what a pass does

  lemma {:induction false} SendsElsewhere(w: World, order: seq<OpId>, answers: seq<Response>)
    requires |order| == |answers| && w.flights == map[]
    requires forall o :: o in order ==> o in w.ops
    ensures var v := Sends(w, order, answers);
            && v.ops.Keys == w.ops.Keys && v.flights == map[] && v.nextOp == w.nextOp
            && forall o :: o in w.ops && o !in order ==> v.ops[o] == w.ops[o]
    decreases |order|
  {
    if order != [] {
      SendNowOps(w, order[0], answers[0]);
      SendsElsewhere(SendNow(w, order[0], answers[0]), order[1..], answers[1..]);
    }
  }

  /** Each listed row gets its own answer, once. */
  lemma {:induction false} SendsAt(w: World, order: seq<OpId>, answers: seq<Response>, i: nat)
    requires i < |order| == |answers| && w.flights == map[]
    requires forall o :: o in order ==> o in w.ops
    requires forall j, k :: 0 <= j < k < |order| ==> order[j] != order[k]
    ensures order[i] in Sends(w, order, answers).ops
    ensures Sends(w, order, answers).ops[order[i]] == Outcome(w.ops[order[i]].(status := Sending), answers[i])
    decreases |order|
  {
    var x, rest := SendNow(w, order[0], answers[0]), order[1..];
    SendNowOps(w, order[0], answers[0]);
    assert Sends(w, order, answers) == Sends(x, rest, answers[1..]);
    assert forall k :: 0 <= k < |rest| ==> rest[k] == order[k + 1];
    if i == 0 {
      assert order[0] !in rest;
      SendsElsewhere(x, rest, answers[1..]);
    } else {
      assert x.ops[order[i]] == w.ops[order[i]];
      SendsAt(x, rest, answers[1..], i - 1);
    }
  }

  /** Each send takes its own task off the queue. */
  lemma {:induction false} SendsTasks(w: World, order: seq<OpId>, answers: seq<Response>, o: OpId)
    requires |order| == |answers| && w.flights == map[]
    requires forall p :: p in order ==> p in w.ops
    ensures Sends(w, order, answers).tasks[Send(o)] <= w.tasks[Send(o)]
    ensures o in order && Send(o) in w.tasks ==> Sends(w, order, answers).tasks[Send(o)] < w.tasks[Send(o)]
    decreases |order|
  {
    if order != [] {
      SendNowOps(w, order[0], answers[0]);
      SendsTasks(SendNow(w, order[0], answers[0]), order[1..], answers[1..], o);
    }
  }

  lemma {:induction false} SendsKeepInv(w: World, order: seq<OpId>, answers: seq<Response>)
    requires Inv(w) && |order| == |answers| && w.flights == map[]
    requires forall o :: o in order ==> o in w.ops
    ensures Inv(Sends(w, order, answers))
    ensures FailedResolved(w) ==> FailedResolved(Sends(w, order, answers))
    ensures forall u :: u in w.updates ==>
              && u in Sends(w, order, answers).updates
              && Sends(w, order, answers).updates[u].sendUri == w.updates[u].sendUri
              && (w.updates[u].result != DEFAULT ==> Sends(w, order, answers).updates[u] == w.updates[u])
    decreases |order|
  {
    if order != [] {
      var v := Begun(w, order[0]);
      BeginKeepsInv(w, order[0]);
      FinishKeepsInv(v, w.nextFlight, answers[0]);
      FotaTraces.FinishRows(v, w.nextFlight, answers[0]);
      SendNowOps(w, order[0], answers[0]);
      SendsKeepInv(SendNow(w, order[0], answers[0]), order[1..], answers[1..]);
    }
  }

  /** The answer the pass obtains for `o`. */
  ghost predicate Answered(order: seq<OpId>, answers: seq<Response>, o: OpId, answer: Response)
    requires |order| == |answers|
  {
    exists i :: 0 <= i < |order| && order[i] == o && answers[i] == answer
  }

  /** A pass settles or counts every queued operation of the endpoint once, and touches no other. */
  lemma PassOnOps(w: World, ep: Endpoint, order: seq<OpId>, answers: seq<Response>)
    requires CanPass(w, ep, order, answers)
    ensures var v := FullPass(w, ep, order, answers);
            && v.ops.Keys == w.ops.Keys && v.flights == map[] && v.nextOp == w.nextOp
            && (forall o :: o in w.ops && o !in QueuedOps(w, ep) ==> v.ops[o] == w.ops[o])
            && (forall o :: o in QueuedOps(w, ep) ==>
                  exists a :: Answered(order, answers, o, a) && v.ops[o] == Outcome(w.ops[o].(status := Sending), a))
  {
    var p := Passed(w, ep);
    SendsElsewhere(p, order, answers);
    forall o | o in QueuedOps(w, ep)
      ensures exists a :: Answered(order, answers, o, a) &&
                FullPass(w, ep, order, answers).ops[o] == Outcome(w.ops[o].(status := Sending), a)
    {
      assert o in order;
      var i :| 0 <= i < |order| && order[i] == o;
      SendsAt(p, order, answers, i);
      assert Answered(order, answers, o, answers[i]);
    }
  }

  /** The same for one row, in terms of its counter and status. */
  lemma PassOnRow(w: World, ep: Endpoint, order: seq<OpId>, answers: seq<Response>, o: OpId)
    requires CanPass(w, ep, order, answers) && o in w.ops
    ensures var v := FullPass(w, ep, order, answers);
            && o in v.ops && v.ops[o].endpoint == w.ops[o].endpoint
            && if o in order
               then && o in QueuedOps(w, ep)
                    && v.ops[o].status != Sending
                    && v.ops[o].counter == w.ops[o].counter + (if v.ops[o].status == Confirmed then 0 else 1)
                    && (v.ops[o].status == Queued ==> v.ops[o].counter < MAX_ATTEMPTS)
               else v.ops[o] == w.ops[o] && o !in QueuedOps(w, ep)
  {
    PassOnOps(w, ep, order, answers);
  }

  // ---- sequential runs

  /** The database together with the number of gateway requests made for each operation. */
  datatype Ledger = Ledger(world: World, requests: map<OpId, nat>)

  datatype Step = One(action: Label) | Full(endpoint: Endpoint, order: seq<OpId>, answers: seq<Response>)

  function Requests(requests: map<OpId, nat>, o: OpId): nat {
    if o in requests then requests[o] else 0
  }

  function Counted(requests: map<OpId, nat>, order: seq<OpId>): map<OpId, nat> {
    map o | o in requests.Keys + (set p | p in order) :: Requests(requests, o) + if o in order then 1 else 0
  }

  ghost predicate CanStep(l: Ledger, s: Step) {
    match s
    case One(action) => !action.RunPass? && !action.BeginSend? && !action.FinishSend? && Enabled(l.world, action)
    case Full(ep, order, answers) => CanPass(l.world, ep, order, answers)
  }

  ghost function Next(l: Ledger, s: Step): Ledger
    requires CanStep(l, s)
  {
    match s
    case One(action) => l.(world := Apply(l.world, action))
    case Full(ep, order, answers) => Ledger(FullPass(l.world, ep, order, answers), Counted(l.requests, order))
  }

  datatype SeqRun = SeqRun(ledgers: seq<Ledger>, steps: seq<Step>)

  ghost predicate StepAt(run: SeqRun, i: nat)
    requires i < |run.steps| < |run.ledgers|
  {
    CanStep(run.ledgers[i], run.steps[i]) && run.ledgers[i + 1] == Next(run.ledgers[i], run.steps[i])
  }

  ghost predicate IsSeqRun(run: SeqRun) {
    && |run.ledgers| == |run.steps| + 1
    && run.ledgers[0] == Ledger(INITIAL, map[])
    && forall i :: 0 <= i < |run.steps| ==> StepAt(run, i)
  }

  /** Attempts that failed are counted in the row; one more request may have confirmed it. */
  predicate RowCounted(op: Operation, requests: nat) {
    && requests <= op.counter + (if op.status == Confirmed then 1 else 0)
    && op.counter <= MAX_ATTEMPTS
    && (op.status == Queued ==> requests == op.counter)
    && (op.status == Queued || op.status == Confirmed ==> op.counter < MAX_ATTEMPTS)
  }

  ghost predicate CountsRequests(l: Ledger) {
    forall o :: o in l.world.ops ==> RowCounted(l.world.ops[o], Requests(l.requests, o))
  }

  /** Between passes nothing is being sent and no send task waits. */
  ghost predicate Quiet(w: World) {
    w.flights == map[] && forall o :: Send(o) !in w.tasks
  }

  ghost predicate SeqInv(l: Ledger) {
    && Inv(l.world)
    && Quiet(l.world)
    && CountsRequests(l)
    && forall o :: o in l.requests ==> o in l.world.ops
  }

  lemma OneKeepsRows(w: World, l: Label)
    requires Inv(w) && Quiet(w) && Enabled(w, l) && !l.RunPass? && !l.BeginSend? && !l.FinishSend?
    ensures Quiet(Apply(w, l))
    ensures forall o :: o in w.ops ==>
              o in Apply(w, l).ops && (Apply(w, l).ops[o] == w.ops[o] || Apply(w, l).ops[o] == AbortOne(w.ops[o]))
    ensures forall o :: o in Apply(w, l).ops && o !in w.ops ==> o >= w.nextOp && Apply(w, l).ops[o].counter == 0
  {
    if l.Reported? && Active(w, l.endpoint) != {} {
      CleanedSparesSurvivor(w, l.endpoint, l.survivor);
      forall o | o in w.ops
        ensures o in Apply(w, l).ops && (Apply(w, l).ops[o] == w.ops[o] || Apply(w, l).ops[o] == AbortOne(w.ops[o]))
      {
        FotaTraces.ReportOp(w, l.endpoint, l.report, l.survivor, o);
      }
    }
  }

  lemma PassIsQuiet(w: World, ep: Endpoint, order: seq<OpId>, answers: seq<Response>)
    requires Quiet(w) && CanPass(w, ep, order, answers)
    ensures Quiet(FullPass(w, ep, order, answers))
  {
    var p, v := Passed(w, ep), FullPass(w, ep, order, answers);
    SendsElsewhere(p, order, answers);
    forall o ensures Send(o) !in v.tasks {
      SendsTasks(p, order, answers, o);
      var sends := set q | q in QueuedOps(w, ep) :: Send(q);
      assert Send(o) in sends <==> o in order;
      assert p.tasks[Send(o)] == multiset(sends)[Send(o)] <= 1;
    }
  }

  lemma OneKeepsSeqInv(l: Ledger, action: Label)
    requires SeqInv(l) && CanStep(l, One(action))
    ensures SeqInv(Next(l, One(action)))
  {
    var m := Next(l, One(action));
    StepKeepsInv(l.world, action);
    OneKeepsRows(l.world, action);
    forall o | o in m.world.ops
      ensures RowCounted(m.world.ops[o], Requests(m.requests, o))
    {
      if o in l.world.ops {
        assert m.world.ops[o] == l.world.ops[o] || m.world.ops[o] == AbortOne(l.world.ops[o]);
      }
    }
  }

  lemma PassCountsRequests(l: Ledger, ep: Endpoint, order: seq<OpId>, answers: seq<Response>)
    requires SeqInv(l) && CanStep(l, Full(ep, order, answers))
    ensures CountsRequests(Next(l, Full(ep, order, answers)))
    ensures Next(l, Full(ep, order, answers)).world.ops.Keys == l.world.ops.Keys
  {
    var m := Next(l, Full(ep, order, answers));
    PassOnOps(l.world, ep, order, answers);
    forall o | o in m.world.ops ensures RowCounted(m.world.ops[o], Requests(m.requests, o)) {
      PassOnRow(l.world, ep, order, answers, o);
      assert RowCounted(l.world.ops[o], Requests(l.requests, o));
      assert Requests(m.requests, o) == Requests(l.requests, o) + if o in order then 1 else 0;
    }
  }

  lemma PassKeepsSeqInv(l: Ledger, ep: Endpoint, order: seq<OpId>, answers: seq<Response>)
    requires SeqInv(l) && CanStep(l, Full(ep, order, answers))
    ensures SeqInv(Next(l, Full(ep, order, answers)))
  {
    var m := Next(l, Full(ep, order, answers));
    TasksKeepInv(l.world, Passed(l.world, ep).tasks);
    SendsKeepInv(Passed(l.world, ep), order, answers);
    PassIsQuiet(l.world, ep, order, answers);
    PassCountsRequests(l, ep, order, answers);
    assert Inv(m.world);
    forall o | o in m.requests ensures o in m.world.ops {
      assert o in order ==> o in QueuedOps(l.world, ep);
    }
  }

  lemma StepKeepsSeqInv(l: Ledger, s: Step)
    requires SeqInv(l) && CanStep(l, s)
    ensures SeqInv(Next(l, s))
  {
    match s
    case One(action) => OneKeepsSeqInv(l, action);
    case Full(ep, order, answers) => PassKeepsSeqInv(l, ep, order, answers);
  }

  lemma {:induction false} RunKeepsSeqInv(run: SeqRun, n: nat)
    requires IsSeqRun(run) && n < |run.ledgers|
    ensures SeqInv(run.ledgers[n])
  {
    if n > 0 {
      RunKeepsSeqInv(run, n - 1);
      assert StepAt(run, n - 1);
      StepKeepsSeqInv(run.ledgers[n - 1], run.steps[n - 1]);
    }
  }

  /** A step of a sequential run, with the invariant before it. */
  lemma SeqRunStep(run: SeqRun, i: nat)
    requires IsSeqRun(run) && i < |run.steps|
    ensures SeqInv(run.ledgers[i]) && CanStep(run.ledgers[i], run.steps[i])
    ensures run.ledgers[i + 1] == Next(run.ledgers[i], run.steps[i])
  {
    RunKeepsSeqInv(run, i);
    assert StepAt(run, i);
  }

  // ---- the promises of sequential delivery

  /** No operation ever costs more than three gateway requests. */
  lemma AtMostThreeRequests(run: SeqRun, n: nat, o: OpId)
    requires IsSeqRun(run) && n < |run.ledgers|
    ensures Requests(run.ledgers[n].requests, o) <= MAX_ATTEMPTS
  {
    RunKeepsSeqInv(run, n);
    assert o in run.ledgers[n].requests ==> o in run.ledgers[n].world.ops;
  }

  lemma FinalStepStays(l: Ledger, s: Step, o: OpId)
    requires SeqInv(l) && CanStep(l, s) && o in l.world.ops && !Pending(l.world.ops[o].status)
    ensures o in Next(l, s).world.ops && Next(l, s).world.ops[o] == l.world.ops[o]
  {
    match s
    case One(action) => OneKeepsRows(l.world, action);
    case Full(ep, order, answers) => PassOnOps(l.world, ep, order, answers);
  }

  lemma SeqStepFinal(run: SeqRun, k: nat, o: OpId)
    requires IsSeqRun(run) && k < |run.steps|
    requires o in run.ledgers[k].world.ops && !Pending(run.ledgers[k].world.ops[o].status)
    ensures o in run.ledgers[k + 1].world.ops && run.ledgers[k + 1].world.ops[o] == run.ledgers[k].world.ops[o]
  {
    SeqRunStep(run, k);
    FinalStepStays(run.ledgers[k], run.steps[k], o);
  }

  /** CONFIRMED and FAILED are final: the row never changes again. */
  lemma {:induction false} FinalStatusStays(run: SeqRun, i: nat, j: nat, o: OpId)
    requires IsSeqRun(run) && i <= j < |run.ledgers|
    requires o in run.ledgers[i].world.ops && !Pending(run.ledgers[i].world.ops[o].status)
    ensures o in run.ledgers[j].world.ops && run.ledgers[j].world.ops[o] == run.ledgers[i].world.ops[o]
    decreases j - i
  {
    if i < j {
      FinalStatusStays(run, i, j - 1, o);
      SeqStepFinal(run, j - 1, o);
    }
  }

  /** The step is a pass in which the gateway answered the send of `o` with a success, or the API
      call that created `o` as confirmed. */
  ghost predicate Confirms(l: Ledger, s: Step, o: OpId)
    requires CanStep(l, s)
  {
    match s
    case One(action) => action.PostOperation? && action.status == Confirmed && o == l.world.nextOp
    case Full(ep, order, answers) => exists a :: Answered(order, answers, o, a) && Delivered(a)
  }

  /** The row a step inserts is queued, unless an API call says otherwise. */
  lemma NewRowStatus(w: World, l: Label, o: OpId)
    requires Inv(w) && Enabled(w, l) && !l.RunPass? && !l.BeginSend? && !l.FinishSend?
    requires o !in w.ops && o in Apply(w, l).ops
    ensures o == w.nextOp && Apply(w, l).ops[o].status == if l.PostOperation? then l.status else Queued
  {
    if l.Reported? && Active(w, l.endpoint) != {} {
      assert o !in Cleaned(w, l.endpoint, l.survivor).ops;
    }
  }

  lemma OneConfirms(l: Ledger, action: Label, o: OpId)
    requires SeqInv(l) && CanStep(l, One(action)) && o in Next(l, One(action)).world.ops
    ensures Next(l, One(action)).world.ops[o].status == Confirmed <==>
            (o in l.world.ops && l.world.ops[o].status == Confirmed) || Confirms(l, One(action), o)
  {
    if o in l.world.ops {
      OneKeepsRows(l.world, action);
    } else {
      NewRowStatus(l.world, action, o);
    }
  }

  lemma PassConfirms(l: Ledger, ep: Endpoint, order: seq<OpId>, answers: seq<Response>, o: OpId)
    requires SeqInv(l) && CanStep(l, Full(ep, order, answers)) && o in l.world.ops
    ensures var v := FullPass(l.world, ep, order, answers);
            && o in v.ops
            && (v.ops[o].status == Confirmed <==>
                l.world.ops[o].status == Confirmed || Confirms(l, Full(ep, order, answers), o))
  {
    var w := l.world;
    PassOnOps(w, ep, order, answers);
    if o in QueuedOps(w, ep) {
      var a :| Answered(order, answers, o, a) && FullPass(w, ep, order, answers).ops[o] == Outcome(w.ops[o].(status := Sending), a);
      assert forall b :: Answered(order, answers, o, b) ==> b == a;
    }
  }

  ghost predicate ConfirmsAt(run: SeqRun, k: nat, o: OpId)
    requires IsSeqRun(run)
  {
    k < |run.steps| && CanStep(run.ledgers[k], run.steps[k]) && Confirms(run.ledgers[k], run.steps[k], o)
  }

  lemma ConfirmedStep(run: SeqRun, k: nat, o: OpId)
    requires IsSeqRun(run) && k < |run.steps| && o in run.ledgers[k + 1].world.ops
    ensures run.ledgers[k + 1].world.ops[o].status == Confirmed <==>
            (o in run.ledgers[k].world.ops && run.ledgers[k].world.ops[o].status == Confirmed) || ConfirmsAt(run, k, o)
    ensures run.steps[k].Full? ==> o in run.ledgers[k].world.ops
  {
    SeqRunStep(run, k);
    match run.steps[k]
    case One(action) => OneConfirms(run.ledgers[k], action, o);
    case Full(ep, order, answers) =>
      PassOnOps(run.ledgers[k].world, ep, order, answers);
      PassConfirms(run.ledgers[k], ep, order, answers, o);
  }

  /** Rows are not deleted, and a step confirms only rows it leaves behind. */
  lemma MissingUnconfirmed(l: Ledger, s: Step, o: OpId)
    requires SeqInv(l) && CanStep(l, s) && o !in Next(l, s).world.ops
    ensures o !in l.world.ops && !Confirms(l, s, o)
  {
    match s
    case One(action) => OneKeepsRows(l.world, action);
    case Full(ep, order, answers) => PassOnOps(l.world, ep, order, answers);
  }

  lemma MissingStep(run: SeqRun, k: nat, o: OpId)
    requires IsSeqRun(run) && k < |run.steps| && o !in run.ledgers[k + 1].world.ops
    ensures o !in run.ledgers[k].world.ops && !ConfirmsAt(run, k, o)
  {
    SeqRunStep(run, k);
    MissingUnconfirmed(run.ledgers[k], run.steps[k], o);
  }

  /** A row the ledger does not have yet was never confirmed. */
  lemma {:induction false} NotYetConfirmed(run: SeqRun, n: nat, o: OpId)
    requires IsSeqRun(run) && n < |run.ledgers| && o !in run.ledgers[n].world.ops
    ensures forall k :: 0 <= k < n ==> !ConfirmsAt(run, k, o)
  {
    if n > 0 {
      MissingStep(run, n - 1, o);
      NotYetConfirmed(run, n - 1, o);
    }
  }

  /** An operation is CONFIRMED if and only if the gateway once answered its request with a
      success, API calls that create it so aside. */
  lemma {:induction false} ConfirmedExactly(run: SeqRun, n: nat, o: OpId)
    requires IsSeqRun(run) && n < |run.ledgers| && o in run.ledgers[n].world.ops
    ensures run.ledgers[n].world.ops[o].status == Confirmed <==> exists k :: 0 <= k < n && ConfirmsAt(run, k, o)
  {
    if n > 0 {
      ConfirmedStep(run, n - 1, o);
      if o in run.ledgers[n - 1].world.ops {
        ConfirmedExactly(run, n - 1, o);
      } else {
        NotYetConfirmed(run, n - 1, o);
      }
    }
  }

  /** The classification of an answer, by status and code. */
  predicate Classified(status: Status, a: Response, requests: nat) {
    && (status == Confirmed <==> a.Answer? && a.status / 100 == 2)
    && (status == Queued <==>
        && (a.Answer? ==> a.status / 100 != 2 && a.status != 400 && (a.status == 502 ==> a.code == ""))
        && requests < 3)
    && (status == Failed <==> status != Confirmed && status != Queued)
  }

  lemma OutcomeClassified(op: Operation, a: Response)
    ensures Classified(Outcome(op, a).status, a, op.counter + 1)
  {
  }

  lemma PassClassifies(l: Ledger, ep: Endpoint, order: seq<OpId>, answers: seq<Response>, i: nat)
    requires SeqInv(l) && CanPass(l.world, ep, order, answers) && i < |order|
    ensures var m, o := Next(l, Full(ep, order, answers)), order[i];
            && o in m.world.ops
            && Requests(m.requests, o) == Requests(l.requests, o) + 1
            && Classified(m.world.ops[o].status, answers[i], Requests(m.requests, o))
  {
    var w, o := l.world, order[i];
    assert o in order;
    SendsAt(Passed(w, ep), order, answers, i);
    assert RowCounted(w.ops[o], Requests(l.requests, o));
    OutcomeClassified(w.ops[o].(status := Sending), answers[i]);
  }

  /** What one request comes to, counting requests over the whole run: success confirms; a device
      error, an invalid request or the third failure fails; any other failure is retried. */
  lemma RetriedExactly(run: SeqRun, n: nat, i: nat)
    requires IsSeqRun(run) && n < |run.steps| && run.steps[n].Full? && i < |run.steps[n].order| == |run.steps[n].answers|
    ensures var o, after := run.steps[n].order[i], run.ledgers[n + 1];
            && o in after.world.ops
            && Requests(after.requests, o) == Requests(run.ledgers[n].requests, o) + 1
            && Classified(after.world.ops[o].status, run.steps[n].answers[i], Requests(after.requests, o))
  {
    SeqRunStep(run, n);
    var s := run.steps[n];
    PassClassifies(run.ledgers[n], s.endpoint, s.order, s.answers, i);
  }

  /** The attempts left to the queued operations of `ep` among the first `n` ids. */
  function Debt(w: World, ep: Endpoint, n: nat): int {
    if n == 0 then 0
    else Debt(w, ep, n - 1) + if n - 1 in QueuedOps(w, ep) then MAX_ATTEMPTS - w.ops[n - 1].counter else 0
  }

  /** Debt goes down when every operation that is still queued was queued before, with a lower counter. */
  lemma {:induction false} DebtFalls(w: World, v: World, ep: Endpoint, n: nat)
    requires forall o :: o in QueuedOps(w, ep) ==> w.ops[o].counter < MAX_ATTEMPTS
    requires forall o :: o in QueuedOps(v, ep) ==> o in QueuedOps(w, ep) && w.ops[o].counter < v.ops[o].counter < MAX_ATTEMPTS
    ensures 0 <= Debt(v, ep, n) <= Debt(w, ep, n)
    ensures (exists o :: o in QueuedOps(w, ep) && o < n) ==> Debt(v, ep, n) < Debt(w, ep, n)
  {
    if n > 0 {
      DebtFalls(w, v, ep, n - 1);
    }
  }

  /** A pass that finds anything queued strictly lowers the attempts left on its endpoint, which
      are never negative. */
  lemma PassPaysDebt(run: SeqRun, n: nat, ep: Endpoint, order: seq<OpId>, answers: seq<Response>)
    requires IsSeqRun(run) && n < |run.steps| && run.steps[n] == Full(ep, order, answers)
    requires QueuedOps(run.ledgers[n].world, ep) != {}
    ensures var w, v := run.ledgers[n].world, run.ledgers[n + 1].world;
            v.nextOp == w.nextOp && 0 <= Debt(v, ep, v.nextOp) < Debt(w, ep, w.nextOp)
  {
    var w := run.ledgers[n].world;
    SeqRunStep(run, n);
    var v := FullPass(w, ep, order, answers);
    PassOnOps(w, ep, order, answers);
    forall o | o in QueuedOps(v, ep) ensures o in QueuedOps(w, ep) && w.ops[o].counter < v.ops[o].counter < MAX_ATTEMPTS {
      PassOnRow(w, ep, order, answers, o);
    }
    DebtFalls(w, v, ep, w.nextOp);
    var o :| o in QueuedOps(w, ep);
    assert o < w.nextOp;
  }

  /** The number of passes over `ep` between two moments. */
  function Passes(run: SeqRun, i: nat, j: nat, ep: Endpoint): nat
    requires i <= j <= |run.steps|
    decreases j - i
  {
    if i == j then 0
    else Passes(run, i, j - 1, ep) + if run.steps[j - 1].Full? && run.steps[j - 1].endpoint == ep then 1 else 0
  }

  /** A row that is queued after a step was queued before it, and has counted the step if it was a
      pass over its endpoint. */
  lemma StepOnQueued(l: Ledger, s: Step, o: OpId)
    requires SeqInv(l) && CanStep(l, s) && o in l.world.ops
    ensures o in Next(l, s).world.ops
    ensures var a, b := l.world.ops[o], Next(l, s).world.ops[o];
            && b.endpoint == a.endpoint
            && (b.status == Sending ==> a.status == Sending)
            && (b.status == Queued ==> a.status == Queued)
            && (b.status == Queued ==> b.counter == a.counter + if s.Full? && s.endpoint == a.endpoint then 1 else 0)
  {
    match s
    case One(action) =>
      OneKeepsRows(l.world, action);
      assert Next(l, s).world.ops[o] == l.world.ops[o] || Next(l, s).world.ops[o] == AbortOne(l.world.ops[o]);
    case Full(ep, order, answers) => PassOnRow(l.world, ep, order, answers, o);
  }

  lemma SeqStepOnQueued(run: SeqRun, k: nat, o: OpId)
    requires IsSeqRun(run) && k < |run.steps| && o in run.ledgers[k].world.ops
    ensures o in run.ledgers[k + 1].world.ops
    ensures var a, b, s := run.ledgers[k].world.ops[o], run.ledgers[k + 1].world.ops[o], run.steps[k];
            && b.endpoint == a.endpoint
            && (b.status == Sending ==> a.status == Sending)
            && (b.status == Queued ==> a.status == Queued)
            && (b.status == Queued ==> b.counter == a.counter + if s.Full? && s.endpoint == a.endpoint then 1 else 0)
  {
    SeqRunStep(run, k);
    StepOnQueued(run.ledgers[k], run.steps[k], o);
  }

  /** While an operation is queued, its counter has counted every pass over its endpoint. */
  lemma {:induction false} QueuedCountsPasses(run: SeqRun, i: nat, j: nat, o: OpId)
    requires IsSeqRun(run) && i <= j < |run.ledgers| && o in run.ledgers[i].world.ops
    ensures o in run.ledgers[j].world.ops
    ensures run.ledgers[j].world.ops[o].endpoint == run.ledgers[i].world.ops[o].endpoint
    ensures run.ledgers[j].world.ops[o].status == Queued ==>
              run.ledgers[j].world.ops[o].counter >= Passes(run, i, j, run.ledgers[i].world.ops[o].endpoint)
    ensures run.ledgers[j].world.ops[o].status == Sending ==> run.ledgers[i].world.ops[o].status == Sending
    decreases j - i
  {
    if i < j {
      QueuedCountsPasses(run, i, j - 1, o);
      SeqStepOnQueued(run, j - 1, o);
    }
  }

  /** Three passes over an endpoint leave none of the operations queued that it had before them. */
  lemma ThreePassesSettle(run: SeqRun, i: nat, j: nat, o: OpId)
    requires IsSeqRun(run) && i <= j < |run.ledgers| && o in run.ledgers[i].world.ops
    requires Passes(run, i, j, run.ledgers[i].world.ops[o].endpoint) >= 3
    ensures o in run.ledgers[j].world.ops && run.ledgers[j].world.ops[o].status != Queued
  {
    QueuedCountsPasses(run, i, j, o);
    RunKeepsSeqInv(run, j);
  }

  lemma StepKeepsFailedResolved(l: Ledger, s: Step)
    requires SeqInv(l) && CanStep(l, s) && FailedResolved(l.world)
    requires s.One? ==> !Harmful(l.world, s.action)
    ensures FailedResolved(Next(l, s).world)
  {
    match s
    case One(action) => StepKeepsInv(l.world, action);
    case Full(ep, order, answers) =>
      TasksKeepInv(l.world, Passed(l.world, ep).tasks);
      SendsKeepInv(Passed(l.world, ep), order, answers);
  }

  lemma {:induction false} SeqFailedResolved(run: SeqRun, n: nat)
    requires IsSeqRun(run) && n < |run.ledgers|
    requires forall k :: 0 <= k < n && run.steps[k].One? ==> !Harmful(run.ledgers[k].world, run.steps[k].action)
    ensures FailedResolved(run.ledgers[n].world)
  {
    if n > 0 {
      SeqFailedResolved(run, n - 1);
      SeqRunStep(run, n - 1);
      StepKeepsFailedResolved(run.ledgers[n - 1], run.steps[n - 1]);
    }
  }

  lemma StepKeepsUpdate(l: Ledger, s: Step, u: UpdateId)
    requires SeqInv(l) && CanStep(l, s) && u in l.world.updates
    ensures u in Next(l, s).world.updates && Next(l, s).world.updates[u].sendUri == l.world.updates[u].sendUri
  {
    match s
    case One(action) => FotaTraces.StepOnRow(l.world, action, u);
    case Full(ep, order, answers) =>
      TasksKeepInv(l.world, Passed(l.world, ep).tasks);
      SendsKeepInv(Passed(l.world, ep), order, answers);
  }

  lemma SeqStepKeepsUpdate(run: SeqRun, k: nat, u: UpdateId)
    requires IsSeqRun(run) && k < |run.steps| && u in run.ledgers[k].world.updates
    ensures u in run.ledgers[k + 1].world.updates
    ensures run.ledgers[k + 1].world.updates[u].sendUri == run.ledgers[k].world.updates[u].sendUri
  {
    SeqRunStep(run, k);
    StepKeepsUpdate(run.ledgers[k], run.steps[k], u);
  }

  lemma {:induction false} UpdateKept(run: SeqRun, i: nat, j: nat, u: UpdateId)
    requires IsSeqRun(run) && i <= j < |run.ledgers| && u in run.ledgers[i].world.updates
    ensures u in run.ledgers[j].world.updates
    ensures run.ledgers[j].world.updates[u].sendUri == run.ledgers[i].world.updates[u].sendUri
    decreases j - i
  {
    if i < j {
      UpdateKept(run, i, j - 1, u);
      SeqStepKeepsUpdate(run, j - 1, u);
    }
  }

  /** Three passes after any moment, every update of that moment has its package URI confirmed by
      the device, or has been resolved. */
  lemma UriDeliveredOrResolved(run: SeqRun, i: nat, j: nat, u: UpdateId)
    requires IsSeqRun(run) && i <= j < |run.ledgers| && u in run.ledgers[i].world.updates
    requires forall k :: 0 <= k < j && run.steps[k].One? ==> !Harmful(run.ledgers[k].world, run.steps[k].action)
    requires Passes(run, i, j, run.ledgers[i].world.updates[u].endpoint) >= 3
    ensures var v := run.ledgers[j].world;
            && u in v.updates
            && (v.updates[u].result != DEFAULT ||
                (v.updates[u].sendUri.Some? && v.updates[u].sendUri.value in v.ops
                 && v.ops[v.updates[u].sendUri.value].status == Confirmed))
  {
    var w, v := run.ledgers[i].world, run.ledgers[j].world;
    RunKeepsSeqInv(run, i);
    RunKeepsSeqInv(run, j);
    UpdateKept(run, i, j, u);
    SeqFailedResolved(run, j);
    var o := w.updates[u].sendUri.value;
    assert Owns(w, u, PackageUri, o) && Owns(v, u, PackageUri, o);
    ThreePassesSettle(run, i, j, o);
    assert v.ops[o].status == Sending ==> Held(v, o);
  }
}
