/** A finished update should have nothing open. When it does, exactly. */
module FotaClosing {
  import opened Wrappers
  import opened FotaModel
  import opened FotaInvariants
  import opened FotaTraces
  import opened FotaEffects

  /** No resolved update has an operation that waits or is being sent. */
  ghost predicate ResolvedClosed(w: World) {
    forall u, role, o :: Owns(w, u, role, o) && o in w.ops && w.updates[u].result != DEFAULT ==> !Pending(w.ops[o].status)
  }

  ghost predicate OwnedByResolved(w: World, o: OpId) {
    exists u, role :: Owns(w, u, role, o) && w.updates[u].result != DEFAULT
  }

  /** `o` belongs to an active update whose other operation is open. */
  ghost predicate SiblingOpen(w: World, o: OpId) {
    exists u, role, role', p ::
      && Owns(w, u, role, o) && w.updates[u].result == DEFAULT
      && Owns(w, u, role', p) && p != o && p in w.ops && Pending(w.ops[p].status)
  }

  /** The answer lets the operation be sent again. */
  predicate Retries(copy: Operation, r: Response) {
    !Delivered(r) && !Refused(r) && copy.counter < 2
  }

  /** The answer fails the operation. */
  predicate Fails(copy: Operation, r: Response) {
    !Delivered(r) && !Retries(copy, r)
  }

  /** The three kinds of step that leave a resolved update with something open: a send starts on one
      of its operations; a send of one of them ends and queues it again; or a send fails one
      operation of an active update, which resolves the update, and leaves the other one open. */
  ghost predicate Reopens(w: World, l: Label)
    requires Enabled(w, l)
  {
    match l
    case BeginSend(o) => o in w.ops && OwnedByResolved(w, o)
    case FinishSend(f, r) =>
      var o, copy := w.flights[f].op, w.flights[f].copy;
      (Retries(copy, r) && OwnedByResolved(w, o)) || (Fails(copy, r) && SiblingOpen(w, o))
    case _ => false
  }

  // ---- the steps that never reopen anything

  /** A report resolves only updates that it leaves with nothing open. */
  lemma ReportClosesResolved(w: World, ep: Endpoint, report: Report, s: UpdateId, u: UpdateId, role: Role, o: OpId)
    requires Inv(w) && IsLatest(w, ep, s) && ResolvedClosed(w)
    requires var v := HandleFota(w, ep, report, s); Owns(v, u, role, o) && o in v.ops && v.updates[u].result != DEFAULT
    ensures !Pending(HandleFota(w, ep, report, s).ops[o].status)
  {
    var l := Reported(ep, report, s);
    NewUpdates(w, l);
    ReportRow(w, ep, report, s, u);
    if u !in Active(w, ep) {
      assert Owns(w, u, role, o);
      ReportOp(w, ep, report, s, o);
    } else if u != s {
      ReportLeavesOne(w, ep, report, s);
      assert Owns(w, u, role, o);
    } else {
      SurvivorClosed(w, ep, report, s, role, o);
    }
  }

  /** When a report resolves the survivor, it closes its operations. */
  lemma SurvivorClosed(w: World, ep: Endpoint, report: Report, s: UpdateId, role: Role, o: OpId)
    requires Inv(w) && IsLatest(w, ep, s)
    requires var v := HandleFota(w, ep, report, s);
             Owns(v, s, role, o) && o in v.ops && v.updates[s].result != DEFAULT
    ensures !Pending(HandleFota(w, ep, report, s).ops[o].status)
  {
    var c := Cleaned(w, ep, s);
    CleanedSparesSurvivor(w, ep, s);
    assert report.VersionReport? || report.ResultReport?;
    assert Owns(c, s, role, o);
    LinksIsOwns(c, s, o);
  }

  lemma ReportKeepsClosed(w: World, ep: Endpoint, report: Report, s: UpdateId)
    requires Inv(w) && (Active(w, ep) != {} ==> IsLatest(w, ep, s)) && ResolvedClosed(w)
    ensures ResolvedClosed(HandleFota(w, ep, report, s))
  {
    var v := HandleFota(w, ep, report, s);
    if Active(w, ep) != {} {
      forall u, role, o | Owns(v, u, role, o) && o in v.ops && v.updates[u].result != DEFAULT
        ensures !Pending(v.ops[o].status)
      {
        ReportClosesResolved(w, ep, report, s, u, role, o);
      }
    }
  }

  lemma CreateKeepsClosed(w: World, ep: Endpoint, version: string, created: int, dispatch: bool)
    requires Inv(w) && ResolvedClosed(w)
    ensures ResolvedClosed(Created(w, ep, version, created, dispatch))
  {
    var v := Created(w, ep, version, created, dispatch);
    assert forall u, role, o :: Owns(v, u, role, o) && v.updates[u].result != DEFAULT ==> Owns(w, u, role, o);
  }

  lemma SameRowsKeepClosed(w: World, v: World)
    requires Inv(w) && v.updates == w.updates && forall o :: o in w.ops ==> o in v.ops && v.ops[o] == w.ops[o]
    ensures ResolvedClosed(v) <==> ResolvedClosed(w)
  {
    assert forall u, role, o :: Owns(v, u, role, o) <==> Owns(w, u, role, o);
  }

  // ---- the two halves of a send

  lemma BeginReopens(w: World, o: OpId)
    requires Inv(w) && ResolvedClosed(w)
    ensures ResolvedClosed(Begun(w, o)) <==> !(o in w.ops && OwnedByResolved(w, o))
  {
    var v := Begun(w, o);
    assert forall u, role, p :: Owns(v, u, role, p) <==> Owns(w, u, role, p);
    if o in w.ops && OwnedByResolved(w, o) {
      var u, role :| Owns(w, u, role, o) && w.updates[u].result != DEFAULT;
      assert Owns(v, u, role, o) && Pending(v.ops[o].status);
    }
  }

  lemma OwnerIs(w: World, o: OpId, u: UpdateId, role: Role)
    requires Inv(w) && Owns(w, u, role, o)
    ensures Owners(w, o) == {u} && IsFirst(Owners(w, o), u)
  {
    LinksIsOwns(w, u, o);
    OwnerUnique(w, o, u);
  }

  /** The rows after a finished send, by what the answer does. */
  lemma FinishedRows(w: World, f: FlightId, r: Response, u: UpdateId)
    requires Inv(w) && f in w.flights && u in w.updates
    ensures var o, copy, v := w.flights[f].op, w.flights[f].copy, Finished(w, f, r);
            && u in v.updates
            && v.updates[u].sendUri == w.updates[u].sendUri && v.updates[u].execute == w.updates[u].execute
            && (v.updates[u].result != DEFAULT <==>
                w.updates[u].result != DEFAULT || (Fails(copy, r) && Links(w.updates[u], o)))
            && o in v.ops && (Pending(v.ops[o].status) <==> Retries(copy, r))
  {
    var o := w.flights[f].op;
    FinishRows(w, f, r);
    WriteBackKeepsInv(w, f, r);
    var x := WrittenBack(w, f, r);
    assert Owners(x, o) == Owners(w, o);
    if Links(w.updates[u], o) {
      OwnerUnique(w, o, u);
    }
  }

  lemma FinishReopens(w: World, f: FlightId, r: Response)
    requires Inv(w) && f in w.flights && ResolvedClosed(w)
    ensures ResolvedClosed(Finished(w, f, r)) <==> !Reopens(w, FinishSend(f, r))
  {
    var o, copy, v := w.flights[f].op, w.flights[f].copy, Finished(w, f, r);
    FinishRows(w, f, r);
    forall u | u in w.updates
      ensures u in v.updates
      ensures v.updates[u].result != DEFAULT <==> w.updates[u].result != DEFAULT || (Fails(copy, r) && Links(w.updates[u], o))
      ensures forall role, p :: Owns(v, u, role, p) <==> Owns(w, u, role, p)
    {
      FinishedRows(w, f, r, u);
    }
    if Retries(copy, r) && OwnedByResolved(w, o) {
      var u, role :| Owns(w, u, role, o) && w.updates[u].result != DEFAULT;
      FinishedRows(w, f, r, u);
      assert Owns(v, u, role, o) && Pending(v.ops[o].status);
    } else if Fails(copy, r) && SiblingOpen(w, o) {
      var u, role, role', p :| Owns(w, u, role, o) && w.updates[u].result == DEFAULT
                               && Owns(w, u, role', p) && p != o && p in w.ops && Pending(w.ops[p].status);
      LinksIsOwns(w, u, o);
      assert Owns(v, u, role', p) && v.updates[u].result != DEFAULT;
    } else {
      forall u, role, p | Owns(v, u, role, p) && p in v.ops && v.updates[u].result != DEFAULT
        ensures Pending(v.ops[p].status) ==> Reopens(w, FinishSend(f, r))
      {
        OpenMeansReopened(w, f, r, u, role, p);
      }
    }
  }

  /** Whatever is open under a resolved update after a finished send was opened by it. */
  lemma OpenMeansReopened(w: World, f: FlightId, r: Response, u: UpdateId, role: Role, p: OpId)
    requires Inv(w) && f in w.flights && ResolvedClosed(w)
    requires Owns(w, u, role, p) && u in Finished(w, f, r).updates && Finished(w, f, r).updates[u].result != DEFAULT
    ensures p in Finished(w, f, r).ops
    ensures Pending(Finished(w, f, r).ops[p].status) ==> Reopens(w, FinishSend(f, r))
  {
    var o := w.flights[f].op;
    FinishedRows(w, f, r, u);
    FinishRows(w, f, r);
    LinksIsOwns(w, u, o);
    if w.updates[u].result != DEFAULT {
      assert p == o ==> OwnedByResolved(w, o);
    } else {
      var own := if w.updates[u].sendUri == Some(o) then PackageUri else Execution;
      assert Owns(w, u, own, o);
      assert p != o && Pending(w.ops[p].status) ==> SiblingOpen(w, o);
    }
  }

  // ---- every step, every run

  /** A step leaves every resolved update with nothing open exactly when it is none of the three. */
  lemma StepKeepsClosed(w: World, l: Label)
    requires Inv(w) && Enabled(w, l) && ResolvedClosed(w)
    ensures ResolvedClosed(Apply(w, l)) <==> !Reopens(w, l)
  {
    match l
    case Create(ep, version, created, dispatch) => CreateKeepsClosed(w, ep, version, created, dispatch);
    case Reported(ep, report, s) => ReportKeepsClosed(w, ep, report, s);
    case BeginSend(o) => BeginReopens(w, o);
    case FinishSend(f, r) => FinishReopens(w, f, r);
    case _ => SameRowsKeepClosed(w, Apply(w, l));
  }

  /** Step `i` of the run is one of the three. */
  ghost predicate ReopensAt(run: Run, i: nat)
    requires IsRun(run) && i < |run.labels|
  {
    Enabled(run.worlds[i], run.labels[i]) && Reopens(run.worlds[i], run.labels[i])
  }

  lemma RunStepClosed(run: Run, i: nat)
    requires IsRun(run) && i < |run.labels|
    ensures ResolvedClosed(run.worlds[i]) ==> (ResolvedClosed(run.worlds[i + 1]) <==> !ReopensAt(run, i))
  {
    RunStep(run, i);
    if ResolvedClosed(run.worlds[i]) {
      StepKeepsClosed(run.worlds[i], run.labels[i]);
    }
  }

  /** Over a whole run, resolved updates have nothing open in every state if and only if no step of
      the run was one of the three. */
  lemma {:induction false} ResolvedClosedExactly(run: Run, n: nat)
    requires IsRun(run) && n < |run.worlds|
    ensures (forall i :: 0 <= i <= n ==> ResolvedClosed(run.worlds[i])) <==> (forall i :: 0 <= i < n ==> !ReopensAt(run, i))
  {
    if n > 0 {
      ResolvedClosedExactly(run, n - 1);
      RunStepClosed(run, n - 1);
      if forall i :: 0 <= i <= n ==> ResolvedClosed(run.worlds[i]) {
        assert ResolvedClosed(run.worlds[n - 1]) && ResolvedClosed(run.worlds[n]);
      }
    }
  }

  // ---- an example

  /** After a download report, both operations of update 0 wait. */
  lemma BothQueued(ep: Endpoint) returns (run: Run)
    ensures IsRun(run) && Pass(ep) in Last(run).tasks && Last(run).flights == map[] && Last(run).nextFlight == 0
    ensures Last(run).updates == map[0 := Update(ep, "v2", DOWNLOADED, DEFAULT, 0, Some(0), Some(1))]
    ensures Last(run).ops == map[0 := Operation(ep, Queued, 0), 1 := Operation(ep, Queued, 0)]
  {
    run := Extended(Run([INITIAL], []), Create(ep, "v2", 0, false));
    var w, l := Last(run), Reported(ep, StateReport(DOWNLOADED), 0);
    assert w == Created(INITIAL, ep, "v2", 0, false);
    assert Active(w, ep) == {0} && IsLatest(w, ep, 0);
    CleaningOneChangesNothing(w, ep, 0);
    assert Apply(w, l) == Applied(w, 0, StateReport(DOWNLOADED));
    run := Extended(run, l);
  }

  lemma PassQueuesEach(w: World, ep: Endpoint, o: OpId)
    requires o in QueuedOps(w, ep) && Pass(ep) in w.tasks
    ensures Send(o) in Apply(w, RunPass(ep)).tasks
  {
    assert Send(o) in (set p | p in QueuedOps(w, ep) :: Send(p));
  }

  /** A send of an operation is answered with 400: its update is failed, its other operation stays. */
  lemma RefusedLeavesSibling(w: World, u: UpdateId, o: OpId, p: OpId)
    requires Inv(w) && Owns(w, u, Execution, o) && Owns(w, u, PackageUri, p) && w.updates[u].result == DEFAULT
    requires o in w.ops && p in w.ops && w.ops[p].status == Queued && Send(o) in w.tasks
    ensures var v, refused := Apply(w, BeginSend(o)), FinishSend(w.nextFlight, Answer(400, ""));
            Enabled(v, refused) && !ResolvedClosed(Apply(v, refused))
  {
    var v := Apply(w, BeginSend(o));
    BeginEffect(w, o);
    BeginKeepsInv(w, o);
    assert o != p;
    FinishEffect(v, w.nextFlight, Answer(400, ""));
    FinishFailsOwner(v, w.nextFlight, Answer(400, ""), u);
    assert Owns(Apply(v, FinishSend(w.nextFlight, Answer(400, ""))), u, PackageUri, p);
  }

  /** The request to execute is invalid: the update is failed, and its package URI still waits. */
  lemma FailureLeavesSibling(ep: Endpoint) returns (run: Run)
    ensures IsRun(run) && !ResolvedClosed(Last(run))
  {
    run := BothQueued(ep);
    PassQueuesEach(Last(run), ep, 1);
    run := Extended(run, RunPass(ep));
    var w := Last(run);
    RunKeepsInv(run, |run.labels|);
    assert Owns(w, 0, Execution, 1) && Owns(w, 0, PackageUri, 0);
    RefusedLeavesSibling(w, 0, 1, 0);
    run := Extended(run, BeginSend(1));
    run := Extended(run, FinishSend(w.nextFlight, Answer(400, "")));
  }
}
