/** What every step of the firmware-update protocol keeps. */
module FotaInvariants {
  import opened Wrappers
  import opened FotaModel

  // ---- the invariant, part by part

  /** `o` is the operation update `u` refers to in `role`. */
  predicate Owns(w: World, u: UpdateId, role: Role, o: OpId) {
    u in w.updates && Link(w.updates[u], role) == Some(o)
  }

  predicate Fresh(w: World) {
    && (forall u :: u in w.updates ==> u < w.nextUpdate)
    && (forall o :: o in w.ops ==> o < w.nextOp)
    && (forall f :: f in w.flights ==> f < w.nextFlight)
  }

  /** Every update has its package-URI operation. */
  predicate UriLinked(w: World) {
    forall u :: u in w.updates ==> w.updates[u].sendUri.Some?
  }

  /** Linked operations exist, on the endpoint of their update. */
  ghost predicate LinksValid(w: World) {
    forall u, role, o :: Owns(w, u, role, o) ==> o in w.ops && w.ops[o].endpoint == w.updates[u].endpoint
  }

  /** No operation is linked twice: not from two updates, and not in two roles. */
  ghost predicate OwnedOnce(w: World) {
    forall u, role, v, role', o :: Owns(w, u, role, o) && Owns(w, v, role', o) ==> u == v && role == role'
  }

  predicate ResolvedIdle(w: World) {
    forall u :: u in w.updates && w.updates[u].result != DEFAULT ==> w.updates[u].state == IDLE
  }

  predicate FlightsValid(w: World) {
    forall f :: f in w.flights ==>
      var o := w.flights[f].op;
      o in w.ops && w.flights[f].copy.endpoint == w.ops[o].endpoint && w.flights[f].copy.status == Sending
  }

  ghost predicate Held(w: World, o: OpId) {
    exists f :: f in w.flights && w.flights[f].op == o
  }

  /** A linked operation is SENDING only while a task holds it. */
  ghost predicate SendingHeld(w: World) {
    forall u, role, o :: Owns(w, u, role, o) && o in w.ops && w.ops[o].status == Sending ==> Held(w, o)
  }

  /** The part of the invariant that no report can break. */
  ghost predicate Inv(w: World) {
    Fresh(w) && UriLinked(w) && LinksValid(w) && OwnedOnce(w) && ResolvedIdle(w) && FlightsValid(w) && SendingHeld(w)
  }

  /** An update with a failed operation is resolved. */
  ghost predicate FailedResolved(w: World) {
    forall u, role, o :: Owns(w, u, role, o) && o in w.ops && w.ops[o].status == Failed ==> w.updates[u].result != DEFAULT
  }

  /** Update `u` has an operation that is still waiting or being sent. */
  ghost predicate HasPending(w: World, u: UpdateId) {
    exists role, o :: Owns(w, u, role, o) && o in w.ops && Pending(w.ops[o].status)
  }

  /** The one kind of step that leaves a failed operation on an active update: a result report
      of 0 while the surviving update still has an open operation. */
  ghost predicate Harmful(w: World, l: Label) {
    && l.Reported?
    && l.report == ResultReport(DEFAULT)
    && Active(w, l.endpoint) != {}
    && HasPending(w, l.survivor)
  }

  // ---- small facts about the pieces of a step

  lemma LinksIsOwns(w: World, u: UpdateId, o: OpId)
    requires u in w.updates
    ensures Links(w.updates[u], o) <==> Owns(w, u, PackageUri, o) || Owns(w, u, Execution, o)
  {
  }

  /** Cleaning leaves the survivor and its operations as they were. */
  lemma CleanedSparesSurvivor(w: World, ep: Endpoint, s: UpdateId)
    requires Inv(w) && s in Active(w, ep)
    ensures s in Cleaned(w, ep, s).updates && Cleaned(w, ep, s).updates[s] == w.updates[s]
    ensures forall role, o :: Owns(w, s, role, o) ==> o in Cleaned(w, ep, s).ops && Cleaned(w, ep, s).ops[o] == w.ops[o]
    ensures Active(Cleaned(w, ep, s), ep) == {s}
  {
    var v := Cleaned(w, ep, s);
    forall role, o | Owns(w, s, role, o) ensures o in v.ops && v.ops[o] == w.ops[o] {
      if u :| IsStale(w, ep, s, u) && Links(w.updates[u], o) {
        LinksIsOwns(w, u, o);
        assert false;
      }
    }
    assert s in Active(v, ep);
    assert forall u :: u in Active(v, ep) ==> u == s;
  }

  lemma CleanedKeepsInv(w: World, ep: Endpoint, s: UpdateId)
    requires Inv(w) && s in Active(w, ep)
    ensures Inv(Cleaned(w, ep, s))
    ensures FailedResolved(w) ==> FailedResolved(Cleaned(w, ep, s))
  {
    var v := Cleaned(w, ep, s);
    assert v.updates.Keys == w.updates.Keys && v.ops.Keys == w.ops.Keys;
    assert forall u, role, o :: Owns(v, u, role, o) <==> Owns(w, u, role, o);
    assert forall o :: o in w.ops ==> v.ops[o] == w.ops[o] || v.ops[o] == AbortOne(w.ops[o]);
    forall u, role, o | Owns(v, u, role, o) && o in v.ops && v.ops[o].status == Sending ensures Held(v, o) {
      assert Owns(w, u, role, o) && w.ops[o].status == Sending;
      assert Held(w, o);
    }
    if FailedResolved(w) {
      forall u, role, o | Owns(v, u, role, o) && o in v.ops && v.ops[o].status == Failed
        ensures v.updates[u].result != DEFAULT
      {
        assert Owns(w, u, role, o);
        if w.ops[o].status != Failed {
          var t :| IsStale(w, ep, s, t) && Links(w.updates[t], o);
          LinksIsOwns(w, t, o);
          assert t == u;
        }
      }
    }
  }

  lemma CloseKeepsInv(w: World, s: UpdateId, result: int)
    requires Inv(w) && s in w.updates
    ensures Inv(Close(w, s, result))
  {
    var v := Close(w, s, result);
    assert v.updates.Keys == w.updates.Keys && v.ops.Keys == w.ops.Keys;
    assert forall u, role, o :: Owns(v, u, role, o) <==> Owns(w, u, role, o);
    assert forall o :: o in w.ops ==> v.ops[o] == w.ops[o] || v.ops[o] == AbortOne(w.ops[o]);
    forall u, role, o | Owns(v, u, role, o) && o in v.ops && v.ops[o].status == Sending ensures Held(v, o) {
      assert Owns(w, u, role, o) && w.ops[o].status == Sending;
      assert Held(w, o);
    }
  }

  /** Closing an active update keeps failed operations on resolved updates exactly when the
      result is not the default one or nothing was open. */
  lemma CloseFailedResolved(w: World, s: UpdateId, result: int)
    requires Inv(w) && FailedResolved(w) && s in w.updates && w.updates[s].result == DEFAULT
    ensures FailedResolved(Close(w, s, result)) <==> (result != DEFAULT || !HasPending(w, s))
  {
    var v := Close(w, s, result);
    assert forall u, role, o :: Owns(v, u, role, o) <==> Owns(w, u, role, o);
    if result != DEFAULT || !HasPending(w, s) {
      forall u, role, o | Owns(v, u, role, o) && o in v.ops && v.ops[o].status == Failed
        ensures v.updates[u].result != DEFAULT
      {
        assert Owns(w, u, role, o);
        if Links(w.updates[s], o) {
          LinksIsOwns(w, s, o);
          assert u == s;
        }
      }
    } else {
      var role, o :| Owns(w, s, role, o) && o in w.ops && Pending(w.ops[o].status);
      LinksIsOwns(w, s, o);
      assert Owns(v, s, role, o) && v.ops[o].status == Failed;
    }
  }

  /** What a fresh operation row changes: nothing that is linked. */
  lemma NewOperationKeepsInv(w: World, op: Operation, tasks: multiset<Task>)
    requires Inv(w)
    ensures var v := w.(ops := w.ops[w.nextOp := op], nextOp := w.nextOp + 1, tasks := tasks);
            Inv(v) && (FailedResolved(w) <==> FailedResolved(v))
  {
    var v := w.(ops := w.ops[w.nextOp := op], nextOp := w.nextOp + 1, tasks := tasks);
    assert forall u, role, o :: Owns(v, u, role, o) <==> Owns(w, u, role, o);
    forall u, role, o | Owns(v, u, role, o) && v.ops[o].status == Sending ensures Held(v, o) {
      assert Owns(w, u, role, o);
      assert Held(w, o);
    }
    if FailedResolved(v) {
      forall u, role, o | Owns(w, u, role, o) && w.ops[o].status == Failed ensures w.updates[u].result != DEFAULT {
        assert Owns(v, u, role, o);
      }
    }
  }

  lemma StateReportKeepsInv(w: World, s: UpdateId, state: int)
    requires Inv(w) && s in w.updates && w.updates[s].result == DEFAULT
    ensures Inv(Applied(w, s, StateReport(state)))
    ensures FailedResolved(w) ==> FailedResolved(Applied(w, s, StateReport(state)))
  {
    var v := Applied(w, s, StateReport(state));
    if state == DOWNLOADED {
      assert forall u, role, o :: Owns(v, u, role, o) ==>
        Owns(w, u, role, o) || (u == s && role == Execution && o == w.nextOp);
      assert forall u, role :: !Owns(w, u, role, w.nextOp);
    } else {
      assert forall u, role, o :: Owns(v, u, role, o) <==> Owns(w, u, role, o);
    }
    forall u, role, o | Owns(v, u, role, o) && o in v.ops && v.ops[o].status == Sending ensures Held(v, o) {
      assert Owns(w, u, role, o);
      assert Held(w, o);
    }
  }

  lemma ReportKeepsInv(w: World, ep: Endpoint, report: Report, s: UpdateId)
    requires Inv(w) && (Active(w, ep) != {} ==> IsLatest(w, ep, s))
    ensures Inv(HandleFota(w, ep, report, s))
    ensures FailedResolved(w) ==>
      (FailedResolved(HandleFota(w, ep, report, s)) <==> !Harmful(w, Reported(ep, report, s)))
  {
    if Active(w, ep) != {} {
      var c := Cleaned(w, ep, s);
      CleanedKeepsInv(w, ep, s);
      CleanedSparesSurvivor(w, ep, s);
      assert HasPending(w, s) <==> HasPending(c, s) by {
        assert forall role, o :: Owns(c, s, role, o) <==> Owns(w, s, role, o);
      }
      match report {
        case VersionReport(version) =>
          if c.updates[s].state != IDLE {
            var result := if Versions.Normalize(c.updates[s].version) == Versions.Normalize(version) then SUCCESS else UPDATE_FAILED;
            CloseKeepsInv(c, s, result);
            if FailedResolved(w) { CloseFailedResolved(c, s, result); }
          }
        case StateReport(state) => StateReportKeepsInv(c, s, state);
        case ResultReport(result) =>
          CloseKeepsInv(c, s, result);
          if FailedResolved(w) { CloseFailedResolved(c, s, result); }
        case OtherReport =>
      }
    }
  }

  lemma CreateKeepsInv(w: World, ep: Endpoint, version: string, created: int, dispatch: bool)
    requires Inv(w)
    ensures Inv(Created(w, ep, version, created, dispatch))
    ensures FailedResolved(w) ==> FailedResolved(Created(w, ep, version, created, dispatch))
  {
    var v := Created(w, ep, version, created, dispatch);
    assert forall u, role, o :: Owns(v, u, role, o) ==>
      Owns(w, u, role, o) || (u == w.nextUpdate && role == PackageUri && o == w.nextOp);
    assert forall u, role :: !Owns(w, u, role, w.nextOp);
    forall u, role, o | Owns(v, u, role, o) && o in v.ops && v.ops[o].status == Sending ensures Held(v, o) {
      assert Owns(w, u, role, o);
      assert Held(w, o);
    }
  }

  lemma BeginKeepsInv(w: World, o: OpId)
    requires Inv(w)
    ensures Inv(Begun(w, o))
    ensures FailedResolved(w) ==> FailedResolved(Begun(w, o))
  {
    var v := Begun(w, o);
    assert forall u, role, p :: Owns(v, u, role, p) <==> Owns(w, u, role, p);
    forall u, role, p | Owns(v, u, role, p) && p in v.ops && v.ops[p].status == Sending ensures Held(v, p) {
      if o in w.ops && p == o {
        assert v.flights[w.nextFlight].op == p;
      } else {
        assert Owns(w, u, role, p);
        assert Held(w, p);
        var f :| f in w.flights && w.flights[f].op == p;
        assert f in v.flights && v.flights[f].op == p;
      }
    }
  }

  /** The write-back of a finished send, before its failure reaches the update. */
  ghost function WrittenBack(w: World, f: FlightId, r: Response): World
    requires f in w.flights
  {
    w.(ops := w.ops[w.flights[f].op := Outcome(w.flights[f].copy, r)], flights := w.flights - {f})
  }

  lemma WriteBackKeepsInv(w: World, f: FlightId, r: Response)
    requires Inv(w) && f in w.flights
    ensures Inv(WrittenBack(w, f, r))
  {
    var v, o := WrittenBack(w, f, r), w.flights[f].op;
    assert v.ops.Keys == w.ops.Keys;
    assert forall u, role, p :: Owns(v, u, role, p) <==> Owns(w, u, role, p);
    forall u, role, p | Owns(v, u, role, p) && v.ops[p].status == Sending ensures Held(v, p) {
      assert p != o;
      assert Owns(w, u, role, p);
      assert Held(w, p);
      var g :| g in w.flights && w.flights[g].op == p;
      assert g in v.flights && v.flights[g].op == p;
    }
  }

  lemma PropagateKeepsInv(w: World, o: OpId)
    requires Inv(w)
    ensures Inv(Propagated(w, o))
  {
    var v := Propagated(w, o);
    assert forall u, role, p :: Owns(v, u, role, p) <==> Owns(w, u, role, p);
    forall u, role, p | Owns(v, u, role, p) && v.ops[p].status == Sending ensures Held(v, p) {
      assert Owns(w, u, role, p);
      assert Held(w, p);
    }
  }

  /** The first owner that the lookup returns is the only one there is. */
  lemma OwnerUnique(w: World, o: OpId, u: UpdateId)
    requires Inv(w) && u in Owners(w, o)
    ensures Owners(w, o) == {u} && IsFirst(Owners(w, o), u)
  {
    LinksIsOwns(w, u, o);
    forall v | v in Owners(w, o) ensures v == u {
      LinksIsOwns(w, v, o);
    }
  }

  lemma FinishKeepsInv(w: World, f: FlightId, r: Response)
    requires Inv(w) && f in w.flights
    ensures Inv(Finished(w, f, r))
    ensures FailedResolved(w) ==> FailedResolved(Finished(w, f, r))
  {
    var o, v, x := w.flights[f].op, WrittenBack(w, f, r), Finished(w, f, r);
    WriteBackKeepsInv(w, f, r);
    PropagateKeepsInv(v, o);
    if FailedResolved(w) {
      assert forall u, role, p :: Owns(x, u, role, p) <==> Owns(w, u, role, p);
      forall u, role, p | Owns(x, u, role, p) && x.ops[p].status == Failed ensures x.updates[u].result != DEFAULT {
        assert Owns(w, u, role, p) && Owns(v, u, role, p);
        if p == o {
          LinksIsOwns(v, u, o);
          OwnerUnique(v, o, u);
        }
      }
    }
  }

  lemma TasksKeepInv(w: World, tasks: multiset<Task>)
    requires Inv(w)
    ensures Inv(w.(tasks := tasks)) && (FailedResolved(w) <==> FailedResolved(w.(tasks := tasks)))
  {
    var v := w.(tasks := tasks);
    assert forall u, role, p :: Owns(v, u, role, p) <==> Owns(w, u, role, p);
    forall u, role, p | Owns(v, u, role, p) && v.ops[p].status == Sending ensures Held(v, p) {
      assert Owns(w, u, role, p);
      assert Held(w, p);
    }
  }

  // ---- every step

  /** Every step keeps the invariant, and breaks the link between failed operations and
      resolved updates exactly when it is a harmful report. */
  lemma StepKeepsInv(w: World, l: Label)
    requires Inv(w) && Enabled(w, l)
    ensures Inv(Apply(w, l))
    ensures FailedResolved(w) ==> (FailedResolved(Apply(w, l)) <==> !Harmful(w, l))
  {
    match l
    case Create(ep, version, created, dispatch) => CreateKeepsInv(w, ep, version, created, dispatch);
    case PostOperation(ep, status) => NewOperationKeepsInv(w, Operation(ep, status, 0), w.tasks);
    case Reported(ep, report, s) => ReportKeepsInv(w, ep, report, s);
    case Registered(ep) => TasksKeepInv(w, w.tasks + multiset{Pass(ep)});
    case RunPass(ep) => TasksKeepInv(w, Passed(w, ep).tasks);
    case BeginSend(o) => BeginKeepsInv(w, o);
    case FinishSend(f, r) => FinishKeepsInv(w, f, r);
  }

  // ---- whole runs

  lemma {:induction false} RunKeepsInv(run: Run, n: nat)
    requires IsRun(run) && n < |run.worlds|
    ensures Inv(run.worlds[n])
  {
    if n > 0 {
      RunKeepsInv(run, n - 1);
      assert StepAt(run, n - 1);
      StepKeepsInv(run.worlds[n - 1], run.labels[n - 1]);
    }
  }

  /** A step of a run, with the invariant before it. */
  lemma RunStep(run: Run, i: nat)
    requires IsRun(run) && i < |run.labels|
    ensures Inv(run.worlds[i]) && Enabled(run.worlds[i], run.labels[i])
    ensures run.worlds[i + 1] == Apply(run.worlds[i], run.labels[i])
  {
    RunKeepsInv(run, i);
    assert StepAt(run, i);
  }

  lemma RunStepFailedResolved(run: Run, i: nat)
    requires IsRun(run) && i < |run.labels|
    ensures FailedResolved(run.worlds[i]) ==>
              (FailedResolved(run.worlds[i + 1]) <==> !Harmful(run.worlds[i], run.labels[i]))
  {
    RunStep(run, i);
    StepKeepsInv(run.worlds[i], run.labels[i]);
  }

  /** Over a whole run, updates with a failed operation are resolved in every state if and
      only if no step of the run was a harmful report. */
  lemma {:induction false} FailedResolvedExactly(run: Run, n: nat)
    requires IsRun(run) && n < |run.worlds|
    ensures (forall i :: 0 <= i <= n ==> FailedResolved(run.worlds[i])) <==>
            (forall i :: 0 <= i < n ==> !Harmful(run.worlds[i], run.labels[i]))
  {
    if n > 0 {
      FailedResolvedExactly(run, n - 1);
      RunStepFailedResolved(run, n - 1);
      if forall i :: 0 <= i <= n ==> FailedResolved(run.worlds[i]) {
        assert FailedResolved(run.worlds[n - 1]) && FailedResolved(run.worlds[n]);
      }
    }
  }

  /** No active update is stuck: its package-URI operation waits, was confirmed, or is being sent. */
  lemma ActiveNeverStuck(run: Run, n: nat, u: UpdateId)
    requires IsRun(run) && n < |run.worlds|
    requires forall i :: 0 <= i < n ==> !Harmful(run.worlds[i], run.labels[i])
    requires u in run.worlds[n].updates && run.worlds[n].updates[u].result == DEFAULT
    ensures var w := run.worlds[n];
            var uri := w.updates[u].sendUri;
            uri.Some? && uri.value in w.ops &&
            match w.ops[uri.value].status
            case Queued => true
            case Confirmed => true
            case Sending => Held(w, uri.value)
            case Failed => false
  {
    var w := run.worlds[n];
    RunKeepsInv(run, n);
    FailedResolvedExactly(run, n);
    assert FailedResolved(w);
    var uri := w.updates[u].sendUri;
    assert Owns(w, u, PackageUri, uri.value);
  }
}
