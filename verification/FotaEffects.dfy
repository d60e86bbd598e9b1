/** What single steps of the firmware-update protocol do, in the numbers of the Firmware Update
    object: state 0 is idle and 2 downloaded, result 0 is none yet, 1 success and 8 failed. */
module FotaEffects {
  import opened Wrappers
  import opened FotaModel
  import opened FotaInvariants
  import opened FotaTraces
  import Versions

  // ---- creation

  /** A new update is idle without result, links a queued package-URI operation of its own, and is
      sent on the way only if a pass is asked for. Nothing else changes. */
  lemma CreateEffect(w: World, ep: Endpoint, version: string, created: int, dispatch: bool)
    requires Inv(w)
    ensures var v := Apply(w, Create(ep, version, created, dispatch));
            && w.nextUpdate !in w.updates && w.nextOp !in w.ops
            && v.updates == w.updates[w.nextUpdate := Update(ep, version, 0, 0, created, Some(w.nextOp), None)]
            && v.ops == w.ops[w.nextOp := Operation(ep, Queued, 0)]
            && v.nextUpdate == w.nextUpdate + 1 && v.nextOp == w.nextOp + 1
            && v.tasks == w.tasks + (if dispatch then multiset{Pass(ep)} else multiset{})
            && v.flights == w.flights
  {
  }

  /** An operation posted through the API gets the status it names, no attempts, and no update. */
  lemma PostEffect(w: World, ep: Endpoint, status: Status)
    requires Inv(w)
    ensures var v := Apply(w, PostOperation(ep, status));
            && w.nextOp !in w.ops
            && v.ops == w.ops[w.nextOp := Operation(ep, status, 0)] && v.nextOp == w.nextOp + 1
            && v.updates == w.updates && v.tasks == w.tasks && v.flights == w.flights
    ensures forall u, role :: !Owns(w, u, role, w.nextOp)
  {
  }

  // ---- reports

  /** The device has an active update. */
  predicate HasActive(w: World, ep: Endpoint) {
    exists u :: u in w.updates && w.updates[u].endpoint == ep && w.updates[u].result == 0
  }

  lemma ActiveIs(w: World, ep: Endpoint)
    ensures HasActive(w, ep) <==> Active(w, ep) != {}
  {
    if Active(w, ep) != {} {
      var u :| u in Active(w, ep);
    }
    if HasActive(w, ep) {
      var u :| u in w.updates && w.updates[u].endpoint == ep && w.updates[u].result == 0;
      assert u in Active(w, ep);
    }
  }

  /** The survivor is an active update of the device, and none of the others was created later. */
  lemma LatestExactly(w: World, ep: Endpoint, s: UpdateId)
    ensures IsLatest(w, ep, s) <==>
            && s in w.updates && w.updates[s].endpoint == ep && w.updates[s].result == 0
            && forall u :: u in w.updates && w.updates[u].endpoint == ep && w.updates[u].result == 0 ==>
                 w.updates[u].created <= w.updates[s].created
  {
    assert forall u :: u in Active(w, ep) <==> u in w.updates && w.updates[u].endpoint == ep && w.updates[u].result == 0;
  }

  /** A report of state 2 creates a queued execution for the surviving update, links it, and asks for
      a pass, whatever state the update was in before. */
  lemma DownloadedAsksForPass(w: World, ep: Endpoint, s: UpdateId)
    requires Inv(w) && IsLatest(w, ep, s)
    ensures var v := HandleFota(w, ep, StateReport(2), s);
            && v.tasks == w.tasks + multiset{Pass(ep)}
            && s in v.updates && v.updates[s] == w.updates[s].(state := 2, execute := Some(w.nextOp))
            && w.nextOp !in w.ops && v.nextOp == w.nextOp + 1
            && w.nextOp in v.ops && v.ops[w.nextOp] == Operation(ep, Queued, 0)
            && v.ops.Keys == w.ops.Keys + {w.nextOp}
  {
    CleanedSparesSurvivor(w, ep, s);
  }

  /** Every other report, and every report without an active update, starts nothing. */
  lemma OtherReportsStartNothing(w: World, ep: Endpoint, report: Report, s: UpdateId)
    requires Inv(w) && (Active(w, ep) != {} ==> IsLatest(w, ep, s))
    requires report != StateReport(2) || !HasActive(w, ep)
    ensures var v := HandleFota(w, ep, report, s);
            v.tasks == w.tasks && v.nextOp == w.nextOp && v.ops.Keys == w.ops.Keys && v.flights == w.flights
  {
    ActiveIs(w, ep);
  }

  /** The report concludes the update: a result, or the version of an update that has started. */
  predicate Concludes(up: Update, report: Report) {
    report.ResultReport? || (report.VersionReport? && up.state != 0)
  }

  /** The result it gives: the one reported, or 1 for the expected version and 8 for any other. */
  function ResultOf(up: Update, report: Report): int
    requires Concludes(up, report)
  {
    match report
    case ResultReport(r) => r
    case VersionReport(version) => if Versions.Normalize(version) == Versions.Normalize(up.version) then 1 else 8
  }

  /** The surviving row: a state report sets the state, a result report or the version of a started
      update sets the result and puts it back to idle, and anything else leaves it alone. */
  lemma SurvivorRow(w: World, ep: Endpoint, report: Report, s: UpdateId)
    requires Inv(w) && IsLatest(w, ep, s)
    ensures var v, up := HandleFota(w, ep, report, s), w.updates[s];
            && s in v.updates
            && (Concludes(up, report) ==> v.updates[s] == up.(state := 0, result := ResultOf(up, report)))
            && (report.StateReport? ==> v.updates[s].state == report.state && v.updates[s].result == 0
                                        && v.updates[s].sendUri == up.sendUri
                                        && (report.state != 2 ==> v.updates[s] == up.(state := report.state)))
            && (report.OtherReport? || (report.VersionReport? && up.state == 0) ==> v.updates[s] == up)
  {
    CleanedSparesSurvivor(w, ep, s);
  }

  /** Every other active update of the device is failed with result 8; the rest are untouched. */
  lemma OtherRows(w: World, ep: Endpoint, report: Report, s: UpdateId, u: UpdateId)
    requires Inv(w) && IsLatest(w, ep, s) && u in w.updates && u != s
    ensures u in HandleFota(w, ep, report, s).updates
    ensures HandleFota(w, ep, report, s).updates[u] ==
            if w.updates[u].endpoint == ep && w.updates[u].result == 0 then w.updates[u].(state := 0, result := 8)
            else w.updates[u]
  {
    ReportRow(w, ep, report, s, u);
  }

  lemma OperationAfterCleaning(w: World, ep: Endpoint, s: UpdateId, u: UpdateId, role: Role, o: OpId)
    requires Inv(w) && s in Active(w, ep) && Owns(w, u, role, o)
    ensures o in w.ops && o in Cleaned(w, ep, s).ops
    ensures Cleaned(w, ep, s).ops[o] == if IsStale(w, ep, s, u) then AbortOne(w.ops[o]) else w.ops[o]
  {
    LinksIsOwns(w, u, o);
    if v :| IsStale(w, ep, s, v) && Links(w.updates[v], o) {
      LinksIsOwns(w, v, o);
      assert v == u;
    }
  }

  lemma OperationAfterVerdict(c: World, s: UpdateId, report: Report, o: OpId)
    requires s in c.updates && o in c.ops && o < c.nextOp && c.updates[s].result == 0
    ensures o in Applied(c, s, report).ops
    ensures Applied(c, s, report).ops[o] ==
            if Links(c.updates[s], o) && Concludes(c.updates[s], report) then AbortOne(c.ops[o]) else c.ops[o]
  {
  }

  /** An operation after a report: what waits or is being sent fails if it belongs to an active update
      that is not the survivor, or to a survivor the report concludes; all else is untouched. */
  lemma OperationAfterReport(w: World, ep: Endpoint, report: Report, s: UpdateId, u: UpdateId, role: Role, o: OpId)
    requires Inv(w) && IsLatest(w, ep, s) && Owns(w, u, role, o)
    ensures o in w.ops && o in HandleFota(w, ep, report, s).ops
    ensures var op, after := w.ops[o], HandleFota(w, ep, report, s).ops[o];
            var ends := w.updates[u].endpoint == ep && w.updates[u].result == 0
                        && (u != s || Concludes(w.updates[s], report));
            after == if ends && (op.status == Queued || op.status == Sending) then op.(status := Failed) else op
  {
    OperationAfterCleaning(w, ep, s, u, role, o);
    CleanedSparesSurvivor(w, ep, s);
    LinksIsOwns(w, u, o);
    LinksIsOwns(w, s, o);
    OperationAfterVerdict(Cleaned(w, ep, s), s, report, o);
  }

  // ---- where passes come from

  /** The step asks for a pass of `ep`: a creation that dispatches, a registration, or a report of
      state 2 that meets an active update. */
  predicate AsksForPass(w: World, l: Label, ep: Endpoint) {
    match l
    case Create(e, _, _, dispatch) => e == ep && dispatch
    case Registered(e) => e == ep
    case Reported(e, report, _) => e == ep && report == StateReport(2) && HasActive(w, ep)
    case _ => false
  }

  lemma SendTasksNoPass(os: set<OpId>, ep: Endpoint)
    ensures SendTasks(os)[Pass(ep)] == 0
  {
    assert Pass(ep) !in (set p | p in os :: Send(p));
  }

  lemma PassTasksStep(w: World, l: Label, ep: Endpoint)
    requires Inv(w) && Enabled(w, l)
    ensures Apply(w, l).tasks[Pass(ep)] + (if l == RunPass(ep) then 1 else 0) ==
            w.tasks[Pass(ep)] + if AsksForPass(w, l, ep) then 1 else 0
  {
    match l
    case Create(e, version, created, dispatch) => CreateEffect(w, e, version, created, dispatch);
    case Reported(e, report, s) =>
      ActiveIs(w, e);
      if report == StateReport(2) && HasActive(w, e) {
        DownloadedAsksForPass(w, e, s);
      } else {
        OtherReportsStartNothing(w, e, report, s);
      }
    case RunPass(e) => SendTasksNoPass(QueuedOps(w, e), ep);
    case FinishSend(f, r) => FinishRows(w, f, r);
    case _ =>
  }

  /** How often among the first `n` steps a pass of `ep` was asked for. */
  ghost function PassesAsked(run: Run, n: nat, ep: Endpoint): nat
    requires n <= |run.labels| < |run.worlds|
  {
    if n == 0 then 0
    else PassesAsked(run, n - 1, ep) + if AsksForPass(run.worlds[n - 1], run.labels[n - 1], ep) then 1 else 0
  }

  /** How often among these steps a pass of `ep` began. */
  function PassesRun(labels: seq<Label>, ep: Endpoint): nat {
    if labels == [] then 0
    else PassesRun(labels[..|labels| - 1], ep) + if labels[|labels| - 1] == RunPass(ep) then 1 else 0
  }

  lemma RunPassTasksStep(run: Run, n: nat, ep: Endpoint)
    requires IsRun(run) && n < |run.labels|
    ensures run.worlds[n + 1].tasks[Pass(ep)] + (if run.labels[n] == RunPass(ep) then 1 else 0) ==
            run.worlds[n].tasks[Pass(ep)] + if AsksForPass(run.worlds[n], run.labels[n], ep) then 1 else 0
  {
    RunStep(run, n);
    PassTasksStep(run.worlds[n], run.labels[n], ep);
  }

  /** In every run, the passes of an endpoint that began and those that still wait are together the
      creations that dispatch, the registrations, and the downloads reported for an active update. */
  lemma {:induction false} PassesAreAskedFor(run: Run, n: nat, ep: Endpoint)
    requires IsRun(run) && n < |run.worlds|
    ensures PassesRun(run.labels[..n], ep) + run.worlds[n].tasks[Pass(ep)] == PassesAsked(run, n, ep)
  {
    if n > 0 {
      PassesAreAskedFor(run, n - 1, ep);
      RunPassTasksStep(run, n - 1, ep);
      assert run.labels[..n][..n - 1] == run.labels[..n - 1];
    }
  }

  // ---- sends

  /** A send that starts marks the row SENDING and keeps a copy of it; nothing else changes but the
      task, which is used up. */
  lemma BeginEffect(w: World, o: OpId)
    requires Inv(w) && Send(o) in w.tasks && o in w.ops
    ensures var v := Apply(w, BeginSend(o));
            && v.ops == w.ops[o := Operation(w.ops[o].endpoint, Sending, w.ops[o].counter)]
            && w.nextFlight !in w.flights
            && v.flights == w.flights[w.nextFlight := Flight(o, Operation(w.ops[o].endpoint, Sending, w.ops[o].counter))]
            && v.tasks == w.tasks - multiset{Send(o)} && v.updates == w.updates
  {
  }

  /** A send that ends writes back its copy: confirmed for 2xx; for any other answer with one more
      attempt counted, failed for a device error, for 400 and at the third attempt, else queued. */
  lemma FinishEffect(w: World, f: FlightId, r: Response)
    requires Inv(w) && f in w.flights
    ensures var v, o, copy := Apply(w, FinishSend(f, r)), w.flights[f].op, w.flights[f].copy;
            && v.ops.Keys == w.ops.Keys && (forall p :: p in w.ops && p != o ==> v.ops[p] == w.ops[p])
            && v.ops[o] == (if r.Answer? && r.status / 100 == 2 then Operation(copy.endpoint, Confirmed, copy.counter)
                            else if r.Answer? && (r.status == 400 || (r.status == 502 && r.code != ""))
                            then Operation(copy.endpoint, Failed, copy.counter + 1)
                            else Operation(copy.endpoint, if copy.counter >= 2 then Failed else Queued, copy.counter + 1))
            && v.flights == w.flights - {f} && v.tasks == w.tasks
  {
    FinishRows(w, f, r);
    assert w.flights[f].op in w.ops;
  }

  /** If that fails the operation of an active update, the update is idle with result 8; no other
      update changes. */
  lemma FinishFailsOwner(w: World, f: FlightId, r: Response, u: UpdateId)
    requires Inv(w) && f in w.flights && u in w.updates
    ensures var v, o := Apply(w, FinishSend(f, r)), w.flights[f].op;
            && u in v.updates && o in v.ops
            && v.updates[u] ==
               if v.ops[o].status == Failed && w.updates[u].result == 0
                  && (w.updates[u].sendUri == Some(o) || w.updates[u].execute == Some(o))
               then w.updates[u].(state := 0, result := 8) else w.updates[u]
  {
    var o, x := w.flights[f].op, WrittenBack(w, f, r);
    FinishRows(w, f, r);
    WriteBackKeepsInv(w, f, r);
    assert Owners(x, o) == Owners(w, o);
    if Links(w.updates[u], o) {
      OwnerUnique(x, o, u);
    }
  }
}
