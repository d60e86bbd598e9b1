/** What whole runs of the firmware-update protocol can and cannot do. */
module FotaTraces {
  import opened Wrappers
  import opened FotaModel
  import opened FotaInvariants
  import Versions

  // ---- one step seen from one row

  /** What the report leaves in the row of an update that is active on its endpoint. */
  function ReportedRow(up: Update, isSurvivor: bool, report: Report, nextOp: OpId): Update {
    if !isSurvivor then Resolved(up, UPDATE_FAILED)
    else
      match report
      case VersionReport(version) =>
        if up.state == IDLE && up.result == DEFAULT then up
        else Resolved(up, if Versions.Normalize(up.version) == Versions.Normalize(version) then SUCCESS else UPDATE_FAILED)
      case StateReport(state) =>
        up.(state := state, execute := if state == DOWNLOADED then Some(nextOp) else up.execute)
      case ResultReport(result) => Resolved(up, result)
      case OtherReport => up
  }

  lemma AppliedRow(c: World, s: UpdateId, report: Report, u: UpdateId)
    requires s in c.updates && u in c.updates
    ensures u in Applied(c, s, report).updates
    ensures Applied(c, s, report).updates[u] == if u == s then ReportedRow(c.updates[u], true, report, c.nextOp) else c.updates[u]
  {
  }

  /** A report rewrites exactly the active rows of its endpoint. */
  lemma ReportRow(w: World, ep: Endpoint, report: Report, s: UpdateId, u: UpdateId)
    requires Inv(w) && IsLatest(w, ep, s) && u in w.updates
    ensures u in HandleFota(w, ep, report, s).updates
    ensures HandleFota(w, ep, report, s).updates[u] ==
            if u in Active(w, ep) then ReportedRow(w.updates[u], u == s, report, w.nextOp) else w.updates[u]
  {
    AppliedRow(Cleaned(w, ep, s), s, report, u);
  }

  /** A report aborts or leaves alone an existing operation, and aborts only its own endpoint's. */
  lemma ReportOp(w: World, ep: Endpoint, report: Report, s: UpdateId, o: OpId)
    requires Inv(w) && IsLatest(w, ep, s) && o in w.ops
    ensures o in HandleFota(w, ep, report, s).ops
    ensures var op := HandleFota(w, ep, report, s).ops[o];
            op == w.ops[o] || (op == AbortOne(w.ops[o]) && w.ops[o].endpoint == ep)
  {
    var c := Cleaned(w, ep, s);
    CleanedSparesSurvivor(w, ep, s);
    LinksIsOwns(w, s, o);
    if c.ops[o] != w.ops[o] {
      var u :| IsStale(w, ep, s, u) && Links(w.updates[u], o);
      LinksIsOwns(w, u, o);
    }
    match report
    case VersionReport(version) =>
    case StateReport(state) =>
    case ResultReport(result) =>
    case OtherReport =>
  }

  /** A finished send rewrites its own operation, and at most fails an active update of its endpoint. */
  lemma FinishRows(w: World, f: FlightId, r: Response)
    requires Inv(w) && f in w.flights
    ensures Finished(w, f, r).ops == w.ops[w.flights[f].op := Outcome(w.flights[f].copy, r)]
    ensures Finished(w, f, r).updates.Keys == w.updates.Keys
    ensures forall u :: u in w.updates && Finished(w, f, r).updates[u] != w.updates[u] ==>
              && w.updates[u].result == DEFAULT
              && w.updates[u].endpoint == w.flights[f].copy.endpoint
              && Finished(w, f, r).updates[u] == Resolved(w.updates[u], UPDATE_FAILED)
  {
    var o, v := w.flights[f].op, WrittenBack(w, f, r);
    WriteBackKeepsInv(w, f, r);
    forall u | IsFirst(Owners(v, o), u) ensures w.updates[u].endpoint == w.flights[f].copy.endpoint {
      LinksIsOwns(v, u, o);
    }
  }

  /** The steps that touch no existing update row. */
  predicate SparesUpdates(w: World, l: Label) {
    !l.FinishSend? && (l.Reported? ==> Active(w, l.endpoint) == {})
  }

  lemma OtherStepsSpareUpdates(w: World, l: Label)
    requires Inv(w) && Enabled(w, l) && SparesUpdates(w, l)
    ensures forall u :: u in w.updates ==> u in Apply(w, l).updates && Apply(w, l).updates[u] == w.updates[u]
  {
  }

  /** Only creation adds an update, and it adds an idle one without result. */
  lemma NewUpdates(w: World, l: Label)
    requires Inv(w) && Enabled(w, l)
    ensures w.updates.Keys <= Apply(w, l).updates.Keys
    ensures forall u :: u in Apply(w, l).updates && u !in w.updates ==>
              l.Create? && Apply(w, l).updates[u].state == IDLE && Apply(w, l).updates[u].result == DEFAULT
  {
    if l.Reported? && Active(w, l.endpoint) != {} {
      assert Cleaned(w, l.endpoint, l.survivor).updates.Keys == w.updates.Keys;
      assert l.survivor in w.updates;
    } else if l.FinishSend? {
      FinishRows(w, l.flight, l.response);
    }
  }

  /** Every step: a row keeps what was fixed at creation, and a resolved row keeps everything. */
  lemma StepOnRow(w: World, l: Label, u: UpdateId)
    requires Inv(w) && Enabled(w, l) && u in w.updates
    ensures u in Apply(w, l).updates
    ensures var a, b := w.updates[u], Apply(w, l).updates[u];
            && b.endpoint == a.endpoint && b.version == a.version && b.sendUri == a.sendUri
            && (a.result != DEFAULT ==> b == a)
  {
    if SparesUpdates(w, l) {
      OtherStepsSpareUpdates(w, l);
    } else if l.FinishSend? {
      FinishRows(w, l.flight, l.response);
    } else {
      ReportRow(w, l.endpoint, l.report, l.survivor, u);
    }
  }

  // ---- resolved updates are frozen

  lemma RunStepOnRow(run: Run, i: nat, u: UpdateId)
    requires IsRun(run) && i < |run.labels| && u in run.worlds[i].updates
    ensures u in run.worlds[i + 1].updates
    ensures var a, b := run.worlds[i].updates[u], run.worlds[i + 1].updates[u];
            && b.endpoint == a.endpoint && b.version == a.version && b.sendUri == a.sendUri
            && (a.result != DEFAULT ==> b == a)
  {
    RunStep(run, i);
    StepOnRow(run.worlds[i], run.labels[i], u);
  }

  /** Once an update has a result, no later step of any run changes any of its columns. */
  lemma {:induction false} ResolvedFrozen(run: Run, i: nat, j: nat, u: UpdateId)
    requires IsRun(run) && i <= j < |run.worlds|
    requires u in run.worlds[i].updates
    ensures u in run.worlds[j].updates
    ensures run.worlds[i].updates[u].result != DEFAULT ==>
              run.worlds[i].updates[u].state == IDLE && run.worlds[j].updates[u] == run.worlds[i].updates[u]
    ensures run.worlds[j].updates[u].endpoint == run.worlds[i].updates[u].endpoint
    ensures run.worlds[j].updates[u].version == run.worlds[i].updates[u].version
    ensures run.worlds[j].updates[u].sendUri == run.worlds[i].updates[u].sendUri
    decreases j - i
  {
    if i < j {
      ResolvedFrozen(run, i, j - 1, u);
      RunStepOnRow(run, j - 1, u);
    } else {
      RunKeepsInv(run, i);
    }
  }

  // ---- where a SUCCESS comes from

  /** Step `i` is a report of its own device while `u` is the surviving active update. */
  ghost predicate Surviving(run: Run, i: nat, u: UpdateId)
    requires IsRun(run)
  {
    && i < |run.labels|
    && run.labels[i].Reported?
    && run.labels[i].survivor == u
    && u in Active(run.worlds[i], run.labels[i].endpoint)
  }

  /** Step `i` reports a state, or the result that puts the state back to idle. */
  ghost predicate SetsState(run: Run, i: nat, ep: Endpoint) {
    && i < |run.labels|
    && run.labels[i].Reported?
    && run.labels[i].endpoint == ep
    && (run.labels[i].report.StateReport? || run.labels[i].report.ResultReport?)
  }

  /** Step `j` told update `u` a state other than idle, and nothing before step `n` revised it. */
  ghost predicate StartedAt(run: Run, n: nat, u: UpdateId, ep: Endpoint, j: nat)
    requires IsRun(run)
  {
    && j < n
    && Surviving(run, j, u)
    && run.labels[j].endpoint == ep
    && run.labels[j].report.StateReport?
    && run.labels[j].report.state != IDLE
    && forall k :: j < k < n ==> !SetsState(run, k, ep)
  }

  ghost predicate Started(run: Run, n: nat, u: UpdateId, ep: Endpoint)
    requires IsRun(run)
  {
    exists j: nat :: StartedAt(run, n, u, ep, j)
  }

  /** One step and the state of an update that stays active. */
  lemma StateStep(w: World, l: Label, u: UpdateId)
    requires Inv(w) && Enabled(w, l) && u in w.updates
    requires u in Apply(w, l).updates && Apply(w, l).updates[u].result == DEFAULT
    ensures w.updates[u].result == DEFAULT
    ensures if l.Reported? && l.endpoint == w.updates[u].endpoint && (l.report.StateReport? || l.report.ResultReport?)
            then l.survivor == u
                 && Apply(w, l).updates[u].state == (if l.report.StateReport? then l.report.state else IDLE)
            else Apply(w, l).updates[u].state == w.updates[u].state
  {
    StepOnRow(w, l, u);
    assert u in Active(w, w.updates[u].endpoint);
    if SparesUpdates(w, l) {
      OtherStepsSpareUpdates(w, l);
    } else if l.FinishSend? {
      FinishRows(w, l.flight, l.response);
    } else {
      ReportRow(w, l.endpoint, l.report, l.survivor, u);
    }
  }

  /** How the last report that set the state carries over one more step. */
  lemma StartedStep(run: Run, n: nat, u: UpdateId, ep: Endpoint)
    requires IsRun(run) && n < |run.labels|
    ensures if SetsState(run, n, ep)
            then Started(run, n + 1, u, ep) <==>
                 Surviving(run, n, u) && run.labels[n].report.StateReport? && run.labels[n].report.state != IDLE
            else Started(run, n + 1, u, ep) <==> Started(run, n, u, ep)
  {
    if SetsState(run, n, ep) {
      if Surviving(run, n, u) && run.labels[n].report.StateReport? && run.labels[n].report.state != IDLE {
        assert StartedAt(run, n + 1, u, ep, n);
      }
      if Started(run, n + 1, u, ep) {
        var j: nat :| StartedAt(run, n + 1, u, ep, j);
        assert !(j < n);
      }
    } else {
      if Started(run, n, u, ep) {
        var j: nat :| StartedAt(run, n, u, ep, j);
        assert StartedAt(run, n + 1, u, ep, j);
      }
      if Started(run, n + 1, u, ep) {
        var j: nat :| StartedAt(run, n + 1, u, ep, j);
        assert StartedAt(run, n, u, ep, j);
      }
    }
  }

  lemma NewNotStarted(run: Run, n: nat, u: UpdateId)
    requires IsRun(run) && n < |run.labels| && u in run.worlds[n + 1].updates && u !in run.worlds[n].updates
    ensures run.worlds[n + 1].updates[u].state == IDLE && run.worlds[n + 1].updates[u].result == DEFAULT
    ensures forall i :: 0 <= i <= n ==> !Surviving(run, i, u)
    ensures !Started(run, n + 1, u, run.worlds[n + 1].updates[u].endpoint)
  {
    RunStep(run, n);
    NewUpdates(run.worlds[n], run.labels[n]);
    forall i | 0 <= i <= n ensures !Surviving(run, i, u) {
      if Surviving(run, i, u) {
        ResolvedFrozen(run, i, n, u);
      }
    }
  }

  lemma StateTracksStep(run: Run, n: nat, u: UpdateId)
    requires IsRun(run) && n < |run.labels|
    requires u in run.worlds[n].updates && u in run.worlds[n + 1].updates && run.worlds[n + 1].updates[u].result == DEFAULT
    ensures var ep := run.worlds[n].updates[u].endpoint;
            && run.worlds[n].updates[u].result == DEFAULT && run.worlds[n + 1].updates[u].endpoint == ep
            && ((run.worlds[n].updates[u].state != IDLE <==> Started(run, n, u, ep)) ==>
                (run.worlds[n + 1].updates[u].state != IDLE <==> Started(run, n + 1, u, ep)))
  {
    RunStep(run, n);
    StepOnRow(run.worlds[n], run.labels[n], u);
    StateStep(run.worlds[n], run.labels[n], u);
    StartedStep(run, n, u, run.worlds[n].updates[u].endpoint);
  }

  /** An active update is in a non-idle state exactly when the last report of its device that set
      the state, since the update was created, told a state other than idle. A result report sets
      the state too, to idle; of those only a result of 0 leaves the update active. */
  lemma {:induction false} StateTracksReports(run: Run, n: nat, u: UpdateId)
    requires IsRun(run) && n < |run.worlds|
    requires u in run.worlds[n].updates && run.worlds[n].updates[u].result == DEFAULT
    ensures run.worlds[n].updates[u].state != IDLE <==> Started(run, n, u, run.worlds[n].updates[u].endpoint)
  {
    if n > 0 {
      if u in run.worlds[n - 1].updates {
        StateTracksStep(run, n - 1, u);
        StateTracksReports(run, n - 1, u);
      } else {
        NewNotStarted(run, n - 1, u);
      }
    }
  }

  /** Step `i` told the surviving update `u` that it succeeded. */
  ghost predicate Confirms(run: Run, i: nat, u: UpdateId)
    requires IsRun(run)
  {
    && Surviving(run, i, u)
    && match run.labels[i].report
       case ResultReport(result) => result == SUCCESS
       case VersionReport(version) =>
         && Versions.Normalize(version) == Versions.Normalize(run.worlds[i].updates[u].version)
         && Started(run, i, u, run.labels[i].endpoint)
       case _ => false
  }

  lemma SuccessStep(run: Run, n: nat, u: UpdateId)
    requires IsRun(run) && n < |run.labels| && u in run.worlds[n + 1].updates
    requires u in run.worlds[n].updates ==> run.worlds[n].updates[u].result != SUCCESS
    ensures run.worlds[n + 1].updates[u].result == SUCCESS <==> Confirms(run, n, u)
  {
    var w, l, v := run.worlds[n], run.labels[n], run.worlds[n + 1];
    RunStep(run, n);
    if u !in w.updates {
      NewUpdates(w, l);
    } else if w.updates[u].result != DEFAULT {
      StepOnRow(w, l, u);
    } else if SparesUpdates(w, l) {
      OtherStepsSpareUpdates(w, l);
    } else if l.FinishSend? {
      FinishRows(w, l.flight, l.response);
    } else {
      ReportRow(w, l.endpoint, l.report, l.survivor, u);
      StateTracksReports(run, n, u);
    }
  }

  /** An update is marked SUCCESS if and only if, while it was the surviving active update, its
      device reported result 1, or reported the expected version when the last report that set the
      state, a state or a result, had told a state other than idle. */
  lemma {:induction false} SuccessExactly(run: Run, n: nat, u: UpdateId)
    requires IsRun(run) && n < |run.worlds| && u in run.worlds[n].updates
    ensures run.worlds[n].updates[u].result == SUCCESS <==> exists i :: 0 <= i < n && Confirms(run, i, u)
  {
    if n > 0 {
      if u in run.worlds[n - 1].updates {
        SuccessExactly(run, n - 1, u);
        if run.worlds[n - 1].updates[u].result == SUCCESS {
          RunStepOnRow(run, n - 1, u);
        } else {
          SuccessStep(run, n - 1, u);
        }
      } else {
        SuccessStep(run, n - 1, u);
        NewNotStarted(run, n - 1, u);
      }
    }
  }

  // ---- endpoints do not touch each other

  function Subject(w: World, l: Label): Option<Endpoint> {
    match l
    case BeginSend(o) => if o in w.ops then Some(w.ops[o].endpoint) else None
    case FinishSend(f, _) => if f in w.flights then Some(w.flights[f].copy.endpoint) else None
    case _ => Some(l.endpoint)
  }

  /** A step leaves every row of every other endpoint as it was. */
  lemma StepIsLocal(w: World, l: Label, ep: Endpoint)
    requires Inv(w) && Enabled(w, l) && Subject(w, l) != Some(ep)
    ensures forall u :: u in w.updates && w.updates[u].endpoint == ep ==>
              u in Apply(w, l).updates && Apply(w, l).updates[u] == w.updates[u]
    ensures forall o :: o in w.ops && w.ops[o].endpoint == ep ==>
              o in Apply(w, l).ops && Apply(w, l).ops[o] == w.ops[o]
  {
    if SparesUpdates(w, l) {
      OtherStepsSpareUpdates(w, l);
    } else if l.FinishSend? {
      FinishRows(w, l.flight, l.response);
    } else {
      forall u | u in w.updates && w.updates[u].endpoint == ep
        ensures u in Apply(w, l).updates && Apply(w, l).updates[u] == w.updates[u]
      {
        ReportRow(w, l.endpoint, l.report, l.survivor, u);
      }
      forall o | o in w.ops && w.ops[o].endpoint == ep ensures o in Apply(w, l).ops && Apply(w, l).ops[o] == w.ops[o] {
        ReportOp(w, l.endpoint, l.report, l.survivor, o);
      }
    }
  }

  /** A device whose endpoint takes no step between two moments of a run finds its updates and
      operations unchanged, whatever the other endpoints do meanwhile. */
  lemma {:induction false} EndpointsIsolated(run: Run, i: nat, j: nat, ep: Endpoint)
    requires IsRun(run) && i <= j < |run.worlds|
    requires forall k :: i <= k < j ==> Subject(run.worlds[k], run.labels[k]) != Some(ep)
    ensures forall u :: u in run.worlds[i].updates && run.worlds[i].updates[u].endpoint == ep ==>
              u in run.worlds[j].updates && run.worlds[j].updates[u] == run.worlds[i].updates[u]
    ensures forall o :: o in run.worlds[i].ops && run.worlds[i].ops[o].endpoint == ep ==>
              o in run.worlds[j].ops && run.worlds[j].ops[o] == run.worlds[i].ops[o]
    decreases j - i
  {
    if i < j {
      EndpointsIsolated(run, i, j - 1, ep);
      RunStep(run, j - 1);
      StepIsLocal(run.worlds[j - 1], run.labels[j - 1], ep);
    }
  }

  // ---- cleaning up duplicates

  /** A report on the survivor leaves alone every operation that is not the survivor's. */
  lemma AppliedOp(c: World, s: UpdateId, report: Report, o: OpId)
    requires s in c.updates && o in c.ops && o < c.nextOp && !Links(c.updates[s], o)
    ensures o in Applied(c, s, report).ops && Applied(c, s, report).ops[o] == c.ops[o]
  {
  }

  /** Any report of a device with active updates leaves at most one of them active: the latest.
      All others end failed and idle with nothing open, whatever the report says. */
  lemma ReportLeavesOne(w: World, ep: Endpoint, report: Report, s: UpdateId)
    requires Inv(w) && IsLatest(w, ep, s)
    ensures var v := HandleFota(w, ep, report, s);
            && Active(v, ep) <= {s}
            && forall u :: u in Active(w, ep) && u != s ==>
                 && v.updates[u] == Resolved(w.updates[u], UPDATE_FAILED)
                 && forall role, o :: Owns(w, u, role, o) ==> o in v.ops && !Pending(v.ops[o].status)
  {
    var c, v := Cleaned(w, ep, s), HandleFota(w, ep, report, s);
    CleanedSparesSurvivor(w, ep, s);
    forall u | u in w.updates ensures u in v.updates && (u in Active(w, ep) && u != s ==> v.updates[u] == Resolved(w.updates[u], UPDATE_FAILED)) {
      ReportRow(w, ep, report, s, u);
    }
    forall u | u in Active(v, ep) ensures u == s {
      NewUpdates(w, Reported(ep, report, s));
      ReportRow(w, ep, report, s, u);
    }
    forall u, role, o | u in Active(w, ep) && u != s && Owns(w, u, role, o)
      ensures o in v.ops && !Pending(v.ops[o].status)
    {
      LinksIsOwns(w, u, o);
      assert IsStale(w, ep, s, u) && Links(w.updates[u], o);
      LinksIsOwns(w, s, o);
      AppliedOp(c, s, report, o);
    }
  }

  /** A result report closes the surviving update: it is idle with that result, and nothing is open. */
  lemma ResultReportCloses(w: World, ep: Endpoint, result: int, s: UpdateId)
    requires Inv(w) && IsLatest(w, ep, s)
    ensures var v := HandleFota(w, ep, ResultReport(result), s);
            && v.updates[s] == Resolved(w.updates[s], result)
            && forall role, o :: Owns(w, s, role, o) ==> o in v.ops && !Pending(v.ops[o].status)
  {
    CleanedSparesSurvivor(w, ep, s);
    var c := Cleaned(w, ep, s);
    forall role, o | Owns(w, s, role, o) ensures Links(c.updates[s], o) && o in c.ops {
      LinksIsOwns(w, s, o);
    }
  }

  lemma StateThenResult(w: World, ep: Endpoint, r: int, s: UpdateId)
    requires Inv(w) && IsLatest(w, ep, s)
    ensures var stateFirst := HandleFota(w, ep, StateReport(IDLE), s);
            && Active(stateFirst, ep) == {s} && IsLatest(stateFirst, ep, s)
            && HandleFota(stateFirst, ep, ResultReport(r), s) == HandleFota(w, ep, ResultReport(r), s)
  {
    var c, stateFirst := Cleaned(w, ep, s), HandleFota(w, ep, StateReport(IDLE), s);
    CleanedSparesSurvivor(w, ep, s);
    assert stateFirst == c.(updates := c.updates[s := c.updates[s].(state := IDLE)]);
    assert Active(stateFirst, ep) == {s};
    CleaningOneChangesNothing(stateFirst, ep, s);
  }

  /** The final report of a device carries state 0 and result `r`. Either order of the two nodes
      gives the same rows; with the result first, the state node is refused. */
  lemma FinalReportOrderIrrelevant(w: World, ep: Endpoint, r: int, s: UpdateId, t: UpdateId)
    requires Inv(w) && IsLatest(w, ep, s) && r != DEFAULT
    ensures var stateFirst := HandleFota(w, ep, StateReport(IDLE), s);
            var resultFirst := HandleFota(w, ep, ResultReport(r), s);
            && IsLatest(stateFirst, ep, s) && !Rejects(w, ep, StateReport(IDLE)) && !Rejects(stateFirst, ep, ResultReport(r))
            && Active(resultFirst, ep) == {} && Rejects(resultFirst, ep, StateReport(IDLE))
            && HandleFota(stateFirst, ep, ResultReport(r), s) == HandleFota(resultFirst, ep, StateReport(IDLE), t)
            && resultFirst.updates[s] == Resolved(w.updates[s], r)
            && forall role, o :: Owns(w, s, role, o) ==> o in resultFirst.ops && !Pending(resultFirst.ops[o].status)
  {
    StateThenResult(w, ep, r, s);
    ResultReportCloses(w, ep, r, s);
    ReportLeavesOne(w, ep, ResultReport(r), s);
    assert s !in Active(HandleFota(w, ep, ResultReport(r), s), ep);
  }

  lemma CleaningOneChangesNothing(w: World, ep: Endpoint, s: UpdateId)
    requires Active(w, ep) == {s}
    ensures Cleaned(w, ep, s) == w
  {
    assert forall u :: !IsStale(w, ep, s, u);
    assert Cleaned(w, ep, s).updates == w.updates;
    assert Cleaned(w, ep, s).ops == w.ops;
  }

  // ---- what duplicate tasks can do

  /** The exact steps that move an operation out of CONFIRMED or FAILED: a send task that starts
      on it again, or one that was already under way and writes back something else. */
  lemma FinalStatusLeftExactly(w: World, l: Label, o: OpId)
    requires Inv(w) && Enabled(w, l) && o in w.ops && !Pending(w.ops[o].status)
    ensures o in Apply(w, l).ops
    ensures Apply(w, l).ops[o].status != w.ops[o].status <==>
            match l
            case BeginSend(p) => p == o
            case FinishSend(f, r) =>
              && w.flights[f].op == o
              && if w.ops[o].status == Confirmed then !Delivered(r)
                 else Delivered(r) || (!Refused(r) && w.flights[f].copy.counter < 2)
            case _ => false
  {
    if l.FinishSend? {
      FinishRows(w, l.flight, l.response);
    } else if !SparesUpdates(w, l) {
      ReportOp(w, l.endpoint, l.report, l.survivor, o);
    }
  }

  ghost function Last(run: Run): World
    requires IsRun(run)
  {
    run.worlds[|run.worlds| - 1]
  }

  ghost function Extended(run: Run, l: Label): (r: Run)
    requires IsRun(run) && Enabled(Last(run), l)
    ensures IsRun(r) && Last(r) == Apply(Last(run), l) && r.worlds == run.worlds + [Last(r)] && r.labels == run.labels + [l]
  {
    var r := Run(run.worlds + [Apply(Last(run), l)], run.labels + [l]);
    assert forall i :: 0 <= i < |run.labels| ==> StepAt(run, i) ==> StepAt(r, i);
    r
  }

  /** A result report of 0 right after creation fails the package-URI operation of an update that
      stays active: failed operations do not always belong to resolved updates. */
  lemma ZeroResultStrands(ep: Endpoint) returns (run: Run)
    ensures IsRun(run) && !FailedResolved(Last(run))
    ensures 0 in Active(Last(run), ep) && Owns(Last(run), 0, PackageUri, 0)
    ensures 0 in Last(run).ops && Last(run).ops[0].status == Failed
  {
    run := Run([INITIAL], []);
    run := Extended(run, Create(ep, "v2", 0, false));
    var w, l := Last(run), Reported(ep, ResultReport(DEFAULT), 0);
    assert w == Created(INITIAL, ep, "v2", 0, false);
    assert Active(w, ep) == {0} && IsLatest(w, ep, 0);
    CleaningOneChangesNothing(w, ep, 0);
    assert Apply(w, l) == Close(w, 0, DEFAULT);
    run := Extended(run, l);
    assert Owns(Last(run), 0, PackageUri, 0);
  }

  lemma PassQueues(w: World, ep: Endpoint, o: OpId)
    requires Pass(ep) in w.tasks && QueuedOps(w, ep) == {o}
    ensures Apply(w, RunPass(ep)) == w.(tasks := w.tasks - multiset{Pass(ep)} + multiset{Send(o)})
  {
    assert (set p | p in QueuedOps(w, ep) :: Send(p)) == {Send(o)};
  }

  lemma CreatedThenRegistered(ep: Endpoint)
    ensures var w := Apply(Apply(INITIAL, Create(ep, "v2", 0, true)), Registered(ep));
            w.ops == map[0 := Operation(ep, Queued, 0)] && w.tasks == multiset{Pass(ep), Pass(ep)}
  {
    assert Apply(INITIAL, Create(ep, "v2", 0, true)) == Created(INITIAL, ep, "v2", 0, true);
  }

  lemma PassOnce(w: World, ep: Endpoint)
    requires w.ops == map[0 := Operation(ep, Queued, 0)] && Pass(ep) in w.tasks
    ensures Apply(w, RunPass(ep)) == w.(tasks := w.tasks - multiset{Pass(ep)} + multiset{Send(0)})
  {
    assert QueuedOps(w, ep) == {0};
    PassQueues(w, ep, 0);
  }

  lemma PassedTwice(w: World, ep: Endpoint)
    requires w.ops == map[0 := Operation(ep, Queued, 0)] && w.tasks == multiset{Pass(ep), Pass(ep)}
    ensures var v := Apply(w, RunPass(ep));
            && Enabled(v, RunPass(ep))
            && Apply(v, RunPass(ep)).ops == w.ops && Apply(v, RunPass(ep)).tasks == multiset{Send(0), Send(0)}
  {
    PassOnce(w, ep);
    PassOnce(w.(tasks := multiset{Pass(ep), Send(0)}), ep);
  }

  lemma QueuedTwice(ep: Endpoint) returns (run: Run)
    ensures IsRun(run) && 0 in Last(run).ops && Last(run).tasks == multiset{Send(0), Send(0)}
  {
    run := Run([INITIAL], []);
    run := Extended(run, Create(ep, "v2", 0, true));
    run := Extended(run, Registered(ep));
    CreatedThenRegistered(ep);
    PassedTwice(Last(run), ep);
    run := Extended(run, RunPass(ep));
    run := Extended(run, RunPass(ep));
  }

  lemma BeginTakesCopy(w: World, o: OpId)
    requires o in w.ops && Send(o) in w.tasks
    ensures var v := Apply(w, BeginSend(o));
            && v.tasks == w.tasks - multiset{Send(o)} && o in v.ops && v.ops[o].status == Sending
            && w.nextFlight in v.flights && v.flights[w.nextFlight].op == o
  {
  }

  lemma FinishConfirms(w: World, f: FlightId)
    requires f in w.flights
    ensures var v := Apply(w, FinishSend(f, Answer(200, "")));
            var o := w.flights[f].op;
            v.tasks == w.tasks && o in v.ops && v.ops[o].status == Confirmed
  {
  }

  /** Two registration events can queue the same operation twice; the second send then takes a
      confirmed operation back to SENDING. */
  lemma ConfirmedCanBeLeft(ep: Endpoint) returns (run: Run, n: nat)
    ensures IsRun(run) && n < |run.labels| && 0 in run.worlds[n].ops && 0 in run.worlds[n + 1].ops
    ensures run.worlds[n].ops[0].status == Confirmed && run.worlds[n + 1].ops[0].status == Sending
  {
    run := QueuedTwice(ep);
    var f := Last(run).nextFlight;
    BeginTakesCopy(Last(run), 0);
    run := Extended(run, BeginSend(0));
    FinishConfirms(Last(run), f);
    run := Extended(run, FinishSend(f, Answer(200, "")));
    BeginTakesCopy(Last(run), 0);
    n := |run.labels|;
    run := Extended(run, BeginSend(0));
  }
}
