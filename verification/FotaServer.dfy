/** The handlers and tasks that change the database in place. Each one, as a whole, is the step
    of the protocol that its contract names. */
module FotaServer {
  import opened Wrappers
  import opened FotaModel
  import opened FotaInvariants
  import FotaTraces
  import Versions

  predicate Newest(w: World, us: set<UpdateId>, s: UpdateId)
    requires us <= w.updates.Keys
  {
    s in us && forall u :: u in us ==> w.updates[u].created <= w.updates[s].created
  }

  lemma NewestExists(w: World, us: set<UpdateId>)
    requires us != {} && us <= w.updates.Keys
    ensures exists s :: Newest(w, us, s)
  {
    var v :| v in us;
    var rest := us - {v};
    if rest == {} {
      assert us == {v};
      assert Newest(w, us, v);
    } else {
      NewestExists(w, rest);
      var s :| Newest(w, rest, s);
      assert us == rest + {v};
      assert Newest(w, us, if w.updates[s].created < w.updates[v].created then v else s);
    }
  }

  /** The update rows when the updates in `done` have been failed. */
  ghost function MarkedFailed(w: World, done: set<UpdateId>): map<UpdateId, Update> {
    map u | u in w.updates :: if u in done then Resolved(w.updates[u], UPDATE_FAILED) else w.updates[u]
  }

  /** The operation rows when everything open of the updates in `done` has been aborted. */
  ghost function AbortedFor(w: World, done: set<UpdateId>): map<OpId, Operation>
    requires done <= w.updates.Keys
  {
    map o | o in w.ops :: if exists u :: u in done && Links(w.updates[u], o) then AbortOne(w.ops[o]) else w.ops[o]
  }

  lemma AbortOneMore(w: World, done: set<UpdateId>, u: UpdateId)
    requires done <= w.updates.Keys && u in w.updates
    ensures Aborted(AbortedFor(w, done), w.updates[u]) == AbortedFor(w, done + {u})
  {
    var before, after := AbortedFor(w, done), AbortedFor(w, done + {u});
    forall o | o in w.ops ensures Aborted(before, w.updates[u])[o] == after[o] {
      if Links(w.updates[u], o) {
        assert u in done + {u};
      } else {
        assert (exists v :: v in done + {u} && Links(w.updates[v], o)) <==> (exists v :: v in done && Links(w.updates[v], o));
      }
    }
  }

  lemma AbortsSame(ops: map<OpId, Operation>, a: Update, b: Update)
    requires a.sendUri == b.sendUri && a.execute == b.execute
    ensures Aborted(ops, a) == Aborted(ops, b)
  {
    assert forall o :: Links(a, o) <==> Links(b, o);
  }

  lemma AllAborted(w: World, ep: Endpoint, latest: UpdateId)
    ensures Cleaned(w, ep, latest).updates == MarkedFailed(w, Active(w, ep) - {latest})
    ensures Cleaned(w, ep, latest).ops == AbortedFor(w, Active(w, ep) - {latest})
  {
    var stale := Active(w, ep) - {latest};
    assert forall u :: u in stale <==> IsStale(w, ep, latest, u);
    forall o | o in w.ops ensures Cleaned(w, ep, latest).ops[o] == AbortedFor(w, stale)[o] {
      assert (exists u :: u in stale && Links(w.updates[u], o)) <==> (exists u :: IsStale(w, ep, latest, u) && Links(w.updates[u], o));
    }
  }

  predicate Adds(tasks: multiset<Task>, others: multiset<Task>, os: set<OpId>, t: Task) {
    tasks[t] == others[t] + if t.Send? && t.op in os then 1 else 0
  }

  lemma OneMoreSend(tasks: multiset<Task>, others: multiset<Task>, os: set<OpId>, o: OpId)
    requires o !in os && forall t :: Adds(tasks, others, os, t)
    ensures forall t :: Adds(tasks + multiset{Send(o)}, others, os + {o}, t)
  {
    forall t ensures Adds(tasks + multiset{Send(o)}, others, os + {o}, t) {
      assert Adds(tasks, others, os, t);
    }
  }

  lemma OneSendEach(tasks: multiset<Task>, others: multiset<Task>, os: set<OpId>)
    requires forall t :: Adds(tasks, others, os, t)
    ensures tasks == others + SendTasks(os)
  {
    forall t ensures tasks[t] == (others + SendTasks(os))[t] {
      assert Adds(tasks, others, os, t);
      assert t in (set o | o in os :: Send(o)) <==> t.Send? && t.op in os;
    }
  }

  lemma FirstExists(us: set<UpdateId>)
    requires us != {}
    ensures exists u :: IsFirst(us, u)
  {
    var v :| v in us;
    if us == {v} {
      assert IsFirst(us, v);
    } else {
      var rest := us - {v};
      assert us == rest + {v};
      assert rest != {};
      FirstExists(rest);
      var u :| IsFirst(rest, u);
      assert IsFirst(us, if u <= v then u else v);
    }
  }

  class Server {
    var updates: map<UpdateId, Update>
    var ops: map<OpId, Operation>
    var tasks: multiset<Task>
    var flights: map<FlightId, Flight>
    var nextUpdate: UpdateId
    var nextOp: OpId
    var nextFlight: FlightId

    function State(): World
      reads this
    {
      World(updates, ops, tasks, flights, nextUpdate, nextOp, nextFlight)
    }

    constructor ()
      ensures State() == INITIAL
    {
      updates, ops, tasks, flights := map[], map[], multiset{}, map[];
      nextUpdate, nextOp, nextFlight := 0, 0, 0;
    }

    /** Inserts an operation row. */
    method AddOperation(ep: Endpoint, status: Status) returns (o: OpId)
      modifies this`ops, this`nextOp
      ensures o == old(nextOp) && nextOp == o + 1 && ops == old(ops)[o := Operation(ep, status, 0)]
    {
      o := nextOp;
      ops := ops[o := Operation(ep, status, 0)];
      nextOp := nextOp + 1;
    }

    /** FirmwareUpdate.save for a new row, and the pass that the page, but not the API, asks for. */
    method CreateUpdate(ep: Endpoint, version: string, created: int, dispatch: bool) returns (u: UpdateId)
      modifies this
      ensures u == old(nextUpdate) && State() == Apply(old(State()), Create(ep, version, created, dispatch))
    {
      var uri := AddOperation(ep, Queued);
      u := nextUpdate;
      updates := updates[u := Update(ep, version, IDLE, DEFAULT, created, Some(uri), None)];
      nextUpdate := nextUpdate + 1;
      if dispatch {
        tasks := tasks + multiset{Pass(ep)};
      }
    }

    /** Fails what is still open of the update's operations: the execution, then the package URI. */
    method AbortPendingFotaComms(fw: Update)
      requires fw.execute.Some? ==> fw.execute.value in ops
      requires fw.sendUri.Some? ==> fw.sendUri.value in ops
      modifies this`ops
      ensures ops == Aborted(old(ops), fw)
    {
      if fw.execute.Some? {
        var op := ops[fw.execute.value];
        if Pending(op.status) {
          ops := ops[fw.execute.value := op.(status := Failed)];
        }
      }
      if fw.sendUri.Some? {
        var op := ops[fw.sendUri.value];
        if Pending(op.status) {
          ops := ops[fw.sendUri.value := op.(status := Failed)];
        }
      }
    }

    /** The loop over stale duplicates: row by row it ends where failing all of them at once does. */
    method FailStale(ep: Endpoint, latest: UpdateId)
      requires LinksValid(State()) && latest in Active(State(), ep)
      modifies this`updates, this`ops
      ensures State() == Cleaned(old(State()), ep, latest)
    {
      ghost var w := State();
      var stale := Active(State(), ep) - {latest};
      var rest := stale;
      ghost var done: set<UpdateId> := {};
      while rest != {}
        invariant rest !! done && rest + done == stale && stale <= w.updates.Keys
        invariant State() == w.(updates := MarkedFailed(w, done), ops := AbortedFor(w, done))
      {
        var u :| u in rest;
        assert updates[u] == w.updates[u];
        var fw := updates[u].(result := UPDATE_FAILED, state := IDLE);
        assert fw.execute.Some? ==> Owns(w, u, Execution, fw.execute.value);
        assert fw.sendUri.Some? ==> Owns(w, u, PackageUri, fw.sendUri.value);
        AbortOneMore(w, done, u);
        AbortsSame(ops, fw, w.updates[u]);
        AbortPendingFotaComms(fw);
        updates := updates[u := fw];
        rest, done := rest - {u}, done + {u};
        assert updates == MarkedFailed(w, done);
      }
      assert done == stale;
      AllAborted(w, ep, latest);
    }

    /** Leaves one active update of `ep`, the latest; the lookup that follows finds exactly it. */
    method KeepLatest(ep: Endpoint) returns (u: UpdateId)
      requires Inv(State()) && Active(State(), ep) != {}
      modifies this`updates, this`ops
      ensures IsLatest(old(State()), ep, u)
      ensures State() == Cleaned(old(State()), ep, u)
      ensures Active(State(), ep) == {u}
    {
      ghost var w := State();
      NewestExists(w, Active(w, ep));
      ghost var newest :| Newest(w, Active(w, ep), newest);
      assert IsLatest(w, ep, newest);
      if |Active(State(), ep)| > 1 {
        var latest :| latest in Active(State(), ep)
                      && forall v :: v in Active(State(), ep) ==> updates[v].created <= updates[latest].created;
        assert IsLatest(w, ep, latest);
        FailStale(ep, latest);
        CleanedSparesSurvivor(w, ep, latest);
      } else {
        assert Active(w, ep) == {newest} by {
          assert |Active(w, ep) - {newest}| == 0;
        }
        FotaTraces.CleaningOneChangesNothing(w, ep, newest);
      }
      u :| u in Active(State(), ep);
    }

    /** Gives update `u` its result, puts it back to idle, aborts what is open, and saves the row. */
    method Conclude(u: UpdateId, result: int)
      requires u in updates && (forall role, o :: Owns(State(), u, role, o) ==> o in ops)
      modifies this`updates, this`ops
      ensures State() == Close(old(State()), u, result)
    {
      var fw := updates[u];
      assert fw.execute.Some? ==> Owns(State(), u, Execution, fw.execute.value);
      assert fw.sendUri.Some? ==> Owns(State(), u, PackageUri, fw.sendUri.value);
      fw := fw.(result := result, state := IDLE);
      AbortsSame(ops, fw, updates[u]);
      AbortPendingFotaComms(fw);
      updates := updates[u := fw];
    }

    /** The verdict on the one update that is left: a version, a state, or a result. */
    method ApplyReport(u: UpdateId, report: Report)
      requires u in updates && (forall role, o :: Owns(State(), u, role, o) ==> o in ops)
      modifies this
      ensures State() == Applied(old(State()), u, report)
    {
      var fw := updates[u];
      match report {
        case VersionReport(version) =>
          if fw.state == IDLE && fw.result == DEFAULT {
            return;
          }
          if Versions.Normalize(fw.version) == Versions.Normalize(version) {
            Conclude(u, SUCCESS);
          } else {
            Conclude(u, UPDATE_FAILED);
          }
        case StateReport(state) =>
          fw := fw.(state := state);
          if state == DOWNLOADED {
            var exec := AddOperation(fw.endpoint, Queued);
            fw := fw.(execute := Some(exec));
            tasks := tasks + multiset{Pass(fw.endpoint)};
          }
          updates := updates[u := fw];
        case ResultReport(result) =>
          Conclude(u, result);
        case OtherReport =>
      }
    }

    /** A firmware report of device `ep`. Afterwards `survivor` names the update that was kept. */
    method HandleFota(ep: Endpoint, report: Report) returns (rejected: bool, survivor: UpdateId)
      requires Inv(State())
      modifies this
      ensures Inv(State())
      ensures rejected <==>
              !report.VersionReport? && forall u :: u in old(updates) && old(updates)[u].endpoint == ep ==> old(updates)[u].result != 0
      ensures Enabled(old(State()), Reported(ep, report, survivor))
      ensures (exists u :: u in old(updates) && old(updates)[u].endpoint == ep && old(updates)[u].result == 0) ==>
                && survivor in old(updates) && old(updates)[survivor].endpoint == ep && old(updates)[survivor].result == 0
                && forall u :: u in old(updates) && old(updates)[u].endpoint == ep && old(updates)[u].result == 0 ==>
                     old(updates)[u].created <= old(updates)[survivor].created
      ensures State() == Apply(old(State()), Reported(ep, report, survivor))
    {
      ghost var w := State();
      if |Active(State(), ep)| == 0 {
        assert Active(w, ep) == {};
        forall u | u in w.updates && w.updates[u].endpoint == ep ensures w.updates[u].result != 0 {
          assert u !in Active(w, ep);
        }
        return !report.VersionReport?, 0;
      }
      survivor := KeepLatest(ep);
      assert survivor in Active(w, ep);
      forall u | u in w.updates && w.updates[u].endpoint == ep && w.updates[u].result == 0
        ensures w.updates[u].created <= w.updates[survivor].created
      {
        assert u in Active(w, ep);
      }
      CleanedKeepsInv(w, ep, survivor);
      ApplyReport(survivor, report);
      ReportKeepsInv(w, ep, report, survivor);
      rejected := false;
    }

    /** The pass over pending operations: one send task for each operation queued when it starts. */
    method ProcessPendingOperations(ep: Endpoint)
      requires Pass(ep) in tasks
      modifies this`tasks
      ensures State() == Apply(old(State()), RunPass(ep))
    {
      var pending := QueuedOps(State(), ep);
      tasks := tasks - multiset{Pass(ep)};
      ghost var others, sent := tasks, {};
      var rest := pending;
      while rest != {}
        invariant sent !! rest && sent + rest == pending
        invariant forall t :: Adds(tasks, others, sent, t)
      {
        var o :| o in rest;
        OneMoreSend(tasks, others, sent, o);
        tasks := tasks + multiset{Send(o)};
        rest, sent := rest - {o}, sent + {o};
      }
      assert sent == pending;
      OneSendEach(tasks, others, pending);
    }

    /** The first half of send_operation: read the row, mark it SENDING, and save it. */
    method BeginSend(o: OpId) returns (f: Option<FlightId>)
      requires Send(o) in tasks
      modifies this
      ensures State() == Apply(old(State()), FotaModel.BeginSend(o))
      ensures f == if o in old(ops) then Some(old(nextFlight)) else None
    {
      tasks := tasks - multiset{Send(o)};
      if o !in ops {
        return None;
      }
      var copy := ops[o].(status := Sending);
      ops := ops[o := copy];
      f := Some(nextFlight);
      flights := flights[nextFlight := Flight(o, copy)];
      nextFlight := nextFlight + 1;
    }

    /** Fails the update that owns a failed operation. */
    method PropagateFailure(o: OpId)
      modifies this`updates
      ensures State() == Propagated(old(State()), o)
    {
      var owners := Owners(State(), o);
      if owners != {} {
        FirstExists(owners);
        var u :| u in owners && forall v :: v in owners ==> u <= v;
        assert forall v :: IsFirst(owners, v) <==> v == u;
        if updates[u].result == DEFAULT {
          updates := updates[u := updates[u].(result := UPDATE_FAILED, state := IDLE)];
        }
        assert State() == Propagated(old(State()), o);
      }
    }

    /** The second half of send_operation: classify the answer, save the local copy, and pass a
        failure on. */
    method FinishSend(f: FlightId, response: Response)
      requires f in flights
      modifies this
      ensures State() == Apply(old(State()), FotaModel.FinishSend(f, response))
    {
      var o, copy := flights[f].op, flights[f].copy;
      flights := flights - {f};
      if response.Answer? && 200 <= response.status < 300 {
        copy := copy.(status := Confirmed);
      } else if response.Answer? && response.status == 502 && response.code != "" {
        copy := copy.(counter := copy.counter + 1);
        copy := copy.(status := Failed);
      } else if response.Answer? && response.status == 400 {
        copy := copy.(counter := copy.counter + 1);
        copy := copy.(status := Failed);
      } else {
        copy := copy.(counter := copy.counter + 1);
        if copy.counter >= MAX_ATTEMPTS {
          copy := copy.(status := Failed);
        } else {
          copy := copy.(status := Queued);
        }
      }
      ops := ops[o := copy];
      if copy.status == Failed {
        PropagateFailure(o);
      }
    }
  }
}
