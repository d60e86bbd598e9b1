/** The rows and steps of the firmware-update protocol: firmware updates, the operations
    that carry them to a device, queued tasks, and sends that wait for the gateway. */
module FotaModel {
  import opened Wrappers
  import Versions

  type Endpoint = string
  type UpdateId = nat
  type OpId = nat
  type FlightId = nat

  datatype Status = Sending | Queued | Confirmed | Failed

  const IDLE := 0
  const DOWNLOADED := 2
  const DEFAULT := 0
  const SUCCESS := 1
  const UPDATE_FAILED := 8
  const MAX_ATTEMPTS := 3

  /** A FirmwareUpdate row. `state` and `result` hold whatever number the device reported. */
  datatype Update = Update(endpoint: Endpoint, version: string, state: int, result: int, created: int,
                           sendUri: Option<OpId>, execute: Option<OpId>)

  /** An EndpointOperation row; its endpoint is the one of its resource. */
  datatype Operation = Operation(endpoint: Endpoint, status: Status, counter: nat)

  datatype Task = Pass(endpoint: Endpoint) | Send(op: OpId)

  /** A send_operation task between its two saves, with the copy of the row it will write back. */
  datatype Flight = Flight(op: OpId, copy: Operation)

  datatype World = World(updates: map<UpdateId, Update>, ops: map<OpId, Operation>,
                         tasks: multiset<Task>, flights: map<FlightId, Flight>,
                         nextUpdate: UpdateId, nextOp: OpId, nextFlight: FlightId)

  const INITIAL := World(map[], map[], multiset{}, map[], 0, 0, 0)

  // ---- links between updates and operations

  datatype Role = PackageUri | Execution

  function Link(up: Update, role: Role): Option<OpId> {
    match role
    case PackageUri => up.sendUri
    case Execution => up.execute
  }

  predicate Links(up: Update, o: OpId) {
    up.sendUri == Some(o) || up.execute == Some(o)
  }

  // ---- device reports

  /** What a node of object 3 or 5 tells handle_fota. */
  datatype Report =
    | VersionReport(version: string)
    | StateReport(state: int)
    | ResultReport(result: int)
    | OtherReport

  function Active(w: World, ep: Endpoint): set<UpdateId> {
    set u | u in w.updates && w.updates[u].endpoint == ep && w.updates[u].result == DEFAULT
  }

  /** `s` is a row that ordering the active updates by descending creation time may put first. */
  predicate IsLatest(w: World, ep: Endpoint, s: UpdateId) {
    && s in Active(w, ep)
    && forall u :: u in Active(w, ep) ==> w.updates[u].created <= w.updates[s].created
  }

  predicate Pending(status: Status) {
    status == Queued || status == Sending
  }

  function AbortOne(op: Operation): Operation {
    if Pending(op.status) then op.(status := Failed) else op
  }

  function Aborted(ops: map<OpId, Operation>, up: Update): map<OpId, Operation> {
    map o | o in ops :: if Links(up, o) then AbortOne(ops[o]) else ops[o]
  }

  function Resolved(up: Update, result: int): Update {
    up.(state := IDLE, result := result)
  }

  /** Ends update `u` with `result` and aborts its open operations. */
  function Close(w: World, u: UpdateId, result: int): World
    requires u in w.updates
  {
    w.(updates := w.updates[u := Resolved(w.updates[u], result)],
       ops := Aborted(w.ops, w.updates[u]))
  }

  predicate IsStale(w: World, ep: Endpoint, s: UpdateId, u: UpdateId) {
    u in Active(w, ep) && u != s
  }

  /** All active updates of `ep` but `s` failed at once, with their open operations. */
  ghost function Cleaned(w: World, ep: Endpoint, s: UpdateId): World {
    w.(updates := map u | u in w.updates ::
                    if IsStale(w, ep, s, u) then Resolved(w.updates[u], UPDATE_FAILED) else w.updates[u],
       ops := map o | o in w.ops ::
                if exists u :: IsStale(w, ep, s, u) && Links(w.updates[u], o)
                then AbortOne(w.ops[o]) else w.ops[o])
  }

  /** What a report does to the one active update that is left. */
  function Applied(w: World, s: UpdateId, report: Report): World
    requires s in w.updates
  {
    var up := w.updates[s];
    match report
    case VersionReport(version) =>
      if up.state == IDLE && up.result == DEFAULT then w
      else Close(w, s, if Versions.Normalize(up.version) == Versions.Normalize(version) then SUCCESS else UPDATE_FAILED)
    case StateReport(state) =>
      if state == DOWNLOADED then
        w.(updates := w.updates[s := up.(state := state, execute := Some(w.nextOp))],
           ops := w.ops[w.nextOp := Operation(up.endpoint, Queued, 0)],
           nextOp := w.nextOp + 1,
           tasks := w.tasks + multiset{Pass(up.endpoint)})
      else
        w.(updates := w.updates[s := up.(state := state)])
    case ResultReport(result) => Close(w, s, result)
    case OtherReport => w
  }

  ghost function HandleFota(w: World, ep: Endpoint, report: Report, s: UpdateId): World
    requires Active(w, ep) != {} ==> IsLatest(w, ep, s)
  {
    if Active(w, ep) == {} then w else Applied(Cleaned(w, ep, s), s, report)
  }

  /** The report ends in a validation error. */
  predicate Rejects(w: World, ep: Endpoint, report: Report) {
    Active(w, ep) == {} && !report.VersionReport?
  }

  // ---- sending

  /** The gateway's answer; `code` is "" when the body holds none. */
  datatype Response = Unreachable | Answer(status: int, code: string)

  predicate Delivered(r: Response) {
    r.Answer? && 200 <= r.status < 300
  }

  /** Failures that are not retried: the device refused, or the gateway found the request invalid. */
  predicate Refused(r: Response) {
    r.Answer? && ((r.status == 502 && r.code != "") || r.status == 400)
  }

  function Outcome(copy: Operation, r: Response): Operation {
    if Delivered(r) then copy.(status := Confirmed)
    else if Refused(r) then copy.(counter := copy.counter + 1, status := Failed)
    else copy.(counter := copy.counter + 1,
               status := if copy.counter + 1 >= MAX_ATTEMPTS then Failed else Queued)
  }

  function Owners(w: World, o: OpId): set<UpdateId> {
    set u | u in w.updates && Links(w.updates[u], o)
  }

  ghost predicate IsFirst(us: set<UpdateId>, u: UpdateId) {
    u in us && forall v :: v in us ==> u <= v
  }

  /** Fails the update that owns the failed operation `o`, if it is still active. */
  ghost function Propagated(w: World, o: OpId): World {
    w.(updates := map u | u in w.updates ::
                    if IsFirst(Owners(w, o), u) && w.updates[u].result == DEFAULT
                    then Resolved(w.updates[u], UPDATE_FAILED) else w.updates[u])
  }

  // ---- the step system

  datatype Label =
    | Create(endpoint: Endpoint, version: string, created: int, dispatch: bool)
    | PostOperation(endpoint: Endpoint, status: Status)
    | Reported(endpoint: Endpoint, report: Report, survivor: UpdateId)
    | Registered(endpoint: Endpoint)
    | RunPass(endpoint: Endpoint)
    | BeginSend(op: OpId)
    | FinishSend(flight: FlightId, response: Response)

  predicate Enabled(w: World, l: Label) {
    match l
    case Reported(ep, _, s) => Active(w, ep) != {} ==> IsLatest(w, ep, s)
    case RunPass(ep) => Pass(ep) in w.tasks
    case BeginSend(o) => Send(o) in w.tasks
    case FinishSend(f, _) => f in w.flights
    case _ => true
  }

  function Created(w: World, ep: Endpoint, version: string, created: int, dispatch: bool): World {
    w.(updates := w.updates[w.nextUpdate := Update(ep, version, IDLE, DEFAULT, created, Some(w.nextOp), None)],
       nextUpdate := w.nextUpdate + 1,
       ops := w.ops[w.nextOp := Operation(ep, Queued, 0)],
       nextOp := w.nextOp + 1,
       tasks := if dispatch then w.tasks + multiset{Pass(ep)} else w.tasks)
  }

  function QueuedOps(w: World, ep: Endpoint): set<OpId> {
    set o | o in w.ops && w.ops[o].endpoint == ep && w.ops[o].status == Queued
  }

  function SendTasks(os: set<OpId>): multiset<Task> {
    multiset(set o | o in os :: Send(o))
  }

  function Passed(w: World, ep: Endpoint): World {
    w.(tasks := w.tasks - multiset{Pass(ep)} + SendTasks(QueuedOps(w, ep)))
  }

  function Begun(w: World, o: OpId): World {
    var v := w.(tasks := w.tasks - multiset{Send(o)});
    if o !in w.ops then v
    else
      var copy := w.ops[o].(status := Sending);
      v.(ops := w.ops[o := copy], flights := w.flights[w.nextFlight := Flight(o, copy)],
         nextFlight := w.nextFlight + 1)
  }

  ghost function Finished(w: World, f: FlightId, r: Response): World
    requires f in w.flights
  {
    var o, done := w.flights[f].op, Outcome(w.flights[f].copy, r);
    var v := w.(ops := w.ops[o := done], flights := w.flights - {f});
    if done.status == Failed then Propagated(v, o) else v
  }

  ghost function Apply(w: World, l: Label): World
    requires Enabled(w, l)
  {
    match l
    case Create(ep, version, created, dispatch) => Created(w, ep, version, created, dispatch)
    case PostOperation(ep, status) =>
      w.(ops := w.ops[w.nextOp := Operation(ep, status, 0)], nextOp := w.nextOp + 1)
    case Reported(ep, report, s) => HandleFota(w, ep, report, s)
    case Registered(ep) => w.(tasks := w.tasks + multiset{Pass(ep)})
    case RunPass(ep) => Passed(w, ep)
    case BeginSend(o) => Begun(w, o)
    case FinishSend(f, r) => Finished(w, f, r)
  }

  /** A run: `worlds[i]` takes step `labels[i]` to `worlds[i + 1]`, from the empty database. */
  datatype Run = Run(worlds: seq<World>, labels: seq<Label>)

  /** Step `i` of the run is a step of the system. */
  ghost predicate StepAt(run: Run, i: nat)
    requires i < |run.labels| < |run.worlds|
  {
    Enabled(run.worlds[i], run.labels[i]) && run.worlds[i + 1] == Apply(run.worlds[i], run.labels[i])
  }

  ghost predicate IsRun(run: Run) {
    && |run.worlds| == |run.labels| + 1
    && run.worlds[0] == INITIAL
    && forall i :: 0 <= i < |run.labels| ==> StepAt(run, i)
  }
}
