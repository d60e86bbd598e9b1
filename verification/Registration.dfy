/** Registration events as Django stores them: late ones are kept, only the newest sets the state. */
module Registration {
  import opened Wrappers

  type Endpoint = string

  datatype Kind = Registered | Unregistered | Updated

  /** `time` is the event time as stored, in epoch milliseconds. */
  datatype Event = Event(endpoint: Endpoint, kind: Kind, time: int)

  datatype Task = ReadDevice(endpoint: Endpoint) | RunPass(endpoint: Endpoint)

  datatype Store = Store(history: seq<Event>, registered: map<Endpoint, bool>, tasks: seq<Task>)

  const EMPTY := Store([], map[], [])

  predicate SetsRegistered(kind: Kind) {
    kind != Unregistered
  }

  /** The greatest stored event time of `ep`. */
  function Latest(history: seq<Event>, ep: Endpoint): Option<int> {
    if history == [] then None
    else
      var last, rest := history[|history| - 1], Latest(history[..|history| - 1], ep);
      if last.endpoint != ep then rest
      else if rest.None? || rest.value < last.time then Some(last.time)
      else rest
  }

  /** It is the maximum the database aggregates: attained, and an upper bound. */
  lemma {:induction false} LatestIsMaximum(history: seq<Event>, ep: Endpoint)
    ensures Latest(history, ep).None? <==> forall e :: e in history ==> e.endpoint != ep
    ensures Latest(history, ep).Some? ==>
              (exists e :: e in history && e.endpoint == ep && e.time == Latest(history, ep).value)
              && forall e :: e in history && e.endpoint == ep ==> e.time <= Latest(history, ep).value
  {
    if history != [] {
      LatestIsMaximum(history[..|history| - 1], ep);
      assert history == history[..|history| - 1] + [history[|history| - 1]];
      assert history[|history| - 1] in history;
    }
  }

  function EndpointKnown(registered: map<Endpoint, bool>, ep: Endpoint): map<Endpoint, bool> {
    if ep in registered then registered else registered[ep := false]
  }

  /** A newer event of the same endpoint is already stored. */
  predicate IsLate(history: seq<Event>, e: Event) {
    var latest := Latest(history, e.endpoint);
    latest.Some? && e.time < latest.value
  }

  /** The tasks of an event that is not late. */
  function Started(e: Event): seq<Task> {
    match e.kind
    case Registered => [ReadDevice(e.endpoint), RunPass(e.endpoint)]
    case Updated => [RunPass(e.endpoint)]
    case Unregistered => []
  }

  function Create(s: Store, e: Event): (r: Store)
    ensures r.history == s.history + [e]
  {
    var known := EndpointKnown(s.registered, e.endpoint);
    var kept := s.(history := s.history + [e], registered := known);
    if IsLate(s.history, e) then kept
    else
      kept.(registered := known[e.endpoint := SetsRegistered(e.kind)],
            tasks := s.tasks + Started(e))
  }

  /** The events of `delivered`, applied one after the other to an empty store. */
  function Deliver(delivered: seq<Event>): Store {
    if delivered == [] then EMPTY
    else Create(Deliver(delivered[..|delivered| - 1]), delivered[|delivered| - 1])
  }

  // ---- which event decides

  function StateOf(s: Store, ep: Endpoint): Option<bool> {
    if ep in s.registered then Some(s.registered[ep]) else None
  }

  /** Delivery `k` carries the greatest time of `ep`, and is the last one that does. */
  predicate Decides(delivered: seq<Event>, ep: Endpoint, k: nat) {
    && k < |delivered|
    && delivered[k].endpoint == ep
    && forall j :: 0 <= j < |delivered| && delivered[j].endpoint == ep ==>
         delivered[j].time <= delivered[k].time && (j > k ==> delivered[j].time < delivered[k].time)
  }

  lemma DeliverOneMore(before: seq<Event>, e: Event)
    ensures Deliver(before + [e]) == Create(Deliver(before), e)
  {
    assert (before + [e])[..|before|] == before;
  }

  lemma {:induction false} HistoryIsDelivery(delivered: seq<Event>)
    ensures Deliver(delivered).history == delivered
  {
    if delivered != [] {
      var n := |delivered| - 1;
      HistoryIsDelivery(delivered[..n]);
      assert delivered == delivered[..n] + [delivered[n]];
    }
  }

  /** A deciding delivery after one more event: the new one unless it is late or of another endpoint. */
  lemma DecidesOneMore(before: seq<Event>, e: Event, ep: Endpoint, k: nat)
    ensures e.endpoint == ep && !IsLate(before, e) ==> Decides(before + [e], ep, |before|)
    ensures (e.endpoint != ep || IsLate(before, e)) && Decides(before, ep, k) ==> Decides(before + [e], ep, k)
  {
    var all := before + [e];
    LatestIsMaximum(before, e.endpoint);
    if e.endpoint == ep && !IsLate(before, e) {
      forall j | 0 <= j < |all| && all[j].endpoint == ep ensures all[j].time <= e.time {
        assert j < |before| ==> all[j] in before;
      }
    }
    if e.endpoint == ep && IsLate(before, e) && Decides(before, ep, k) {
      var f :| f in before && f.endpoint == ep && f.time == Latest(before, ep).value;
      assert e.time < f.time <= before[k].time;
    }
  }

  predicate Known(delivered: seq<Event>, ep: Endpoint) {
    exists e :: e in delivered && e.endpoint == ep
  }

  /** Delivery `k` decides, and the store shows it. */
  predicate Shows(delivered: seq<Event>, ep: Endpoint, k: nat) {
    Decides(delivered, ep, k) && StateOf(Deliver(delivered), ep) == Some(SetsRegistered(delivered[k].kind))
  }

  lemma ShowsOneMore(before: seq<Event>, e: Event, ep: Endpoint, k: nat)
    requires Known(before, ep) ==> Shows(before, ep, k)
    ensures e.endpoint == ep && !IsLate(before, e) ==> Shows(before + [e], ep, |before|)
    ensures e.endpoint == ep && IsLate(before, e) ==> Known(before, ep)
    ensures (e.endpoint != ep || IsLate(before, e)) && Known(before, ep) ==> Shows(before + [e], ep, k)
  {
    DeliverOneMore(before, e);
    HistoryIsDelivery(before);
    LatestIsMaximum(before, e.endpoint);
    DecidesOneMore(before, e, ep, k);
  }

  lemma KnownOneMore(before: seq<Event>, e: Event, ep: Endpoint)
    ensures Known(before + [e], ep) <==> Known(before, ep) || e.endpoint == ep
    ensures e.endpoint != ep ==> StateOf(Deliver(before + [e]), ep) == StateOf(Deliver(before), ep)
  {
    var all := before + [e];
    assert forall f :: f in all <==> f in before || f == e;
    DeliverOneMore(before, e);
  }

  /** Whatever the order and the duplicates, the newest event decides the state of its endpoint,
      and endpoints without events are unknown. */
  lemma {:induction false} NewestDecides(delivered: seq<Event>, ep: Endpoint) returns (k: nat)
    ensures if Known(delivered, ep)
            then Decides(delivered, ep, k) && StateOf(Deliver(delivered), ep) == Some(SetsRegistered(delivered[k].kind))
            else StateOf(Deliver(delivered), ep) == None
  {
    k := 0;
    if delivered != [] {
      var n := |delivered| - 1;
      var before, e := delivered[..n], delivered[n];
      assert delivered == before + [e];
      k := NewestDecides(before, ep);
      ShowsOneMore(before, e, ep, k);
      KnownOneMore(before, e, ep);
      if e.endpoint == ep && !IsLate(before, e) {
        k := n;
      }
    }
  }

  /** Tasks are started only for a device that the event leaves registered, by every event that is
      neither late nor an end; so a device that comes online always gets its pending operations. */
  lemma TasksStartExactly(s: Store, e: Event)
    ensures var t := Create(s, e);
            && s.tasks <= t.tasks
            && (t.tasks != s.tasks <==> e.kind != Unregistered && (forall f :: f in s.history && f.endpoint == e.endpoint ==> f.time <= e.time))
            && (RunPass(e.endpoint) in t.tasks[|s.tasks|..] <==> t.tasks != s.tasks)
            && (ReadDevice(e.endpoint) in t.tasks[|s.tasks|..] <==> t.tasks != s.tasks && e.kind == Registered)
            && (t.tasks != s.tasks ==> StateOf(t, e.endpoint) == Some(true))
            && (StateOf(s, e.endpoint) != Some(true) && StateOf(t, e.endpoint) == Some(true) ==> t.tasks != s.tasks)
  {
    LatestIsMaximum(s.history, e.endpoint);
    if !IsLate(s.history, e) {
      assert Create(s, e).tasks[|s.tasks|..] == Started(e);
    }
  }

  // ---- when the order of delivery matters

  predicate IsNewest(events: set<Event>, ep: Endpoint, e: Event) {
    e in events && e.endpoint == ep && forall f :: f in events && f.endpoint == ep ==> f.time <= e.time
  }

  /** All events of `ep` with the greatest time ask for the same state. */
  ghost predicate NewestAgree(events: set<Event>, ep: Endpoint) {
    forall e, f :: IsNewest(events, ep, e) && IsNewest(events, ep, f) ==> SetsRegistered(e.kind) == SetsRegistered(f.kind)
  }

  /** `delivered` brings each event of `events` at least once and nothing else. */
  ghost predicate Brings(delivered: seq<Event>, events: set<Event>) {
    forall e :: e in delivered <==> e in events
  }

  ghost predicate OrderFree(events: set<Event>, ep: Endpoint) {
    forall d: seq<Event>, d': seq<Event> :: Brings(d, events) && Brings(d', events) ==> StateOf(Deliver(d), ep) == StateOf(Deliver(d'), ep)
  }

  lemma DeciderIsNewest(delivered: seq<Event>, events: set<Event>, ep: Endpoint, k: nat)
    requires Brings(delivered, events) && Decides(delivered, ep, k)
    ensures IsNewest(events, ep, delivered[k])
  {
    forall f | f in events && f.endpoint == ep ensures f.time <= delivered[k].time {
      assert f in delivered;
    }
  }

  ghost function Listed(events: set<Event>): (d: seq<Event>)
    ensures Brings(d, events)
  {
    if events == {} then []
    else
      var e :| e in events;
      Listed(events - {e}) + [e]
  }

  /** Delivering a newest event last makes it decide. */
  lemma LastNewestDecides(d: seq<Event>, events: set<Event>, ep: Endpoint, e: Event)
    requires Brings(d, events) && IsNewest(events, ep, e)
    ensures Brings(d + [e], events) && StateOf(Deliver(d + [e]), ep) == Some(SetsRegistered(e.kind))
  {
    assert e in d + [e];
    var k := NewestDecides(d + [e], ep);
    DeciderIsNewest(d + [e], events, ep, k);
    assert (d + [e])[|d|] == e;
  }

  lemma DeliveriesAgree(d: seq<Event>, d': seq<Event>, events: set<Event>, ep: Endpoint)
    requires Brings(d, events) && Brings(d', events) && NewestAgree(events, ep)
    ensures StateOf(Deliver(d), ep) == StateOf(Deliver(d'), ep)
  {
    var k := NewestDecides(d, ep);
    var k' := NewestDecides(d', ep);
    assert forall e :: e in d <==> e in d';
    assert Known(d, ep) <==> Known(d', ep);
    if Known(d, ep) {
      DeciderIsNewest(d, events, ep, k);
      DeciderIsNewest(d', events, ep, k');
    }
  }

  lemma SameEverywhere(d: seq<Event>, d': seq<Event>, events: set<Event>, ep: Endpoint)
    requires OrderFree(events, ep) && Brings(d, events) && Brings(d', events)
    ensures StateOf(Deliver(d), ep) == StateOf(Deliver(d'), ep)
  {
  }

  lemma NewestMustAgree(events: set<Event>, ep: Endpoint, e: Event, f: Event)
    requires OrderFree(events, ep) && IsNewest(events, ep, e) && IsNewest(events, ep, f)
    ensures SetsRegistered(e.kind) == SetsRegistered(f.kind)
  {
    var d := Listed(events);
    LastNewestDecides(d, events, ep, e);
    LastNewestDecides(d, events, ep, f);
    SameEverywhere(d + [e], d + [f], events, ep);
  }

  /** The final state of an endpoint does not depend on order and duplication if and only if all
      its events with the greatest time ask for the same state. */
  lemma OrderFreeExactly(events: set<Event>, ep: Endpoint)
    ensures OrderFree(events, ep) <==> NewestAgree(events, ep)
  {
    if NewestAgree(events, ep) {
      forall d: seq<Event>, d': seq<Event> | Brings(d, events) && Brings(d', events)
        ensures StateOf(Deliver(d), ep) == StateOf(Deliver(d'), ep)
      {
        DeliveriesAgree(d, d', events, ep);
      }
    }
    if OrderFree(events, ep) {
      forall e, f | IsNewest(events, ep, e) && IsNewest(events, ep, f)
        ensures SetsRegistered(e.kind) == SetsRegistered(f.kind)
      {
        NewestMustAgree(events, ep, e, f);
      }
    }
  }

  /** Distinct times leave no tie to break. */
  lemma DistinctTimesAreOrderFree(events: set<Event>, ep: Endpoint)
    requires forall e, f :: e in events && f in events && e.endpoint == f.endpoint == ep && e.time == f.time ==> e == f
    ensures OrderFree(events, ep)
  {
    OrderFreeExactly(events, ep);
  }

  // ---- what the gateway posts

  datatype Callback =
    | OnRegistered(endpoint: Endpoint, registrationDate: int)
    | OnUpdated(endpoint: Endpoint, lastUpdate: int)
    | OnUnregistered(endpoint: Endpoint, replaced: bool, now: int)

  /** The event a registration callback posts, if any. */
  function Forward(c: Callback): Option<Event> {
    match c
    case OnRegistered(ep, date) => Some(Event(ep, Registered, date))
    case OnUpdated(ep, last) => Some(Event(ep, Updated, last))
    case OnUnregistered(ep, replaced, now) => if replaced then None else Some(Event(ep, Unregistered, now))
  }

  /** A new registration is posted with its date, an update with the time of the update, an end with
      the time it is seen, unless the registration was replaced; every event for its own endpoint. */
  lemma ForwardExactly(ep: Endpoint, date: int, last: int, replaced: bool, now: int)
    ensures Forward(OnRegistered(ep, date)) == Some(Event(ep, Registered, date))
    ensures Forward(OnUpdated(ep, last)) == Some(Event(ep, Updated, last))
    ensures Forward(OnUnregistered(ep, replaced, now)) == if replaced then None else Some(Event(ep, Unregistered, now))
  {
  }

  /** An update that is newer than all that was delivered before leaves its device registered. */
  lemma UpdateRegisters(delivered: seq<Event>, ep: Endpoint, last: int)
    requires forall e :: e in delivered && e.endpoint == ep ==> e.time < last
    ensures Forward(OnUpdated(ep, last)).Some?
    ensures StateOf(Deliver(delivered + [Forward(OnUpdated(ep, last)).value]), ep) == Some(true)
  {
    var e := Forward(OnUpdated(ep, last)).value;
    var all := delivered + [e];
    assert all[|delivered|] == e && e in all;
    var k := NewestDecides(all, ep);
    assert forall j :: 0 <= j < |delivered| ==> all[j] == delivered[j];
  }

  /** A reboot replaces the registration. Had the end of the old one been posted too, its time,
      taken after the new registration, would have left the device unregistered. */
  lemma RebootEndsRegistered(ep: Endpoint, date: int, now: int)
    requires date < now
    ensures Forward(OnUnregistered(ep, true, now)) == None
    ensures Forward(OnRegistered(ep, date)).Some? && Forward(OnUnregistered(ep, false, now)).Some?
    ensures var registered := Forward(OnRegistered(ep, date)).value;
            var ended := Forward(OnUnregistered(ep, false, now)).value;
            && StateOf(Deliver([registered]), ep) == Some(true)
            && forall d: seq<Event> :: Brings(d, {registered, ended}) ==> StateOf(Deliver(d), ep) == Some(false)
  {
    var registered, ended := Event(ep, Registered, date), Event(ep, Unregistered, now);
    assert Deliver([registered]) == Create(EMPTY, registered) by { assert [registered][..0] == []; }
    forall d: seq<Event> | Brings(d, {registered, ended}) ensures StateOf(Deliver(d), ep) == Some(false) {
      var k := NewestDecides(d, ep);
      assert registered in d && ended in d;
      DeciderIsNewest(d, {registered, ended}, ep, k);
    }
  }

  // ---- the serializer

  class RegistrationEvents {
    var history: seq<Event>
    var registered: map<Endpoint, bool>
    var tasks: seq<Task>

    function State(): Store
      reads this
    {
      Store(history, registered, tasks)
    }

    constructor ()
      ensures State() == EMPTY
    {
      history, registered, tasks := [], map[], [];
    }

    /** RegistrationEventSerializer.create. The state it leaves is the one of its whole history. */
    method Post(e: Event)
      requires State() == Deliver(history)
      modifies this
      ensures State() == Create(old(State()), e)
      ensures State() == Deliver(history) && history == old(history) + [e]
    {
      DeliverOneMore(history, e);
      HistoryIsDelivery(history + [e]);
      if e.endpoint !in registered {
        registered := registered[e.endpoint := false];
      }
      var isLate := IsLate(history, e);
      history := history + [e];
      if isLate {
        return;
      }
      registered := registered[e.endpoint := e.kind != Unregistered];
      if e.kind == Registered {
        tasks := tasks + [ReadDevice(e.endpoint)];
      }
      if registered[e.endpoint] {
        tasks := tasks + [RunPass(e.endpoint)];
      }
    }
  }
}
