/** How one LwM2M Send becomes resources and at most one event. */
module SendIngest {
  import opened Wrappers

  // ---- the request body

  /** A node of the body. `acceptable` says that the database takes the value, `fotaRejects` that
      the firmware handler, which runs after the row is stored, ends in a validation error. */
  datatype Node = Node(path: string, multi: bool, objectId: int, resourceId: int, typ: string,
                       acceptable: bool, fotaRejects: bool)

  /** The nodes under one timestamp key. */
  datatype Group = Group(timestamp: Option<string>, nodes: seq<Node>)

  /** One entry of `val`: its timestamp keys in order. */
  type Item = seq<Group>

  // ---- the database

  datatype Stored = Stored(endpoint: string, node: Node, timestamp: Option<string>)

  datatype Event = Event(endpoint: string, eventType: int)

  /** `current` is the event of the request, `links` joins event numbers with resource numbers. */
  datatype Db = Db(events: seq<Event>, resources: seq<Stored>, links: set<(nat, nat)>,
                   current: Option<nat>, raised: bool)

  type Types = map<(int, int), string>

  /** The column that holds a value of this data type. */
  function ValueField(dataType: string): Option<string> {
    match dataType
    case "TIME" => Some("int_value")
    case "STRING" => Some("str_value")
    case "INTEGER" => Some("int_value")
    case "FLOAT" => Some("float_value")
    case "BOOLEAN" => Some("int_value")
    case "OPAQUE" => Some("binary_value")
    case _ => None
  }

  predicate Skipped(types: Types, n: Node) {
    n.multi || (n.objectId, n.resourceId) !in types
  }

  /** The node's type has a column, and it is the one of the resource type. */
  predicate Fits(types: Types, n: Node) {
    && (n.objectId, n.resourceId) in types
    && ValueField(n.typ).Some?
    && ValueField(n.typ) == ValueField(types[(n.objectId, n.resourceId)])
    && n.acceptable
  }

  predicate IsFirmwareNode(n: Node) {
    (n.objectId == 3 && n.resourceId == 3) || n.objectId == 5
  }

  /** handle_resource. */
  function Handle(db: Db, ep: string, types: Types, n: Node, ts: Option<string>): Db {
    if Skipped(types, n) then db
    else if !Fits(types, n) then db.(raised := true)
    else
      db.(resources := db.resources + [Stored(ep, n, ts)],
          links := if db.current.Some? then db.links + {(db.current.value, |db.resources|)} else db.links,
          raised := IsFirmwareNode(n) && n.fotaRejects)
  }

  /** A node with its timestamp; `wide` is the test that asks for an event. */
  datatype Slot = Slot(timestamp: Option<string>, node: Node, wide: bool)

  function WithEvent(db: Db, ep: string, s: Slot): Db {
    if s.wide && db.current.None?
    then db.(events := db.events + [Event(ep, s.node.objectId)], current := Some(|db.events|))
    else db
  }

  function IngestOne(db: Db, ep: string, types: Types, s: Slot): Db {
    if db.raised then db else Handle(WithEvent(db, ep, s), ep, types, s.node, s.timestamp)
  }

  /** The slots in order; nothing happens after the first error. */
  function IngestAll(db: Db, ep: string, types: Types, slots: seq<Slot>): Db {
    if slots == [] then db
    else IngestOne(IngestAll(db, ep, types, slots[..|slots| - 1]), ep, types, slots[|slots| - 1])
  }

  // ---- from the body to the slots

  function GroupSlots(g: Group, several: bool): seq<Slot> {
    seq(|g.nodes|, i requires 0 <= i < |g.nodes| => Slot(g.timestamp, g.nodes[i], |g.nodes| > 1 || several))
  }

  function ItemSlots(item: Item, several: bool): seq<Slot> {
    if item == [] then [] else ItemSlots(item[..|item| - 1], several) + GroupSlots(item[|item| - 1], several)
  }

  function Slots(val: seq<Item>, several: bool): seq<Slot> {
    if val == [] then [] else Slots(val[..|val| - 1], several) + ItemSlots(val[|val| - 1], several)
  }

  lemma {:induction false} IngestConcat(db: Db, ep: string, types: Types, a: seq<Slot>, b: seq<Slot>)
    ensures IngestAll(db, ep, types, a + b) == IngestAll(IngestAll(db, ep, types, a), ep, types, b)
  {
    if b == [] {
      assert a + b == a;
    } else {
      IngestConcat(db, ep, types, a, b[..|b| - 1]);
      assert (a + b)[..|a + b| - 1] == a + b[..|b| - 1];
    }
  }

  lemma ItemSlotsOneMore(item: Item, several: bool, j: nat)
    requires j < |item|
    ensures ItemSlots(item[..j + 1], several) == ItemSlots(item[..j], several) + GroupSlots(item[j], several)
  {
    assert item[..j + 1][..j] == item[..j];
  }

  lemma SlotsOneMore(val: seq<Item>, several: bool, i: nat)
    requires i < |val|
    ensures Slots(val[..i + 1], several) == Slots(val[..i], several) + ItemSlots(val[i], several)
  {
    assert val[..i + 1][..i] == val[..i];
  }

  // ---- the serializer

  class TimestampedResources {
    var events: seq<Event>
    var resources: seq<Stored>
    var links: set<(nat, nat)>
    var event: Option<nat>
    var raised: bool

    function State(): Db
      reads this
    {
      Db(events, resources, links, event, raised)
    }

    constructor (events: seq<Event>, resources: seq<Stored>, links: set<(nat, nat)>)
      ensures State() == Db(events, resources, links, None, false)
    {
      this.events, this.resources, this.links := events, resources, links;
      event, raised := None, false;
    }

    method HandleResource(ep: string, types: Types, n: Node, ts: Option<string>)
      requires !raised
      modifies this
      ensures State() == Handle(old(State()), ep, types, n, ts)
    {
      if n.multi || (n.objectId, n.resourceId) !in types {
        return;
      }
      var dataType, expected := ValueField(n.typ), ValueField(types[(n.objectId, n.resourceId)]);
      if dataType.None? || dataType != expected || !n.acceptable {
        raised := true;
        return;
      }
      resources := resources + [Stored(ep, n, ts)];
      if event.Some? {
        links := links + {(event.value, |resources| - 1)};
      }
      if IsFirmwareNode(n) {
        raised := n.fotaRejects;
      }
    }

    /** The nodes under one timestamp. */
    method CreateGroup(ep: string, types: Types, g: Group, several: bool, eventCreated: bool) returns (created: bool)
      requires !raised && eventCreated == event.Some?
      modifies this
      ensures State() == IngestAll(old(State()), ep, types, GroupSlots(g, several))
      ensures created == event.Some?
    {
      ghost var db, slots := State(), GroupSlots(g, several);
      created := eventCreated;
      var i := 0;
      while i < |g.nodes| && !raised
        invariant 0 <= i <= |g.nodes| && created == event.Some?
        invariant State() == IngestAll(db, ep, types, slots[..i])
      {
        if |g.nodes| > 1 || several {
          if !created {
            event := Some(|events|);
            events := events + [Event(ep, g.nodes[i].objectId)];
            created := true;
          }
        }
        HandleResource(ep, types, g.nodes[i], g.timestamp);
        assert slots[..i + 1][..i] == slots[..i];
        i := i + 1;
      }
      RaisedStops(db, ep, types, slots, i);
    }

    /** The timestamps of one entry. */
    method CreateItem(ep: string, types: Types, item: Item, several: bool, eventCreated: bool) returns (created: bool)
      requires !raised && eventCreated == event.Some?
      modifies this
      ensures State() == IngestAll(old(State()), ep, types, ItemSlots(item, several))
      ensures created == event.Some?
    {
      ghost var db := State();
      created := eventCreated;
      var j := 0;
      while j < |item| && !raised
        invariant 0 <= j <= |item| && created == event.Some?
        invariant State() == IngestAll(db, ep, types, ItemSlots(item[..j], several))
      {
        IngestConcat(db, ep, types, ItemSlots(item[..j], several), GroupSlots(item[j], several));
        ItemSlotsOneMore(item, several, j);
        created := CreateGroup(ep, types, item[j], several, created);
        j := j + 1;
      }
      ItemStops(db, ep, types, item, several, j);
    }

    /** TimestampedResourceSerializer.create. */
    method Create(ep: string, types: Types, val: seq<Item>)
      requires !raised && event == None
      modifies this
      ensures State() == IngestAll(old(State()), ep, types, Slots(val, |val| > 1))
      ensures var slots := Slots(val, |val| > 1);
              var q, k := EndOf(types, slots), AskOf(slots);
              && resources == old(resources) + RowsOf(ep, types, Handled(slots, q))
              && events == old(events) + (if k < |slots| && k <= q then [Event(ep, slots[k].node.objectId)] else [])
              && (raised <==> q < |slots|)
    {
      ghost var db := State();
      var eventCreated, i := false, 0;
      while i < |val| && !raised
        invariant 0 <= i <= |val| && eventCreated == event.Some?
        invariant State() == IngestAll(db, ep, types, Slots(val[..i], |val| > 1))
      {
        IngestConcat(db, ep, types, Slots(val[..i], |val| > 1), ItemSlots(val[i], |val| > 1));
        SlotsOneMore(val, |val| > 1, i);
        eventCreated := CreateItem(ep, types, val[i], |val| > 1, eventCreated);
        i := i + 1;
      }
      ValStops(db, ep, types, val, |val| > 1, i);
      var slots := Slots(val, |val| > 1);
      RowsExactly(db, ep, types, slots, EndOf(types, slots));
      EventOfFirstAsking(db, ep, types, slots, EndOf(types, slots), AskOf(slots));
    }
  }

  // ---- an error ends the request

  lemma {:induction false} RaisedStays(db: Db, ep: string, types: Types, slots: seq<Slot>)
    requires db.raised
    ensures IngestAll(db, ep, types, slots) == db
  {
    if slots != [] {
      RaisedStays(db, ep, types, slots[..|slots| - 1]);
    }
  }

  lemma RaisedStops(db: Db, ep: string, types: Types, slots: seq<Slot>, i: nat)
    requires i <= |slots| && (i == |slots| || IngestAll(db, ep, types, slots[..i]).raised)
    ensures IngestAll(db, ep, types, slots[..i]) == IngestAll(db, ep, types, slots)
  {
    assert slots == slots[..i] + slots[i..];
    IngestConcat(db, ep, types, slots[..i], slots[i..]);
    if i < |slots| {
      RaisedStays(IngestAll(db, ep, types, slots[..i]), ep, types, slots[i..]);
    }
  }

  lemma {:induction false} ItemSlotsPrefix(item: Item, several: bool, j: nat)
    requires j <= |item|
    ensures ItemSlots(item[..j], several) <= ItemSlots(item, several)
  {
    if j < |item| {
      ItemSlotsPrefix(item[..|item| - 1], several, j);
      assert item[..|item| - 1][..j] == item[..j];
    } else {
      assert item[..j] == item;
    }
  }

  lemma ItemStops(db: Db, ep: string, types: Types, item: Item, several: bool, j: nat)
    requires j <= |item| && (j == |item| || IngestAll(db, ep, types, ItemSlots(item[..j], several)).raised)
    ensures IngestAll(db, ep, types, ItemSlots(item[..j], several)) == IngestAll(db, ep, types, ItemSlots(item, several))
  {
    ItemSlotsPrefix(item, several, j);
    var done, all := ItemSlots(item[..j], several), ItemSlots(item, several);
    assert all[..|done|] == done;
    if j == |item| {
      assert item[..j] == item;
    }
    RaisedStops(db, ep, types, all, |done|);
  }

  lemma {:induction false} SlotsPrefix(val: seq<Item>, several: bool, i: nat)
    requires i <= |val|
    ensures Slots(val[..i], several) <= Slots(val, several)
  {
    if i < |val| {
      SlotsPrefix(val[..|val| - 1], several, i);
      assert val[..|val| - 1][..i] == val[..i];
    } else {
      assert val[..i] == val;
    }
  }

  lemma ValStops(db: Db, ep: string, types: Types, val: seq<Item>, several: bool, i: nat)
    requires i <= |val| && (i == |val| || IngestAll(db, ep, types, Slots(val[..i], several)).raised)
    ensures IngestAll(db, ep, types, Slots(val[..i], several)) == IngestAll(db, ep, types, Slots(val, several))
  {
    SlotsPrefix(val, several, i);
    var done, all := Slots(val[..i], several), Slots(val, several);
    assert all[..|done|] == done;
    if i == |val| {
      assert val[..i] == val;
    }
    RaisedStops(db, ep, types, all, |done|);
  }

  // ---- what the rows hold

  /** Both data types are kept in the same column. */
  predicate SameColumn(a: string, b: string) {
    || (a in {"TIME", "INTEGER", "BOOLEAN"} && b in {"TIME", "INTEGER", "BOOLEAN"})
    || (a in {"STRING", "FLOAT", "OPAQUE"} && a == b)
  }

  /** The handler passes over the node. */
  predicate Ignored(types: Types, n: Node) {
    n.multi || (n.objectId, n.resourceId) !in types
  }

  predicate Stores(types: Types, n: Node) {
    !Ignored(types, n) && SameColumn(n.typ, types[(n.objectId, n.resourceId)]) && n.acceptable
  }

  /** The node ends the request: its value does not fit, or it is stored, and the firmware handler,
      which takes the version 3/0/3 and all of object 5, refuses it. */
  predicate EndsRequest(types: Types, n: Node) {
    && !Ignored(types, n)
    && (Stores(types, n) ==> n.fotaRejects && (n.objectId == 5 || (n.objectId == 3 && n.resourceId == 3)))
  }

  /** The rows of these slots, in order: endpoint, node, and the timestamp of the node's own group. */
  function RowsOf(ep: string, types: Types, slots: seq<Slot>): seq<Stored> {
    if slots == [] then []
    else
      var last := slots[|slots| - 1];
      RowsOf(ep, types, slots[..|slots| - 1]) +
      if Stores(types, last.node) then [Stored(ep, last.node, last.timestamp)] else []
  }

  /** Slot `q` is the first that ends the request; if none does, `q` is their number. */
  predicate FirstEnd(types: Types, slots: seq<Slot>, q: nat) {
    && q <= |slots|
    && (forall i :: 0 <= i < q ==> !EndsRequest(types, slots[i].node))
    && (q < |slots| ==> EndsRequest(types, slots[q].node))
  }

  function EndOf(types: Types, slots: seq<Slot>): (q: nat)
    ensures FirstEnd(types, slots, q)
  {
    if slots == [] then 0
    else
      var n := |slots| - 1;
      var q := EndOf(types, slots[..n]);
      assert forall i :: 0 <= i < n ==> slots[..n][i] == slots[i];
      if q < n || EndsRequest(types, slots[n].node) then q else n + 1
  }

  /** Slot `k` is the first that asks for an event; if none does, `k` is their number. */
  predicate FirstAsk(slots: seq<Slot>, k: nat) {
    && k <= |slots|
    && (forall i :: 0 <= i < k ==> !slots[i].wide)
    && (k < |slots| ==> slots[k].wide)
  }

  function AskOf(slots: seq<Slot>): (k: nat)
    ensures FirstAsk(slots, k)
  {
    if slots == [] then 0
    else
      var n := |slots| - 1;
      var k := AskOf(slots[..n]);
      assert forall i :: 0 <= i < n ==> slots[..n][i] == slots[i];
      if k < n || slots[n].wide then k else n + 1
  }

  /** The slots that are reached. */
  function Handled(slots: seq<Slot>, q: nat): seq<Slot>
    requires q <= |slots|
  {
    slots[..if q < |slots| then q + 1 else q]
  }

  lemma HandleExactly(db: Db, ep: string, types: Types, n: Node, ts: Option<string>)
    ensures var db' := Handle(db, ep, types, n, ts);
            && db'.events == db.events && db'.current == db.current
            && db'.resources == db.resources + (if Stores(types, n) then [Stored(ep, n, ts)] else [])
            && (!db.raised ==> (db'.raised <==> EndsRequest(types, n)))
            && db'.links == db.links + (if Stores(types, n) && db.current.Some? then {(db.current.value, |db.resources|)} else {})
  {
  }

  /** Rows and outcome of any list of nodes, the first `q` of which do not end the request: one row
      for each of them that fits, and one more for the node that ends the request if it fits. */
  lemma {:induction false} RowsExactly(db: Db, ep: string, types: Types, slots: seq<Slot>, q: nat)
    requires !db.raised && FirstEnd(types, slots, q)
    ensures var db' := IngestAll(db, ep, types, slots);
            && (db'.raised <==> q < |slots|)
            && db'.resources == db.resources + RowsOf(ep, types, Handled(slots, q))
  {
    if slots != [] {
      var n := |slots| - 1;
      var before := slots[..n];
      var mid := IngestAll(db, ep, types, before);
      assert forall i :: 0 <= i < n ==> before[i] == slots[i];
      if q < n {
        RowsExactly(db, ep, types, before, q);
        assert before[..q + 1] == slots[..q + 1];
      } else {
        RowsExactly(db, ep, types, before, n);
        assert before[..n] == before;
        assert slots[..n + 1] == slots;
        HandleExactly(WithEvent(mid, ep, slots[n]), ep, types, slots[n].node, slots[n].timestamp);
      }
    }
  }

  /** The event of any list of nodes: none unless a node asks before or at the end of the request;
      else one, of the request's endpoint and the object of the first node that asks. */
  lemma {:induction false} EventOfFirstAsking(db: Db, ep: string, types: Types, slots: seq<Slot>, q: nat, k: nat)
    requires !db.raised && db.current.None? && FirstEnd(types, slots, q) && FirstAsk(slots, k)
    ensures IngestAll(db, ep, types, slots).events ==
            db.events + if k < |slots| && k <= q then [Event(ep, slots[k].node.objectId)] else []
    ensures IngestAll(db, ep, types, slots).current.Some? <==> k < |slots| && k <= q
  {
    if slots != [] {
      var n := |slots| - 1;
      var before := slots[..n];
      assert forall i :: 0 <= i < n ==> before[i] == slots[i];
      var q', k' := if q < n then q else n, if k < n then k else n;
      EventOfFirstAsking(db, ep, types, before, q', k');
      RowsExactly(db, ep, types, before, q');
      var mid := IngestAll(db, ep, types, before);
      HandleExactly(WithEvent(mid, ep, slots[n]), ep, types, slots[n].node, slots[n].timestamp);
    }
  }

  // ---- the order of the nodes

  function NodesIn(item: Item): nat {
    if item == [] then 0 else NodesIn(item[..|item| - 1]) + |item[|item| - 1].nodes|
  }

  function NodesOf(val: seq<Item>): nat {
    if val == [] then 0 else NodesOf(val[..|val| - 1]) + NodesIn(val[|val| - 1])
  }

  lemma {:induction false} ItemSlotsLength(item: Item, several: bool)
    ensures |ItemSlots(item, several)| == NodesIn(item)
  {
    if item != [] {
      ItemSlotsLength(item[..|item| - 1], several);
    }
  }

  lemma {:induction false} SlotsLength(val: seq<Item>, several: bool)
    ensures |Slots(val, several)| == NodesOf(val)
  {
    if val != [] {
      SlotsLength(val[..|val| - 1], several);
      ItemSlotsLength(val[|val| - 1], several);
    }
  }

  lemma ItemSlotAt(item: Item, several: bool, j: nat, n: nat)
    requires j < |item| && n < |item[j].nodes|
    ensures NodesIn(item[..j]) + n < NodesIn(item) == |ItemSlots(item, several)|
    ensures ItemSlots(item, several)[NodesIn(item[..j]) + n] ==
            Slot(item[j].timestamp, item[j].nodes[n], |item[j].nodes| > 1 || several)
  {
    var before, own := ItemSlots(item[..j], several), GroupSlots(item[j], several);
    ItemSlotsPrefix(item, several, j + 1);
    ItemSlotsOneMore(item, several, j);
    ItemSlotsLength(item, several);
    ItemSlotsLength(item[..j], several);
    assert (before + own)[|before| + n] == own[n];
  }

  /** Every node of the body is handled in the order of the body: entries, their timestamps, and the
      nodes of each; with its own timestamp, and with the test for an event made on its own group. */
  lemma SlotAt(val: seq<Item>, several: bool, i: nat, j: nat, n: nat)
    requires i < |val| && j < |val[i]| && n < |val[i][j].nodes|
    ensures var p := NodesOf(val[..i]) + NodesIn(val[i][..j]) + n;
            && p < NodesOf(val) == |Slots(val, several)|
            && Slots(val, several)[p] == Slot(val[i][j].timestamp, val[i][j].nodes[n], |val[i][j].nodes| > 1 || several)
  {
    var before, own := Slots(val[..i], several), ItemSlots(val[i], several);
    SlotsPrefix(val, several, i + 1);
    SlotsOneMore(val, several, i);
    SlotsLength(val, several);
    SlotsLength(val[..i], several);
    ItemSlotAt(val[i], several, j, n);
    assert (before + own)[|before| + (NodesIn(val[i][..j]) + n)] == own[NodesIn(val[i][..j]) + n];
  }

  // ---- what a request leaves behind

  /** One event was added, and exactly the resources stored since then are linked to it. */
  ghost predicate OneEvent(db: Db, db': Db) {
    && |db'.events| == |db.events| + 1 && db.events <= db'.events
    && forall e, r :: (e, r) in db'.links <==>
         (e, r) in db.links || (e == |db.events| && |db.resources| <= r < |db'.resources|)
  }

  ghost predicate NoEvent(db: Db, db': Db) {
    db'.events == db.events && db'.links == db.links
  }

  /** When the first slot asks for an event it creates it, and every resource stored from the
      request is linked to it, also when an error ends the request early. */
  lemma {:induction false} WideSlotsShareOneEvent(db: Db, ep: string, types: Types, slots: seq<Slot>)
    requires !db.raised && db.current.None? && slots != [] && slots[0].wide
    ensures var db' := IngestAll(db, ep, types, slots);
            OneEvent(db, db') && db'.current == Some(|db.events|) && db.resources <= db'.resources
    decreases |slots|
  {
    var n := |slots| - 1;
    if n > 0 {
      WideSlotsShareOneEvent(db, ep, types, slots[..n]);
    } else {
      assert slots[..n] == [];
    }
  }

  lemma {:induction false} NarrowSlotsMakeNoEvent(db: Db, ep: string, types: Types, slots: seq<Slot>)
    requires db.current.None?
    requires forall i :: 0 <= i < |slots| ==> !slots[i].wide
    ensures NoEvent(db, IngestAll(db, ep, types, slots)) && IngestAll(db, ep, types, slots).current.None?
    ensures db.resources <= IngestAll(db, ep, types, slots).resources
    decreases |slots|
  {
    if slots != [] {
      NarrowSlotsMakeNoEvent(db, ep, types, slots[..|slots| - 1]);
    }
  }

  /** For any body, slot `k` being the first to ask for an event: what was stored before it has
      none, what is stored after it shares one. So the resources of a request are linked all
      together or not at all if and only if no slot asks, or none is reached, or nothing was stored
      before the first that asks. */
  lemma LinkedTogetherExactly(db: Db, ep: string, types: Types, slots: seq<Slot>, k: nat)
    requires !db.raised && db.current.None? && k <= |slots|
    requires forall e, r :: (e, r) in db.links ==> e < |db.events|
    requires forall i :: 0 <= i < k ==> !slots[i].wide
    requires k < |slots| ==> slots[k].wide
    ensures var mid, db' := IngestAll(db, ep, types, slots[..k]), IngestAll(db, ep, types, slots);
            OneEvent(db, db') || NoEvent(db, db') <==> k == |slots| || mid.raised || mid.resources == db.resources
  {
    var mid, db' := IngestAll(db, ep, types, slots[..k]), IngestAll(db, ep, types, slots);
    NarrowSlotsMakeNoEvent(db, ep, types, slots[..k]);
    assert slots == slots[..k] + slots[k..];
    if k == |slots| || mid.raised {
      RaisedStops(db, ep, types, slots, k);
    } else {
      IngestConcat(db, ep, types, slots[..k], slots[k..]);
      WideSlotsShareOneEvent(mid, ep, types, slots[k..]);
      if mid.resources != db.resources {
        assert (|db.events|, |db.resources|) !in db'.links;
      }
    }
  }

  lemma NoErrorBefore(db: Db, ep: string, types: Types, slots: seq<Slot>, k: nat)
    requires k <= |slots| && !IngestAll(db, ep, types, slots).raised
    ensures !IngestAll(db, ep, types, slots[..k]).raised
  {
    if IngestAll(db, ep, types, slots[..k]).raised {
      RaisedStops(db, ep, types, slots, k);
    }
  }

  /** Without an error, nothing is stored exactly when every node is skipped. */
  lemma {:induction false} StoresUnlessSkipped(db: Db, ep: string, types: Types, slots: seq<Slot>)
    requires !IngestAll(db, ep, types, slots).raised
    ensures db.resources <= IngestAll(db, ep, types, slots).resources
    ensures IngestAll(db, ep, types, slots).resources == db.resources <==>
            forall i :: 0 <= i < |slots| ==> Skipped(types, slots[i].node)
  {
    if slots != [] {
      var n := |slots| - 1;
      NoErrorBefore(db, ep, types, slots, n);
      StoresUnlessSkipped(db, ep, types, slots[..n]);
      assert forall i :: 0 <= i < n ==> slots[..n][i] == slots[i];
    }
  }

  /** The same in terms of the body: a request that ends without an error links its resources all
      together or not at all if and only if no slot asks for an event, or every node before the
      first that asks is one the handler skips. */
  lemma LinkedTogetherUnlessStored(db: Db, ep: string, types: Types, slots: seq<Slot>, k: nat)
    requires !db.raised && db.current.None? && k <= |slots|
    requires forall e, r :: (e, r) in db.links ==> e < |db.events|
    requires forall i :: 0 <= i < k ==> !slots[i].wide
    requires k < |slots| ==> slots[k].wide
    requires !IngestAll(db, ep, types, slots).raised
    ensures var db' := IngestAll(db, ep, types, slots);
            OneEvent(db, db') || NoEvent(db, db') <==>
            k == |slots| || forall i :: 0 <= i < k ==> Skipped(types, slots[i].node)
  {
    NoErrorBefore(db, ep, types, slots, k);
    StoresUnlessSkipped(db, ep, types, slots[..k]);
    LinkedTogetherExactly(db, ep, types, slots, k);
    assert forall i :: 0 <= i < k ==> slots[..k][i] == slots[i];
  }

  // ---- when there is an event

  /** Slot `k` asks for an event, and no error came before it. */
  ghost predicate AsksAt(db: Db, ep: string, types: Types, slots: seq<Slot>, k: nat) {
    k < |slots| && slots[k].wide && !IngestAll(db, ep, types, slots[..k]).raised
  }

  lemma AsksOneMore(db: Db, ep: string, types: Types, slots: seq<Slot>, n: nat)
    requires |slots| == n + 1
    ensures (exists k: nat :: AsksAt(db, ep, types, slots, k)) <==>
            (exists k: nat :: AsksAt(db, ep, types, slots[..n], k)) || AsksAt(db, ep, types, slots, n)
  {
    forall k: nat | k < n ensures AsksAt(db, ep, types, slots, k) <==> AsksAt(db, ep, types, slots[..n], k) {
      assert slots[..n][..k] == slots[..k];
    }
    if k: nat :| AsksAt(db, ep, types, slots[..n], k) {
      assert AsksAt(db, ep, types, slots, k);
    }
    if k: nat :| AsksAt(db, ep, types, slots, k) && k != n {
      assert AsksAt(db, ep, types, slots[..n], k);
    }
  }

  /** Any list of nodes gets exactly one event if a node that asks is reached, and else none. */
  lemma {:induction false} EventIffAsked(db: Db, ep: string, types: Types, slots: seq<Slot>)
    requires !db.raised && db.current.None?
    ensures var db' := IngestAll(db, ep, types, slots);
            if exists k: nat :: AsksAt(db, ep, types, slots, k)
            then |db'.events| == |db.events| + 1 && db.events <= db'.events && db'.current == Some(|db.events|)
            else db'.events == db.events && db'.current.None?
  {
    if slots != [] {
      var n := |slots| - 1;
      EventIffAsked(db, ep, types, slots[..n]);
      AsksOneMore(db, ep, types, slots, n);
    }
  }

  /** The test of the innermost loop, for the nodes of one timestamp. */
  predicate GroupAsks(g: Group, several: bool) {
    |g.nodes| > 1 || (several && g.nodes != [])
  }

  predicate ItemAsks(item: Item, several: bool) {
    exists g :: g in item && GroupAsks(g, several)
  }

  /** Some timestamp holds more than one node, or there are several entries and some node. */
  predicate BodyAsks(val: seq<Item>) {
    exists item :: item in val && ItemAsks(item, |val| > 1)
  }

  predicate AnyWide(slots: seq<Slot>) {
    exists s :: s in slots && s.wide
  }

  lemma AnyWideConcat(a: seq<Slot>, b: seq<Slot>)
    ensures AnyWide(a + b) <==> AnyWide(a) || AnyWide(b)
  {
    if s :| s in a && s.wide { assert s in a + b; }
    if s :| s in b && s.wide { assert s in a + b; }
  }

  lemma GroupAsksWide(g: Group, several: bool)
    ensures AnyWide(GroupSlots(g, several)) <==> GroupAsks(g, several)
  {
    if GroupAsks(g, several) {
      assert GroupSlots(g, several)[0].wide;
    }
  }

  lemma {:induction false} ItemAsksWide(item: Item, several: bool)
    ensures AnyWide(ItemSlots(item, several)) <==> ItemAsks(item, several)
  {
    if item != [] {
      var rest, g := item[..|item| - 1], item[|item| - 1];
      ItemAsksWide(rest, several);
      GroupAsksWide(g, several);
      AnyWideConcat(ItemSlots(rest, several), GroupSlots(g, several));
      assert item == rest + [g];
      assert forall h :: h in item <==> h in rest || h == g;
    }
  }

  lemma {:induction false} SlotsWide(val: seq<Item>, several: bool)
    ensures AnyWide(Slots(val, several)) <==> exists item :: item in val && ItemAsks(item, several)
  {
    if val != [] {
      var rest, item := val[..|val| - 1], val[|val| - 1];
      SlotsWide(rest, several);
      ItemAsksWide(item, several);
      AnyWideConcat(Slots(rest, several), ItemSlots(item, several));
      assert val == rest + [item];
      assert forall i :: i in val <==> i in rest || i == item;
    }
  }

  lemma AskedUnlessError(db: Db, ep: string, types: Types, slots: seq<Slot>)
    requires !IngestAll(db, ep, types, slots).raised
    ensures (exists k: nat :: AsksAt(db, ep, types, slots, k)) <==> AnyWide(slots)
  {
    if k: nat :| AsksAt(db, ep, types, slots, k) {
      assert slots[k] in slots;
    }
    if s :| s in slots && s.wide {
      var k :| 0 <= k < |slots| && slots[k] == s;
      NoErrorBefore(db, ep, types, slots, k);
      assert AsksAt(db, ep, types, slots, k);
    }
  }

  /** Any body that is ingested without an error creates exactly one event if some timestamp holds
      more than one node, or if there are several entries and some node; and none otherwise. */
  lemma EventExactly(db: Db, ep: string, types: Types, val: seq<Item>)
    requires !db.raised && db.current.None?
    requires !IngestAll(db, ep, types, Slots(val, |val| > 1)).raised
    ensures |IngestAll(db, ep, types, Slots(val, |val| > 1)).events| == |db.events| + if BodyAsks(val) then 1 else 0
  {
    EventIffAsked(db, ep, types, Slots(val, |val| > 1));
    AskedUnlessError(db, ep, types, Slots(val, |val| > 1));
    SlotsWide(val, |val| > 1);
  }

  // ---- the shape the gateway sends

  /** A Send: its timestamps, and the nodes at each; a timestamp may have none. */
  datatype Send = Send(timestamps: seq<Option<string>>, nodes: map<Option<string>, seq<Node>>)

  function NodesAt(s: Send, ts: Option<string>): seq<Node> {
    if ts in s.nodes then s.nodes[ts] else []
  }

  /** IngestForwarder.dataReceived: one entry with one key for each timestamp. */
  method DataReceived(s: Send) returns (val: seq<Item>)
    ensures |val| == |s.timestamps|
    ensures forall i :: 0 <= i < |val| ==> val[i] == [Group(s.timestamps[i], NodesAt(s, s.timestamps[i]))]
  {
    val := [];
    for i := 0 to |s.timestamps|
      invariant |val| == i
      invariant forall j :: 0 <= j < i ==> val[j] == [Group(s.timestamps[j], NodesAt(s, s.timestamps[j]))]
    {
      var nodes: seq<Node> := [];
      if s.timestamps[i] in s.nodes {
        var there := s.nodes[s.timestamps[i]];
        for n := 0 to |there|
          invariant nodes == there[..n]
        {
          nodes := nodes + [there[n]];
        }
        assert there[..|there|] == there;
      }
      val := val + [[Group(s.timestamps[i], nodes)]];
    }
  }

  /** One timestamp key in every entry. */
  predicate GatewayShape(val: seq<Item>) {
    forall i :: 0 <= i < |val| ==> |val[i]| == 1
  }

  function PathsOf(nodes: seq<Node>): set<string> {
    set i | 0 <= i < |nodes| :: nodes[i].path
  }

  predicate PathsDistinct(nodes: seq<Node>) {
    forall i, j :: 0 <= i < j < |nodes| ==> nodes[i].path != nodes[j].path
  }

  lemma {:induction false} DistinctPathsCount(nodes: seq<Node>)
    requires PathsDistinct(nodes)
    ensures |PathsOf(nodes)| == |nodes|
  {
    if nodes != [] {
      var n := |nodes| - 1;
      DistinctPathsCount(nodes[..n]);
      assert PathsOf(nodes) == PathsOf(nodes[..n]) + {nodes[n].path};
    }
  }

  /** The paths of a whole body. */
  function AllPaths(val: seq<Item>): set<string> {
    set i, j, n | 0 <= i < |val| && 0 <= j < |val[i]| && 0 <= n < |val[i][j].nodes| :: val[i][j].nodes[n].path
  }

  lemma {:induction false} ShapedSlots(val: seq<Item>, several: bool, wide: bool)
    requires GatewayShape(val)
    requires forall i :: 0 <= i < |val| ==> val[i][0].nodes == [] || (|val[i][0].nodes| > 1 || several) == wide
    ensures forall s :: s in Slots(val, several) ==> s.wide == wide
    ensures Slots(val, several) == [] <==> forall i :: 0 <= i < |val| ==> val[i][0].nodes == []
  {
    if val != [] {
      var n := |val| - 1;
      ShapedSlots(val[..n], several, wide);
      var item := val[n];
      assert item[..0] == [];
      assert ItemSlots(item, several) == GroupSlots(item[0], several);
      assert Slots(val, several) == Slots(val[..n], several) + GroupSlots(item[0], several);
      if Slots(val, several) == [] {
        assert GroupSlots(item[0], several) == [];
        forall i | 0 <= i < |val| ensures val[i][0].nodes == [] {
          assert i < n ==> val[..n][i] == val[i];
        }
      }
    }
  }

  /** A Send in the gateway's shape with at least one node creates exactly one event if it has more
      than one path or more than one timestamp, and none otherwise; if there is an event, exactly
      the resources stored from this Send are linked to it. */
  lemma SendMakesOneEvent(db: Db, ep: string, types: Types, val: seq<Item>)
    requires !db.raised && db.current.None? && GatewayShape(val)
    requires exists i :: 0 <= i < |val| && val[i][0].nodes != []
    requires forall i :: 0 <= i < |val| ==> PathsDistinct(val[i][0].nodes)
    ensures var db' := IngestAll(db, ep, types, Slots(val, |val| > 1));
            && db.resources <= db'.resources
            && if |AllPaths(val)| > 1 || |val| > 1 then OneEvent(db, db') else NoEvent(db, db')
  {
    var slots, several := Slots(val, |val| > 1), |val| > 1;
    if !several {
      assert AllPaths(val) == PathsOf(val[0][0].nodes);
      DistinctPathsCount(val[0][0].nodes);
    }
    var wide := |AllPaths(val)| > 1 || several;
    ShapedSlots(val, several, wide);
    if wide {
      WideSlotsShareOneEvent(db, ep, types, slots);
    } else {
      NarrowSlotsMakeNoEvent(db, ep, types, slots);
    }
  }

  // ---- when the documented rule holds

  function AllTimestamps(val: seq<Item>): set<Option<string>> {
    set i, j | 0 <= i < |val| && 0 <= j < |val[i]| :: val[i][j].timestamp
  }

  /** What the documentation promises an event for. */
  predicate Documented(val: seq<Item>) {
    |AllPaths(val)| > 1 || |AllTimestamps(val)| > 1
  }

  /** The keys of each JSON object of the body are distinct. */
  predicate KeysDistinct(val: seq<Item>) {
    forall i, j :: 0 <= i < |val| && 0 <= j < |val[i]| ==>
      && PathsDistinct(val[i][j].nodes)
      && forall k :: 0 <= k < j ==> val[i][k].timestamp != val[i][j].timestamp
  }

  predicate HasNode(val: seq<Item>) {
    exists i, j :: 0 <= i < |val| && 0 <= j < |val[i]| && val[i][j].nodes != []
  }

  /** All timestamps of the body are the same, and so are all paths. */
  predicate Alike(val: seq<Item>) {
    && (forall t, u :: t in AllTimestamps(val) && u in AllTimestamps(val) ==> t == u)
    && (forall p, q :: p in AllPaths(val) && q in AllPaths(val) ==> p == q)
  }

  lemma OneOrNone<T>(s: set<T>)
    ensures |s| <= 1 <==> forall a, b :: a in s && b in s ==> a == b
  {
    if a, b :| a in s && b in s && a != b {
      assert {a, b} <= s;
      assert |s - {a, b}| == |s| - 2;
    } else if a :| a in s {
      assert s == {a};
    }
  }

  lemma DocumentedUnlessAlike(val: seq<Item>)
    ensures Documented(val) <==> !Alike(val)
  {
    OneOrNone(AllPaths(val));
    OneOrNone(AllTimestamps(val));
  }

  /** The nodes of a timestamp that asks on its own have different paths. */
  lemma CrowdedIsDocumented(val: seq<Item>, i: nat, j: nat)
    requires KeysDistinct(val) && i < |val| && j < |val[i]| && |val[i][j].nodes| > 1
    ensures !Alike(val)
  {
    var nodes := val[i][j].nodes;
    assert nodes[0].path in AllPaths(val) && nodes[1].path in AllPaths(val);
  }

  lemma SeveralTimestampsInEntry(val: seq<Item>, i: nat)
    requires KeysDistinct(val) && i < |val| && |val[i]| > 1
    ensures !Alike(val)
  {
    assert val[i][0].timestamp in AllTimestamps(val) && val[i][1].timestamp in AllTimestamps(val);
  }

  lemma SeveralEntriesAsk(val: seq<Item>)
    requires |val| > 1 && HasNode(val)
    ensures BodyAsks(val)
  {
    var i, j :| 0 <= i < |val| && 0 <= j < |val[i]| && val[i][j].nodes != [];
    assert val[i][j] in val[i] && GroupAsks(val[i][j], true) && val[i] in val;
  }

  lemma AskingHasNode(val: seq<Item>)
    requires BodyAsks(val)
    ensures HasNode(val)
  {
    var item :| item in val && ItemAsks(item, |val| > 1);
    var g :| g in item && GroupAsks(g, |val| > 1);
    var i :| 0 <= i < |val| && val[i] == item;
    var j :| 0 <= j < |item| && item[j] == g;
    assert val[i][j].nodes != [];
  }

  /** A single entry gets its event exactly when one of its timestamps has more than one node. */
  lemma OneEntryAsks(item: Item)
    ensures BodyAsks([item]) <==> exists g :: g in item && |g.nodes| > 1
  {
    assert item in [item];
    if g :| g in item && |g.nodes| > 1 {
      assert GroupAsks(g, false) && ItemAsks(item, false);
    }
  }

  /** The guards that decide whether the code does what the documentation says. */
  predicate KeepsRule(val: seq<Item>) {
    if !HasNode(val) then Alike(val)
    else if |val| == 1 then |val[0]| == 1 || exists g :: g in val[0] && |g.nodes| > 1
    else !Alike(val)
  }

  lemma AsksAsDocumented(val: seq<Item>)
    requires KeysDistinct(val)
    ensures (BodyAsks(val) <==> !Alike(val)) <==> KeepsRule(val)
  {
    if !HasNode(val) {
      if BodyAsks(val) { AskingHasNode(val); }
    } else if |val| > 1 {
      SeveralEntriesAsk(val);
    } else {
      var item := val[0];
      assert val == [item];
      OneEntryAsks(item);
      if g :| g in item && |g.nodes| > 1 {
        var j :| 0 <= j < |item| && item[j] == g;
        CrowdedIsDocumented(val, 0, j);
      } else if |item| > 1 {
        SeveralTimestampsInEntry(val, 0);
      } else {
        forall p, q | p in AllPaths(val) && q in AllPaths(val) ensures p == q {
          assert val[0][0] in item && |val[0][0].nodes| <= 1;
        }
      }
    }
  }

  /** Any body that is ingested without an error gets an event exactly as documented if and only
      if: a single entry has one timestamp, or one that holds several nodes; several entries do not
      repeat one timestamp and one path; and without any node there is at most one timestamp. */
  lemma DocumentedRuleExactly(db: Db, ep: string, types: Types, val: seq<Item>)
    requires !db.raised && db.current.None? && KeysDistinct(val)
    requires !IngestAll(db, ep, types, Slots(val, |val| > 1)).raised
    ensures var db' := IngestAll(db, ep, types, Slots(val, |val| > 1));
            (|db'.events| == |db.events| + (if Documented(val) then 1 else 0)) <==> KeepsRule(val)
  {
    EventExactly(db, ep, types, val);
    DocumentedUnlessAlike(val);
    AsksAsDocumented(val);
  }

  /** A body that puts two timestamps into one entry has two timestamps but may get no event. */
  lemma OtherShapesMayLoseTheEvent(db: Db, ep: string, types: Types, a: Node, b: Node)
    requires !db.raised && db.current.None?
    ensures var val := [[Group(Some("t1"), [a]), Group(Some("t2"), [b])]];
            NoEvent(db, IngestAll(db, ep, types, Slots(val, |val| > 1)))
  {
    var item := [Group(Some("t1"), [a]), Group(Some("t2"), [b])];
    var val := [item];
    assert val[..0] == [] && item[..1][..0] == [] && item[..1] == [Group(Some("t1"), [a])];
    assert Slots(val, false) == ItemSlots(item, false);
    assert ItemSlots(item[..1], false) == GroupSlots(Group(Some("t1"), [a]), false);
    NarrowSlotsMakeNoEvent(db, ep, types, Slots(val, |val| > 1));
  }
}
