/** Registration events from the gateway to Django: the retrying client, a network that loses and
    delays requests, and the handler that applies what arrives. */
module Delivery {
  import opened Wrappers
  import opened IngestClient
  import R = Registration

  /** One HTTP request: attempt `attempt` of post `id`. */
  datatype Message = Message(id: PostId, attempt: nat)

  /** `answers` holds the status of every request that was served; its answer may still be lost. */
  datatype System = System(client: Client, events: map<PostId, R.Event>, wire: set<Message>,
                           answers: map<Message, int>, store: R.Store)

  const START := System(IDLE_CLIENT, map[], {}, map[], R.EMPTY)

  datatype Move =
    | Publish(event: R.Event)             // a registration callback posts an event
    | Serve(request: Message, code: int)  // Django applies the event and answers
    | Refuse(request: Message, code: int) // Django answers with an error, and has applied nothing
    | Lose(request: Message)              // the request never arrives
    | Step(action: Action)                // the client moves on

  predicate CanMove(s: System, m: Move) {
    match m
    case Publish(_) => true
    case Serve(r, code) => r in s.wire && r.id in s.events && code < 300
    case Refuse(r, code) => r in s.wire && code >= 300
    case Lose(r) => r in s.wire
    case Step(a) =>
      && !a.NewPost?
      && IngestClient.Enabled(s.client, a)
      // An error may be reported at any time, a status only when the request was answered with it.
      && (a.Complete? && a.reply.Status? ==>
            var r := Message(a.id, s.client.posts[a.id].sends);
            r in s.answers && s.answers[r] == a.reply.code)
  }

  function Moved(s: System, m: Move): System
    requires CanMove(s, m)
  {
    match m
    case Publish(e) =>
      s.(client := IngestClient.Apply(s.client, NewPost),
         events := s.events[s.client.next := e],
         wire := s.wire + {Message(s.client.next, 1)})
    case Serve(r, code) =>
      s.(wire := s.wire - {r}, answers := s.answers[r := code], store := R.Create(s.store, s.events[r.id]))
    case Refuse(r, code) => s.(wire := s.wire - {r}, answers := s.answers[r := code])
    case Lose(r) => s.(wire := s.wire - {r})
    case Step(a) =>
      var client := IngestClient.Apply(s.client, a);
      s.(client := client,
         wire := if a.Resend? then s.wire + {Message(a.id, client.posts[a.id].sends)} else s.wire)
  }

  ghost predicate Applied(s: System, id: PostId) {
    id in s.events && s.events[id] in s.store.history
  }

  ghost predicate Inv(s: System) {
    && IngestClient.Inv(s.client)
    && s.events.Keys == s.client.posts.Keys
    && s.store == R.Deliver(s.store.history)
    && (forall e :: e in s.store.history ==> exists id :: id in s.events && s.events[id] == e)
    && (forall r :: r in s.wire ==> r.id in s.events)
    && (forall r :: r in s.answers ==> r.id in s.events && (s.answers[r] < 300 ==> Applied(s, r.id)))
    && (forall id :: In(s.client, id, Done(Accepted)) ==> Applied(s, id))
  }

  lemma ServeStores(s: System, r: Message, code: int)
    requires Inv(s) && CanMove(s, Serve(r, code))
    ensures var t := Moved(s, Serve(r, code));
            t.store.history == s.store.history + [s.events[r.id]] && t.store == R.Deliver(t.store.history)
  {
    R.DeliverOneMore(s.store.history, s.events[r.id]);
  }

  lemma AppliedAfter(s: System, t: System, e: R.Event, id: PostId)
    requires t.events == s.events && t.store.history == s.store.history + [e] && id in s.events
    ensures Applied(t, id) <==> Applied(s, id) || s.events[id] == e
  {
  }

  lemma ServeKeepsInv(s: System, r: Message, code: int)
    requires Inv(s) && CanMove(s, Serve(r, code))
    ensures Inv(Moved(s, Serve(r, code)))
  {
    var e, t := s.events[r.id], Moved(s, Serve(r, code));
    ServeStores(s, r, code);
    forall f | f in t.store.history ensures exists id :: id in t.events && t.events[id] == f {
      assert f in s.store.history || f == t.events[r.id];
    }
    forall q | q in t.answers ensures q.id in t.events && (t.answers[q] < 300 ==> Applied(t, q.id)) {
      AppliedAfter(s, t, e, q.id);
    }
    forall id | In(t.client, id, Done(Accepted)) ensures Applied(t, id) {
      AppliedAfter(s, t, e, id);
    }
  }

  /** An accepted post has been applied: its status came from a request that was served. */
  lemma AcceptedIsApplied(s: System, a: Action, id: PostId)
    requires Inv(s) && CanMove(s, Step(a)) && In(IngestClient.Apply(s.client, a), id, Done(Accepted))
    ensures Applied(s, id)
  {
    if a.Complete? && a.id == id {
      assert a.reply.Status? && a.reply.code < 300;
    } else {
      assert In(s.client, id, Done(Accepted));
    }
  }

  lemma ClientKeepsInv(s: System, a: Action)
    requires Inv(s) && CanMove(s, Step(a))
    ensures Inv(Moved(s, Step(a)))
  {
    var t := Moved(s, Step(a));
    StepKeepsInv(s.client, a);
    assert t.client.posts.Keys == s.client.posts.Keys;
    forall id | In(t.client, id, Done(Accepted)) ensures Applied(t, id) {
      AcceptedIsApplied(s, a, id);
      assert Applied(s, id);
    }
    forall r | r in t.answers ensures r.id in t.events && (t.answers[r] < 300 ==> Applied(t, r.id)) {
      assert t.answers[r] < 300 ==> Applied(s, r.id);
    }
  }

  lemma PublishKeepsInv(s: System, e: R.Event)
    requires Inv(s)
    ensures Inv(Moved(s, Publish(e)))
  {
    var t := Moved(s, Publish(e));
    StepKeepsInv(s.client, NewPost);
    assert s.client.next !in s.events;
    forall id | Applied(s, id) ensures Applied(t, id) {}
    forall f | f in t.store.history ensures exists id :: id in t.events && t.events[id] == f {
      var id :| id in s.events && s.events[id] == f;
      assert id in t.events && t.events[id] == f;
    }
    forall id | In(t.client, id, Done(Accepted)) ensures Applied(t, id) {
      assert In(s.client, id, Done(Accepted)) && Applied(s, id);
    }
  }

  lemma MoveKeepsInv(s: System, m: Move)
    requires Inv(s) && CanMove(s, m)
    ensures Inv(Moved(s, m))
  {
    match m
    case Publish(e) => PublishKeepsInv(s, e);
    case Serve(r, code) => ServeKeepsInv(s, r, code);
    case Refuse(r, code) => assert forall id :: Applied(s, id) ==> Applied(Moved(s, m), id);
    case Lose(r) => assert forall id :: Applied(s, id) ==> Applied(Moved(s, m), id);
    case Step(a) => ClientKeepsInv(s, a);
  }

  // ---- runs

  datatype Run = Run(states: seq<System>, moves: seq<Move>)

  ghost predicate StepAt(run: Run, i: nat)
    requires i < |run.moves| < |run.states|
  {
    CanMove(run.states[i], run.moves[i]) && run.states[i + 1] == Moved(run.states[i], run.moves[i])
  }

  ghost predicate IsRun(run: Run) {
    && |run.states| == |run.moves| + 1
    && run.states[0] == START
    && forall i :: 0 <= i < |run.moves| ==> StepAt(run, i)
  }

  lemma {:induction false} RunKeepsInv(run: Run, n: nat)
    requires IsRun(run) && n < |run.states|
    ensures Inv(run.states[n])
  {
    if n > 0 {
      RunKeepsInv(run, n - 1);
      assert StepAt(run, n - 1);
      MoveKeepsInv(run.states[n - 1], run.moves[n - 1]);
    }
  }

  // ---- the end-to-end promises

  /** In every reachable state an endpoint's registration is that of the newest event applied for
      it, whatever was lost, repeated or reordered on the way. */
  lemma NewestAppliedDecides(run: Run, n: nat, ep: R.Endpoint)
    requires IsRun(run) && n < |run.states|
    ensures var s := run.states[n];
            if R.Known(s.store.history, ep)
            then exists k: nat :: R.Decides(s.store.history, ep, k)
                   && R.StateOf(s.store, ep) == Some(R.SetsRegistered(s.store.history[k].kind))
            else R.StateOf(s.store, ep) == None
  {
    RunKeepsInv(run, n);
    var k := R.NewestDecides(run.states[n].store.history, ep);
  }

  /** Post `id` carries the newest event posted for its endpoint, with no tie for that place. */
  ghost predicate NewestPosted(s: System, id: PostId) {
    && id in s.events
    && forall j :: j in s.events && s.events[j].endpoint == s.events[id].endpoint ==>
         s.events[j].time < s.events[id].time || s.events[j] == s.events[id]
  }

  /** As soon as the newest event posted for an endpoint was accepted, and until a newer one is
      posted, the endpoint has the state that event asks for: late retries, duplicates and drops of
      older events do not matter. */
  lemma NewestPostedDecides(run: Run, n: nat, id: PostId)
    requires IsRun(run) && n < |run.states|
    requires NewestPosted(run.states[n], id) && In(run.states[n].client, id, Done(Accepted))
    ensures var s := run.states[n];
            R.StateOf(s.store, s.events[id].endpoint) == Some(R.SetsRegistered(s.events[id].kind))
  {
    var s := run.states[n];
    var e := s.events[id];
    RunKeepsInv(run, n);
    assert Applied(s, id);
    var k := R.NewestDecides(s.store.history, e.endpoint);
    assert s.store.history[k] in s.store.history;
    var j :| j in s.events && s.events[j] == s.store.history[k];
    var i :| 0 <= i < |s.store.history| && s.store.history[i] == e;
    assert s.store.history[i].time <= s.store.history[k].time;
  }

  // ---- the client inside the system

  /** What one move is for the client. */
  function ClientAction(m: Move): seq<Action> {
    match m
    case Publish(_) => [NewPost]
    case Step(a) => [a]
    case _ => []
  }

  function ClientActions(moves: seq<Move>): seq<Action> {
    if moves == [] then [] else ClientActions(moves[..|moves| - 1]) + ClientAction(moves[|moves| - 1])
  }

  lemma ClientStep(s: System, m: Move)
    requires CanMove(s, m)
    ensures if ClientAction(m) == [] then Moved(s, m).client == s.client
            else IngestClient.Enabled(s.client, ClientAction(m)[0])
                 && Moved(s, m).client == IngestClient.Apply(s.client, ClientAction(m)[0])
  {
  }

  ghost predicate Ends(r: IngestClient.Run, c: Client) {
    IngestClient.IsRun(r) && r.clients[|r.actions|] == c
  }

  lemma ClientRunOneMore(r: IngestClient.Run, c: Client, a: Action) returns (longer: IngestClient.Run)
    requires Ends(r, c) && IngestClient.Enabled(c, a)
    ensures Ends(longer, IngestClient.Apply(c, a)) && longer.actions == r.actions + [a]
  {
    longer := IngestClient.Run(r.clients + [IngestClient.Apply(c, a)], r.actions + [a]);
    forall i | 0 <= i < |longer.actions| ensures IngestClient.StepAt(longer, i) {
      assert i < |r.actions| ==> IngestClient.StepAt(r, i);
    }
  }

  /** The client inside every run of the system makes a run of the client on its own, with exactly
      the steps that concern it. */
  lemma {:induction false} ClientRun(run: Run, n: nat) returns (r: IngestClient.Run)
    requires IsRun(run) && n < |run.states|
    ensures Ends(r, run.states[n].client) && r.actions == ClientActions(run.moves[..n])
  {
    if n == 0 {
      r := IngestClient.Run([IDLE_CLIENT], []);
    } else {
      var before, m := run.states[n - 1], run.moves[n - 1];
      r := ClientRun(run, n - 1);
      assert StepAt(run, n - 1);
      ClientStep(before, m);
      assert run.moves[..n][..n - 1] == run.moves[..n - 1];
      if ClientAction(m) != [] {
        r := ClientRunOneMore(r, before.client, ClientAction(m)[0]);
      }
    }
  }

  // ---- every event posted comes to rest

  ghost predicate CanGoOn(s: System, id: PostId) {
    exists a :: Concerns(a, id) && CanMove(s, Step(a))
  }

  lemma UnfinishedGoesOn(s: System, id: PostId)
    requires Inv(s) && id in s.client.posts && !s.client.posts[id].phase.Done?
    ensures CanGoOn(s, id)
  {
    var a := match s.client.posts[id].phase
             case InFlight => Complete(id, Failure)
             case Failing => CountRetry(id)
             case Scheduled => Fire(id)
             case Refusing => UndoCount(id)
             case Firing => Resend(id)
             case Done(_) => NewPost;
    assert Concerns(a, id) && CanMove(s, Step(a));
  }

  /** Every event that was posted is sent one to six times and takes at most 23 steps of the client,
      whatever the network and Django do; until it has its fate there is a step it can take; and once
      all have theirs, no retry is counted. */
  lemma EventsComeToRest(run: Run, n: nat, id: PostId)
    requires IsRun(run) && n < |run.states| && id in run.states[n].events
    ensures var s := run.states[n];
            && id in s.client.posts
            && 1 <= s.client.posts[id].sends <= ATTEMPTS
            && (s.client.posts[id].phase == Done(DroppedAfterAttempts) ==> s.client.posts[id].sends == ATTEMPTS)
            && StepsOf(ClientActions(run.moves[..n]), id) <= 23
            && (!s.client.posts[id].phase.Done? ==> CanGoOn(s, id))
    ensures (forall i :: i in run.states[n].client.posts ==> run.states[n].client.posts[i].phase.Done?) ==>
              run.states[n].client.pending == 0
  {
    var s := run.states[n];
    RunKeepsInv(run, n);
    var r := ClientRun(run, n);
    var k := |r.actions|;
    AttemptsAndBackoff(r, k, id);
    PostsEnd(r, k, id);
    assert r.actions[..k] == r.actions;
    if !s.client.posts[id].phase.Done? {
      UnfinishedGoesOn(s, id);
    }
    if forall i :: i in s.client.posts ==> s.client.posts[i].phase.Done? {
      SettledCounterIsZero(r, k);
    }
  }

  // ---- how often an event can be stored

  /** The requests of a post that are under way. */
  function OnWire(wire: set<Message>, id: PostId): set<Message> {
    set r | r in wire && r.id == id
  }

  lemma WireChanges(wire: set<Message>, r: Message, id: PostId)
    ensures |OnWire(wire + {r}, id)| <= |OnWire(wire, id)| + if r.id == id then 1 else 0
    ensures r in wire ==> |OnWire(wire - {r}, id)| == |OnWire(wire, id)| - if r.id == id then 1 else 0
  {
    assert OnWire(wire + {r}, id) == if r.id == id then OnWire(wire, id) + {r} else OnWire(wire, id);
    assert OnWire(wire - {r}, id) == OnWire(wire, id) - {r};
  }

  function Sent(s: System, id: PostId): nat {
    if id in s.client.posts then s.client.posts[id].sends else 0
  }

  function Stores(m: Move, id: PostId): nat {
    if m.Serve? && m.request.id == id then 1 else 0
  }

  function TimesStored(moves: seq<Move>, id: PostId): nat {
    if moves == [] then 0
    else TimesStored(moves[..|moves| - 1], id) + Stores(moves[|moves| - 1], id)
  }

  lemma SentGrows(s: System, m: Move, id: PostId)
    requires Inv(s) && CanMove(s, m)
    ensures var sending := (m.Publish? && s.client.next == id) || m == Step(Resend(id));
            Sent(Moved(s, m), id) == Sent(s, id) + if sending then 1 else 0
  {
  }

  /** A request is stored or lost at most once, and a new one is under way only when it is sent. */
  lemma WireBudget(s: System, m: Move, id: PostId)
    requires Inv(s) && CanMove(s, m)
    ensures Stores(m, id) + |OnWire(Moved(s, m).wire, id)| - |OnWire(s.wire, id)| <= Sent(Moved(s, m), id) - Sent(s, id)
  {
    SentGrows(s, m, id);
    match m
    case Publish(_) => WireChanges(s.wire, Message(s.client.next, 1), id);
    case Serve(r, _) => WireChanges(s.wire, r, id);
    case Refuse(r, _) => WireChanges(s.wire, r, id);
    case Lose(r) => WireChanges(s.wire, r, id);
    case Step(a) =>
      if a.Resend? { WireChanges(s.wire, Message(a.id, Moved(s, m).client.posts[a.id].sends), id); }
  }

  lemma {:induction false} StoredWithinSent(run: Run, n: nat, id: PostId)
    requires IsRun(run) && n < |run.states|
    ensures TimesStored(run.moves[..n], id) + |OnWire(run.states[n].wire, id)| <= Sent(run.states[n], id)
  {
    if n > 0 {
      StoredWithinSent(run, n - 1, id);
      RunKeepsInv(run, n - 1);
      assert StepAt(run, n - 1);
      WireBudget(run.states[n - 1], run.moves[n - 1], id);
      assert run.moves[..n][..n - 1] == run.moves[..n - 1];
    }
  }

  /** However answers are lost and requests delayed, no event enters the history more than six
      times. */
  lemma StoredAtMostSixTimes(run: Run, n: nat, id: PostId)
    requires IsRun(run) && n < |run.states|
    ensures TimesStored(run.moves[..n], id) <= ATTEMPTS
  {
    StoredWithinSent(run, n, id);
    RunKeepsInv(run, n);
  }
}
