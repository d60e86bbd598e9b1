/** The gateway's HTTP client: bounded retries with backoff, admitted by one atomic counter that
    several callbacks change at once. */
module IngestClient {

  const ATTEMPTS := 6
  const MAX_PENDING_RETRIES := 10000
  const FIRST_RETRY_MS := 2000

  type PostId = nat

  datatype Fate = Accepted | Rejected | DroppedAfterAttempts | DroppedWhenFull

  /** Where the thread of control of one post is. Counter updates are steps of their own. */
  datatype Phase =
    | InFlight               // sendAsync was called, its completion is awaited
    | Failing                // a retryable failure was seen; the counter is not yet incremented
    | Scheduled              // admitted; the timer runs
    | Refusing               // the increment went over the limit and is not yet undone
    | Firing                 // the timer fired and gave its place back; the request is not yet sent
    | Done(fate: Fate)

  /** `sends` counts sendAsync calls; `waited` adds up the delays of the timers that fired. */
  datatype Post = Post(phase: Phase, sends: nat, waited: nat)

  datatype Client = Client(pending: int, posts: map<PostId, Post>, next: PostId)

  const IDLE_CLIENT := Client(0, map[], 0)

  datatype Reply = Failure | Status(code: int)

  function Pow2(n: nat): nat {
    if n == 0 then 1 else 2 * Pow2(n - 1)
  }

  /** The delay after the failure of attempt `attempt`, counted from 1. */
  function Delay(attempt: nat): nat
    requires attempt >= 1
  {
    FIRST_RETRY_MS * Pow2(attempt - 1)
  }

  datatype Action =
    | NewPost
    | Complete(id: PostId, reply: Reply)
    | CountRetry(id: PostId)
    | UndoCount(id: PostId)
    | Fire(id: PostId)
    | Resend(id: PostId)

  predicate In(c: Client, id: PostId, phase: Phase) {
    id in c.posts && c.posts[id].phase == phase
  }

  predicate Enabled(c: Client, a: Action) {
    match a
    case NewPost => true
    case Complete(id, _) => In(c, id, InFlight)
    case CountRetry(id) => In(c, id, Failing)
    case UndoCount(id) => In(c, id, Refusing)
    case Fire(id) => In(c, id, Scheduled) && c.posts[id].sends >= 1
    case Resend(id) => In(c, id, Firing)
  }

  /** What the completion callback decides from the reply and the number of the attempt. */
  function Decide(reply: Reply, attempt: nat): Phase {
    if reply.Status? && reply.code < 300 then Done(Accepted)
    else if reply.Status? && reply.code < 500 then Done(Rejected)
    else if attempt >= ATTEMPTS then Done(DroppedAfterAttempts)
    else Failing
  }

  function Move(c: Client, id: PostId, phase: Phase): Client
    requires id in c.posts
  {
    c.(posts := c.posts[id := c.posts[id].(phase := phase)])
  }

  function Apply(c: Client, a: Action): Client
    requires Enabled(c, a)
  {
    match a
    case NewPost => c.(posts := c.posts[c.next := Post(InFlight, 1, 0)], next := c.next + 1)
    case Complete(id, reply) => Move(c, id, Decide(reply, c.posts[id].sends))
    case CountRetry(id) =>
      Move(c.(pending := c.pending + 1), id, if c.pending + 1 > MAX_PENDING_RETRIES then Refusing else Scheduled)
    case UndoCount(id) => Move(c.(pending := c.pending - 1), id, Done(DroppedWhenFull))
    case Fire(id) =>
      var p := c.posts[id];
      c.(pending := c.pending - 1,
         posts := c.posts[id := p.(phase := Firing, waited := p.waited + Delay(p.sends))])
    case Resend(id) =>
      var p := c.posts[id];
      c.(posts := c.posts[id := p.(phase := InFlight, sends := p.sends + 1)])
  }

  // ---- the invariant

  function Those(c: Client, phase: Phase): set<PostId> {
    set id | id in c.posts && c.posts[id].phase == phase
  }

  predicate PostValid(p: Post) {
    && 1 <= p.sends <= ATTEMPTS
    && (p.phase.Failing? || p.phase.Scheduled? || p.phase.Refusing? || p.phase.Firing? ==> p.sends < ATTEMPTS)
    && (p.phase == Done(DroppedAfterAttempts) ==> p.sends == ATTEMPTS)
    && (p.phase == Done(DroppedWhenFull) ==> p.sends < ATTEMPTS)
    && p.waited == FIRST_RETRY_MS * (Pow2(if p.phase.Firing? then p.sends else p.sends - 1) - 1)
  }

  predicate Inv(c: Client) {
    && (forall id :: id in c.posts ==> id < c.next && PostValid(c.posts[id]))
    && c.pending == |Those(c, Scheduled)| + |Those(c, Refusing)|
    && |Those(c, Scheduled)| <= MAX_PENDING_RETRIES
  }

  /** How the number of posts in a phase changes when one post moves. */
  lemma Moved(c: Client, d: Client, id: PostId, phase: Phase)
    requires id in d.posts
    requires d.posts == c.posts[id := d.posts[id]]
    ensures |Those(d, phase)| == |Those(c, phase)| - (if In(c, id, phase) then 1 else 0) + (if In(d, id, phase) then 1 else 0)
  {
    assert Those(d, phase) == if In(d, id, phase) then Those(c, phase) + {id} else Those(c, phase) - {id};
  }

  lemma StepKeepsPost(c: Client, a: Action, id: PostId)
    requires Enabled(c, a) && id in Apply(c, a).posts
    requires id in c.posts ==> PostValid(c.posts[id])
    ensures PostValid(Apply(c, a).posts[id])
  {
    if a == Fire(id) {
      var n := c.posts[id].sends;
      assert Pow2(n) == 2 * Pow2(n - 1);
    }
  }

  lemma StepKeepsCounter(c: Client, a: Action)
    requires Inv(c) && Enabled(c, a)
    ensures var d := Apply(c, a);
            d.pending == |Those(d, Scheduled)| + |Those(d, Refusing)| && |Those(d, Scheduled)| <= MAX_PENDING_RETRIES
  {
    var d := Apply(c, a);
    var id := if a.NewPost? then c.next else a.id;
    Moved(c, d, id, Scheduled);
    Moved(c, d, id, Refusing);
  }

  lemma StepKeepsInv(c: Client, a: Action)
    requires Inv(c) && Enabled(c, a)
    ensures Inv(Apply(c, a))
  {
    var d := Apply(c, a);
    StepKeepsCounter(c, a);
    forall i | i in d.posts ensures i < d.next && PostValid(d.posts[i]) {
      StepKeepsPost(c, a, i);
    }
  }

  /** A retry is refused exactly when the admitted timers and the refusals under way fill the limit. */
  lemma RefusedExactlyWhenFull(c: Client, id: PostId)
    requires Inv(c) && Enabled(c, CountRetry(id))
    ensures In(Apply(c, CountRetry(id)), id, Refusing) <==>
            |Those(c, Scheduled)| + |Those(c, Refusing)| >= 10000
  {
  }

  // ---- runs

  datatype Run = Run(clients: seq<Client>, actions: seq<Action>)

  ghost predicate StepAt(run: Run, i: nat)
    requires i < |run.actions| < |run.clients|
  {
    Enabled(run.clients[i], run.actions[i]) && run.clients[i + 1] == Apply(run.clients[i], run.actions[i])
  }

  ghost predicate IsRun(run: Run) {
    && |run.clients| == |run.actions| + 1
    && run.clients[0] == IDLE_CLIENT
    && forall i :: 0 <= i < |run.actions| ==> StepAt(run, i)
  }

  /** In every state of every interleaving the counter is the number of admitted timers that have
      not fired plus the refusals not yet undone, and never more timers than the limit run. */
  lemma {:induction false} RunKeepsInv(run: Run, n: nat)
    requires IsRun(run) && n < |run.clients|
    ensures Inv(run.clients[n])
  {
    if n > 0 {
      RunKeepsInv(run, n - 1);
      assert StepAt(run, n - 1);
      StepKeepsInv(run.clients[n - 1], run.actions[n - 1]);
    }
  }

  /** When every post has its fate, the counter is back at zero. */
  lemma SettledCounterIsZero(run: Run, n: nat)
    requires IsRun(run) && n < |run.clients|
    requires forall id :: id in run.clients[n].posts ==> run.clients[n].posts[id].phase.Done?
    ensures run.clients[n].pending == 0
  {
    RunKeepsInv(run, n);
    assert Those(run.clients[n], Scheduled) == {} && Those(run.clients[n], Refusing) == {};
  }

  /** No post is sent more than six times, and exactly six times before it is dropped for its
      attempts; by its last attempt it has waited 62 seconds in timers. */
  lemma AttemptsAndBackoff(run: Run, n: nat, id: PostId)
    requires IsRun(run) && n < |run.clients| && id in run.clients[n].posts
    ensures var p := run.clients[n].posts[id];
            && 1 <= p.sends <= ATTEMPTS
            && (p.phase == Done(DroppedAfterAttempts) ==> p.sends == ATTEMPTS)
            && (p.phase == Done(DroppedWhenFull) ==> p.sends < ATTEMPTS)
            && (p.phase == InFlight && p.sends == ATTEMPTS ==> p.waited == 62000)
  {
    RunKeepsInv(run, n);
    assert Pow2(5) == 32;
  }

  // ---- every post ends, once

  /** The steps a post can still take. */
  function Rank(p: Post): int {
    match p.phase
    case InFlight => 4 * (ATTEMPTS - p.sends) + 3
    case Failing => 4 * (ATTEMPTS - p.sends) + 2
    case Scheduled => 4 * (ATTEMPTS - p.sends) + 1
    case Firing => 4 * (ATTEMPTS - p.sends)
    case Refusing => 1
    case Done(_) => 0
  }

  function Concerns(a: Action, id: PostId): bool {
    !a.NewPost? && a.id == id
  }

  /** A step of a post lowers its rank, every other step leaves it alone, and a fate is final. */
  lemma StepLowersRank(c: Client, a: Action, id: PostId)
    requires Inv(c) && Enabled(c, a) && id in c.posts
    ensures id in Apply(c, a).posts
    ensures if Concerns(a, id) then 0 <= Rank(Apply(c, a).posts[id]) < Rank(c.posts[id])
            else Apply(c, a).posts[id] == c.posts[id]
    ensures c.posts[id].phase.Done? ==> !Concerns(a, id)
  {
  }

  function StepsOf(actions: seq<Action>, id: PostId): nat {
    if actions == [] then 0
    else StepsOf(actions[..|actions| - 1], id) + if Concerns(actions[|actions| - 1], id) then 1 else 0
  }

  /** No run gives a post more than 23 steps: each post comes to rest, in one of the four fates,
      whatever the network does and however the callbacks interleave. */
  lemma {:induction false} PostsEnd(run: Run, n: nat, id: PostId)
    requires IsRun(run) && n < |run.clients|
    ensures if id in run.clients[n].posts
            then StepsOf(run.actions[..n], id) + Rank(run.clients[n].posts[id]) <= 23
            else StepsOf(run.actions[..n], id) == 0
    ensures id in run.clients[n].posts && !run.clients[n].posts[id].phase.Done? ==>
              exists a :: Concerns(a, id) && Enabled(run.clients[n], a)
  {
    RunKeepsInv(run, n);
    if id in run.clients[n].posts {
      var a := match run.clients[n].posts[id].phase
               case InFlight => Complete(id, Failure)
               case Failing => CountRetry(id)
               case Scheduled => Fire(id)
               case Refusing => UndoCount(id)
               case Firing => Resend(id)
               case Done(_) => NewPost;
      assert !run.clients[n].posts[id].phase.Done? ==> Concerns(a, id) && Enabled(run.clients[n], a);
    }
    if n > 0 {
      PostsEnd(run, n - 1, id);
      RunKeepsInv(run, n - 1);
      assert StepAt(run, n - 1);
      assert run.actions[..n][..n - 1] == run.actions[..n - 1];
      if id in run.clients[n - 1].posts {
        StepLowersRank(run.clients[n - 1], run.actions[n - 1], id);
      }
    }
  }

  // ---- which fate a post meets

  /** The reply is an answer that the client takes as success, as rejection, or as neither. */
  predicate Accepts(reply: Reply) {
    reply.Status? && reply.code < 300
  }

  predicate Rejects(reply: Reply) {
    reply.Status? && 300 <= reply.code < 500
  }

  predicate Retryable(reply: Reply) {
    reply.Failure? || reply.code >= 500
  }

  /** What a completed request makes of its post: accepted below 300, rejected from 300 to 499; any
      other answer and any error is retried, unless it was the sixth send. */
  lemma CompleteExactly(c: Client, id: PostId, reply: Reply)
    requires Enabled(c, Complete(id, reply))
    ensures var d := Apply(c, Complete(id, reply));
            && id in d.posts && d.posts[id].sends == c.posts[id].sends && d.posts[id].waited == c.posts[id].waited
            && (d.posts[id].phase == Done(Accepted) <==> reply.Status? && reply.code < 300)
            && (d.posts[id].phase == Done(Rejected) <==> reply.Status? && 300 <= reply.code < 500)
            && (d.posts[id].phase == Failing <==> (reply.Failure? || reply.code >= 500) && c.posts[id].sends < 6)
            && (d.posts[id].phase == Done(DroppedAfterAttempts) <==>
                (reply.Failure? || reply.code >= 500) && c.posts[id].sends >= 6)
            && d.pending == c.pending
  {
  }

  /** The five delays, in milliseconds. */
  lemma DelayAfterEachSend(c: Client, id: PostId)
    requires Inv(c) && Enabled(c, Fire(id))
    ensures var d, n := Apply(c, Fire(id)), c.posts[id].sends;
            && 1 <= n <= 5 && id in d.posts
            && d.posts[id].waited == c.posts[id].waited + [2000, 4000, 8000, 16000, 32000][n - 1]
  {
    assert Pow2(0) == 1 && Pow2(1) == 2 && Pow2(2) == 4 && Pow2(3) == 8 && Pow2(4) == 16;
    assert c.posts[id].sends in {1, 2, 3, 4, 5};
  }

  /** Step `i` gives post `id` this fate. */
  ghost predicate FateAt(run: Run, i: nat, id: PostId, fate: Fate)
    requires IsRun(run)
  {
    && i < |run.actions|
    && Concerns(run.actions[i], id)
    && match fate
       case Accepted => run.actions[i].Complete? && Accepts(run.actions[i].reply)
       case Rejected => run.actions[i].Complete? && Rejects(run.actions[i].reply)
       case DroppedAfterAttempts =>
         && run.actions[i].Complete? && Retryable(run.actions[i].reply)
         && id in run.clients[i].posts && run.clients[i].posts[id].sends == 6
       case DroppedWhenFull => run.actions[i].UndoCount?
  }

  lemma FateStep(c: Client, a: Action, id: PostId, fate: Fate)
    requires Inv(c) && Enabled(c, a) && id in Apply(c, a).posts
    ensures In(Apply(c, a), id, Done(fate)) <==>
            In(c, id, Done(fate)) ||
            (Concerns(a, id) &&
             match fate
             case Accepted => a.Complete? && Accepts(a.reply)
             case Rejected => a.Complete? && Rejects(a.reply)
             case DroppedAfterAttempts => a.Complete? && Retryable(a.reply) && id in c.posts && c.posts[id].sends == 6
             case DroppedWhenFull => a.UndoCount?)
  {
    if a.Complete? {
      CompleteExactly(c, a.id, a.reply);
    }
  }

  lemma RunFateStep(run: Run, n: nat, id: PostId, fate: Fate)
    requires IsRun(run) && n < |run.actions|
    ensures id in run.clients[n].posts ==> id in run.clients[n + 1].posts
    ensures id in run.clients[n + 1].posts ==>
              (In(run.clients[n + 1], id, Done(fate)) <==> In(run.clients[n], id, Done(fate)) || FateAt(run, n, id, fate))
    ensures id !in run.clients[n + 1].posts ==> !FateAt(run, n, id, fate)
  {
    RunKeepsInv(run, n);
    assert StepAt(run, n);
    if id in run.clients[n + 1].posts {
      FateStep(run.clients[n], run.actions[n], id, fate);
    }
  }

  /** A post has a fate exactly when a step of its own gave it that fate: an answer below 300, one
      from 300 to 499, a failure or an answer from 500 at the sixth send, or a refusal for the limit. */
  lemma {:induction false} FateExactly(run: Run, n: nat, id: PostId, fate: Fate)
    requires IsRun(run) && n < |run.clients|
    ensures In(run.clients[n], id, Done(fate)) <==> exists i :: 0 <= i < n && FateAt(run, i, id, fate)
  {
    if n > 0 {
      FateExactly(run, n - 1, id, fate);
      RunFateStep(run, n - 1, id, fate);
    }
  }

  /** A post that got nothing but failures and answers from 500 was sent six times, or was refused for
      the limit. */
  lemma OnlyFailuresIsSixSends(run: Run, n: nat, id: PostId)
    requires IsRun(run) && n < |run.clients| && id in run.clients[n].posts && run.clients[n].posts[id].phase.Done?
    requires forall i :: 0 <= i < n && Concerns(run.actions[i], id) && run.actions[i].Complete? ==>
               Retryable(run.actions[i].reply)
    ensures run.clients[n].posts[id] == Post(Done(DroppedAfterAttempts), 6, 62000) ||
            exists i :: 0 <= i < n && run.actions[i] == UndoCount(id)
  {
    RunKeepsInv(run, n);
    var fate := run.clients[n].posts[id].phase.fate;
    FateExactly(run, n, id, fate);
    var i :| 0 <= i < n && FateAt(run, i, id, fate);
    assert Pow2(5) == 32;
    assert fate.DroppedWhenFull? ==> run.actions[i] == UndoCount(id);
  }

  // ---- the client object

  /** The fields the callbacks share. Each method is one atomic stretch of a callback. */
  class Gateway {
    var pendingRetries: int
    var posts: map<PostId, Post>
    var next: PostId

    function State(): Client
      reads this
    {
      Client(pendingRetries, posts, next)
    }

    constructor ()
      ensures State() == IDLE_CLIENT
    {
      pendingRetries, posts, next := 0, map[], 0;
    }

    method Send(id: PostId, attempt: nat)
      requires attempt >= 1
      modifies this`posts
      ensures posts == old(posts)[id := Post(InFlight, attempt, if id in old(posts) then old(posts)[id].waited else 0)]
    {
      posts := posts[id := Post(InFlight, attempt, if id in posts then posts[id].waited else 0)];
    }

    method PostEvent() returns (id: PostId)
      requires Inv(State())
      modifies this
      ensures id == old(next) && State() == Apply(old(State()), NewPost) && Inv(State())
    {
      StepKeepsInv(State(), NewPost);
      id := next;
      next := next + 1;
      Send(id, 1);
    }

    /** The completion callback up to its first use of the counter. */
    method WhenComplete(id: PostId, reply: Reply) returns (retry: bool)
      requires Inv(State()) && In(State(), id, InFlight)
      modifies this`posts
      ensures State() == Apply(old(State()), Complete(id, reply)) && Inv(State())
      ensures retry <==> In(State(), id, Failing)
      ensures retry <==> (reply.Failure? || reply.code >= 500) && old(posts)[id].sends < 6
      ensures In(State(), id, Done(Accepted)) <==> reply.Status? && reply.code < 300
      ensures In(State(), id, Done(Rejected)) <==> reply.Status? && 300 <= reply.code < 500
    {
      StepKeepsInv(State(), Complete(id, reply));
      var p := posts[id];
      if reply.Status? && reply.code < 300 {
        posts := posts[id := p.(phase := Done(Accepted))];
        return false;
      }
      if reply.Status? && reply.code < 500 {
        posts := posts[id := p.(phase := Done(Rejected))];
        return false;
      }
      if p.sends >= ATTEMPTS {
        posts := posts[id := p.(phase := Done(DroppedAfterAttempts))];
        return false;
      }
      posts := posts[id := p.(phase := Failing)];
      return true;
    }

    /** `incrementAndGet` and the test of what it returned. */
    method Admit(id: PostId) returns (admitted: bool)
      requires Inv(State()) && In(State(), id, Failing)
      modifies this
      ensures State() == Apply(old(State()), CountRetry(id)) && Inv(State())
      ensures admitted <==> In(State(), id, Scheduled)
    {
      StepKeepsInv(State(), CountRetry(id));
      pendingRetries := pendingRetries + 1;
      admitted := pendingRetries <= MAX_PENDING_RETRIES;
      posts := posts[id := posts[id].(phase := if admitted then Scheduled else Refusing)];
    }

    method Refuse(id: PostId)
      requires Inv(State()) && In(State(), id, Refusing)
      modifies this
      ensures State() == Apply(old(State()), UndoCount(id)) && Inv(State())
    {
      StepKeepsInv(State(), UndoCount(id));
      pendingRetries := pendingRetries - 1;
      posts := posts[id := posts[id].(phase := Done(DroppedWhenFull))];
    }

    /** The timer of attempt `sends` fires and gives its place back. */
    method TimerFires(id: PostId)
      requires Inv(State()) && In(State(), id, Scheduled)
      modifies this
      ensures State() == Apply(old(State()), Fire(id)) && Inv(State())
    {
      StepKeepsInv(State(), Fire(id));
      var p := posts[id];
      pendingRetries := pendingRetries - 1;
      posts := posts[id := p.(phase := Firing, waited := p.waited + Delay(p.sends))];
    }

    method SendAgain(id: PostId)
      requires Inv(State()) && In(State(), id, Firing)
      modifies this`posts
      ensures State() == Apply(old(State()), Resend(id)) && Inv(State())
    {
      StepKeepsInv(State(), Resend(id));
      Send(id, posts[id].sends + 1);
    }
  }
}
