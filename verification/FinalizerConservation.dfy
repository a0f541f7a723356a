/** Conservation: the counters of each scope are the sessions and guards that are really there. */
module FinalizerConservation {
  import opened Text
  import opened Finalizer

  /** What to count: the sessions of a scope, or one session. */
  datatype Query = InScope(scope: nat) | Is(x: Session)

  predicate Matches(q: Query, x: Session) {
    match q
    case InScope(scope) => x.scope == scope
    case Is(y) => x == y
  }

  function One(q: Query, t: Task): nat { if Matches(q, t.session) then 1 else 0 }

  function Count(q: Query, ts: seq<Task>): nat {
    if ts == [] then 0 else Count(q, ts[..|ts| - 1]) + One(q, ts[|ts| - 1])
  }

  function Carried(c: Command): seq<Task> { if c.Enqueue? then [c.task] else [] }

  function Queued(cs: seq<Command>): seq<Task> {
    if cs == [] then [] else Queued(cs[..|cs| - 1]) + Carried(cs[|cs| - 1])
  }

  function Guards(scope: nat, gs: seq<nat>): nat {
    if gs == [] then 0 else Guards(scope, gs[..|gs| - 1]) + if gs[|gs| - 1] == scope then 1 else 0
  }

  lemma {:induction false} CountAppend(q: Query, a: seq<Task>, b: seq<Task>)
    ensures Count(q, a + b) == Count(q, a) + Count(q, b)
  {
    if b == [] {
      assert a + b == a;
    } else {
      var ab := a + b;
      assert ab[..|ab| - 1] == a + b[..|b| - 1];
      CountAppend(q, a, b[..|b| - 1]);
    }
  }

  lemma CountOne(q: Query, t: Task)
    ensures Count(q, [t]) == One(q, t)
  {
    assert [t][..0] == [];
  }

  lemma CountPush(q: Query, ts: seq<Task>, t: Task)
    ensures Count(q, ts + [t]) == Count(q, ts) + One(q, t)
  {
    assert (ts + [t])[..|ts|] == ts;
  }

  lemma CountPop(q: Query, ts: seq<Task>)
    requires ts != []
    ensures Count(q, ts) == One(q, ts[0]) + Count(q, ts[1..])
  {
    assert ts == [ts[0]] + ts[1..];
    CountAppend(q, [ts[0]], ts[1..]);
    CountOne(q, ts[0]);
  }

  lemma CountWithout(q: Query, ts: seq<Task>, i: nat)
    requires i < |ts|
    ensures Count(q, ts) == Count(q, Without(ts, i)) + One(q, ts[i])
  {
    assert ts == ts[..i] + ts[i..];
    CountAppend(q, ts[..i], ts[i..]);
    CountPop(q, ts[i..]);
    assert ts[i..][1..] == ts[i + 1..];
    CountAppend(q, ts[..i], ts[i + 1..]);
  }

  lemma CountSwapRemove(q: Query, ts: seq<Task>, i: nat)
    requires i < |ts|
    ensures Count(q, ts) == Count(q, SwapRemove(ts, i)) + One(q, ts[i])
  {
    var last := |ts| - 1;
    assert ts == ts[..last] + [ts[last]];
    CountPush(q, ts[..last], ts[last]);
    if i != last {
      var front := ts[..last];
      var back := front[i := ts[last]];
      CountWithout(q, front, i);
      CountWithout(q, back, i);
      assert Without(front, i) == Without(back, i);
    }
  }

  lemma QueuedPush(cs: seq<Command>, c: Command)
    ensures Queued(cs + [c]) == Queued(cs) + Carried(c)
  {
    assert (cs + [c])[..|cs|] == cs;
  }

  lemma {:induction false} QueuedPop(cs: seq<Command>)
    requires cs != []
    ensures Queued(cs) == Carried(cs[0]) + Queued(cs[1..])
  {
    hide Carried;
    var n := |cs| - 1;
    if n == 0 {
      assert cs[..n] == [] && cs[1..] == [];
    } else {
      QueuedPop(cs[..n]);
      assert cs[..n][1..] == cs[1..][..n - 1];
    }
  }

  lemma GuardsPush(scope: nat, gs: seq<nat>, g: nat)
    ensures Guards(scope, gs + [g]) == Guards(scope, gs) + if g == scope then 1 else 0
  {
    assert (gs + [g])[..|gs|] == gs;
  }

  lemma {:induction false} GuardsWithout(scope: nat, gs: seq<nat>, i: nat)
    requires i < |gs|
    ensures Guards(scope, gs) == Guards(scope, Without(gs, i)) + if gs[i] == scope then 1 else 0
  {
    var n := |gs| - 1;
    if i == n {
      assert Without(gs, i) == gs[..n];
    } else {
      GuardsWithout(scope, gs[..n], i);
      assert Without(gs, i) == Without(gs[..n], i) + [gs[n]];
      GuardsPush(scope, Without(gs[..n], i), gs[n]);
    }
  }

  // ---------------------------------------------------------------- the invariant

  /** Waiting to be attempted: with a caller, in the channel, in the queue, taken for a start, or lost on the way. */
  function PendingCount(s: State, q: Query): nat {
    Count(q, s.sending) + Count(q, Queued(s.channel)) + Count(q, s.pending) + Count(q, s.leaked)
    + if s.hand.Starting? then One(q, s.hand.task) else 0
  }

  /** With a worker, or joined and not yet accounted for. */
  function RunningCount(s: State, q: Query): nat {
    Count(q, s.workers) + if s.hand.Ended? then One(q, s.hand.task) else 0
  }

  /** The counters as they should be. */
  function Expected(s: State, scope: nat): Progress {
    var q := InScope(scope);
    var p, r, z := PendingCount(s, q), RunningCount(s, q) + Guards(scope, s.guards), Count(q, s.quarantined);
    Progress(p + r + z, p, r, z)
  }

  /** Every session given is in exactly one place, as often as it was given. */
  function Located(s: State, x: Session): nat {
    PendingCount(s, Is(x)) + RunningCount(s, Is(x)) + Count(Is(x), s.quarantined) + Count(Is(x), s.released)
  }

  // ---------------------------------------------------------------- every step keeps it

  /** The effect of a step on the counts, for one query. */
  lemma DeferCounts(s: State, x: Session, q: Query)
    ensures var r, n := DoDefer(s, x), One(q, Task(x, None, []));
            && PendingCount(r, q) == PendingCount(s, q) + n && RunningCount(r, q) == RunningCount(s, q)
            && Count(q, r.quarantined) == Count(q, s.quarantined) && Count(q, r.released) == Count(q, s.released)
            && Count(q, r.given) == Count(q, s.given) + n
  {
    hide One;
    var t := Task(x, None, []);
    CountPush(q, s.sending, t);
    CountPush(q, s.given, t);
  }

  /** A step that moves sessions without changing a count. */
  predicate SameCounts(s: State, r: State, q: Query) {
    && PendingCount(r, q) == PendingCount(s, q) && RunningCount(r, q) == RunningCount(s, q)
    && r.quarantined == s.quarantined && r.released == s.released && r.given == s.given
  }

  lemma SendCounts(s: State, i: nat, q: Query)
    requires CanSend(s, i)
    ensures SameCounts(s, DoSend(s, i), q)
  {
    hide One, Queued, Count, Without;
    CountWithout(q, s.sending, i);
    QueuedPush(s.channel, Enqueue(s.sending[i]));
    CountPush(q, Queued(s.channel), s.sending[i]);
  }

  lemma SendFailsCounts(s: State, i: nat, q: Query)
    requires CanLose(s, i)
    ensures SameCounts(s, DoSendFails(s, i), q)
  {
    hide One, Queued, Count, Without;
    CountWithout(q, s.sending, i);
    CountPush(q, s.leaked, s.sending[i]);
  }

  lemma RetryCounts(s: State, scope: nat, deadline: int, q: Query)
    ensures SameCounts(s, DoRetry(s, scope, deadline), q)
  {
    hide One, Queued, Count;
    QueuedPush(s.channel, Retry(scope, deadline));
    assert Queued(s.channel) + [] == Queued(s.channel);
  }

  lemma DieCounts(s: State, q: Query)
    ensures SameCounts(s, DoDie(s), q)
  {
    hide Count, Queued, One;
  }

  lemma ReceiveCounts(s: State, q: Query)
    requires CanReceive(s)
    ensures SameCounts(s, DoReceive(s), q)
  {
    hide One, Queued, Count;
    var rest := Queued(s.channel[1..]);
    QueuedPop(s.channel);
    if s.channel[0].Enqueue? {
      CountPush(q, s.pending, s.channel[0].task);
      CountPop(q, Queued(s.channel));
      assert Queued(s.channel)[1..] == rest;
    } else {
      assert [] + rest == rest;
    }
  }

  lemma ReapCounts(s: State, i: nat, outcome: Outcome, q: Query)
    requires CanReap(s, i)
    ensures SameCounts(s, DoReap(s, i, outcome), q)
  {
    hide One, Queued, SwapRemove, Count;
    CountSwapRemove(q, s.workers, i);
  }

  lemma StartCounts(s: State, now: int, spawns: bool, q: Query)
    requires CanStart(s)
    ensures SameCounts(s, DoStart(s, now, spawns), q)
  {
    hide Queued, AuthorizationAt, Authorized, Count, One, Attempt;
    var t, rest := s.pending[0], s.pending[1..];
    var a := AuthorizationAt(s, t.session.scope);
    CountPop(q, s.pending);
    CountPush(q, rest, t);
    CountPush(q, rest, t.(last := Some(a.epoch)));
    SameOne(q, t, t.(last := Some(a.epoch)));
    SameOne(q, t, Attempt(t, a.epoch)) by { AttemptSession(t, a.epoch); }
  }

  lemma SameOne(q: Query, t: Task, u: Task)
    requires t.session == u.session
    ensures One(q, t) == One(q, u)
  {
  }

  /** A started session leaves the pending count for the running one. */
  lemma StartedCounts(s: State, q: Query)
    requires s.alive && s.hand.Starting?
    ensures var r, n := DoUpdate(s), One(q, s.hand.task);
            && PendingCount(s, q) == PendingCount(r, q) + n && RunningCount(r, q) == RunningCount(s, q) + n
            && r.quarantined == s.quarantined && r.released == s.released && r.given == s.given
  {
    hide One, Queued, Settled, ProgressAt, Count;
    CountPush(q, s.workers, s.hand.task);
  }

  /** A joined session leaves the running count for the place its outcome says. */
  lemma EndedCounts(s: State, q: Query)
    requires s.alive && s.hand.Ended?
    ensures var r, n, o := DoUpdate(s), One(q, s.hand.task), s.hand.outcome;
            && RunningCount(s, q) == RunningCount(r, q) + n && r.given == s.given
            && PendingCount(r, q) == PendingCount(s, q) + (if o.Failed? then n else 0)
            && Count(q, r.quarantined) == Count(q, s.quarantined) + (if o.Panicked? then n else 0)
            && Count(q, r.released) == Count(q, s.released) + (if o.Released? then n else 0)
  {
    hide One, Queued, Settled, ProgressAt, Count;
    var t := s.hand.task;
    CountPush(q, s.released, t);
    CountPush(q, s.pending, t);
    CountPush(q, s.quarantined, t);
  }

  // ---------------------------------------------------------------- the counters

  /** The counters of a scope are right, and within their width. */
  predicate CountedAt(s: State, scope: nat) {
    ProgressAt(s, scope) == Expected(s, scope) && Expected(s, scope).outstanding <= USIZE_MAX
  }

  /** Nothing counted moves and no counter changes. */
  lemma SameKeeps(s: State, r: State, scope: nat)
    requires CountedAt(s, scope) && SameCounts(s, r, InScope(scope)) && r.progress == s.progress && r.guards == s.guards
    ensures CountedAt(r, scope)
  {
    hide PendingCount, RunningCount, Count, Guards;
  }

  lemma DeferKeeps(s: State, x: Session, scope: nat)
    requires CountedAt(s, scope) && Room(s, x.scope)
    ensures CountedAt(DoDefer(s, x), scope)
  {
    hide PendingCount, RunningCount, Count, Guards;
    DeferCounts(s, x, InScope(scope));
  }

  lemma TrackKeeps(s: State, g: nat, scope: nat)
    requires CountedAt(s, scope) && Room(s, g)
    ensures CountedAt(DoTrack(s, g), scope)
  {
    hide Count, Guards, Queued;
    GuardsPush(scope, s.guards, g);
  }

  lemma UntrackKeeps(s: State, i: nat, scope: nat)
    requires CountedAt(s, scope) && CanUntrack(s, i)
    ensures CountedAt(DoUntrack(s, i), scope)
  {
    hide Count, Guards, Queued, Without;
    GuardsWithout(scope, s.guards, i);
  }

  lemma UpdateKeeps(s: State, scope: nat)
    requires CountedAt(s, scope) && CanUpdate(s)
    ensures CountedAt(DoUpdate(s), scope)
  {
    hide PendingCount, RunningCount, Count, Guards;
    if s.hand.Starting? { StartedCounts(s, InScope(scope)); } else { EndedCounts(s, InScope(scope)); }
  }

  lemma StepKeepsCounters(s: State, step: Step, scope: nat)
    requires CountedAt(s, scope) && Can(s, step)
    ensures CountedAt(Do(s, step), scope)
  {
    hide CountedAt, SameCounts;
    var q := InScope(scope);
    match step
    case Defer(x) => DeferKeeps(s, x, scope);
    case Send(i) => SendCounts(s, i, q); SameKeeps(s, DoSend(s, i), scope);
    case SendFails(i) => SendFailsCounts(s, i, q); SameKeeps(s, DoSendFails(s, i), scope);
    case AskRetry(g, deadline) => RetryCounts(s, g, deadline, q); SameKeeps(s, DoRetry(s, g, deadline), scope);
    case Track(g) => TrackKeeps(s, g, scope);
    case Untrack(i) => UntrackKeeps(s, i, scope);
    case Die => DieCounts(s, q); SameKeeps(s, DoDie(s), scope);
    case Receive => ReceiveCounts(s, q); SameKeeps(s, DoReceive(s), scope);
    case Reap(i, outcome) => ReapCounts(s, i, outcome, q); SameKeeps(s, DoReap(s, i, outcome), scope);
    case Start(now, spawns) => StartCounts(s, now, spawns, q); SameKeeps(s, DoStart(s, now, spawns), scope);
    case Update => UpdateKeeps(s, scope);
  }

  predicate ConservedAt(s: State, x: Session) { Located(s, x) == Count(Is(x), s.given) }

  lemma SameConserves(s: State, r: State, x: Session)
    requires ConservedAt(s, x) && SameCounts(s, r, Is(x))
    ensures ConservedAt(r, x)
  {
    hide PendingCount, RunningCount, Count;
  }

  lemma GuardsConserve(s: State, r: State, x: Session)
    requires ConservedAt(s, x) && r.(progress := s.progress, guards := s.guards) == s
    ensures ConservedAt(r, x)
  {
    hide Count, Queued;
  }

  lemma CountingConserves(s: State, x: Session, y: Session)
    requires ConservedAt(s, x)
    ensures ConservedAt(DoDefer(s, y), x)
    ensures CanUpdate(s) ==> ConservedAt(DoUpdate(s), x)
  {
    hide PendingCount, RunningCount, Count, DoDefer, DoUpdate;
    DeferCounts(s, y, Is(x));
    if s.alive && s.hand.Starting? { StartedCounts(s, Is(x)); }
    if s.alive && s.hand.Ended? { EndedCounts(s, Is(x)); }
  }

  lemma StepConserves(s: State, step: Step, x: Session)
    requires ConservedAt(s, x) && Can(s, step)
    ensures ConservedAt(Do(s, step), x)
  {
    hide ConservedAt, SameCounts;
    var q := Is(x);
    match step
    case Defer(y) => CountingConserves(s, x, y);
    case Send(i) => SendCounts(s, i, q); SameConserves(s, DoSend(s, i), x);
    case SendFails(i) => SendFailsCounts(s, i, q); SameConserves(s, DoSendFails(s, i), x);
    case AskRetry(g, deadline) => RetryCounts(s, g, deadline, q); SameConserves(s, DoRetry(s, g, deadline), x);
    case Track(g) => GuardsConserve(s, DoTrack(s, g), x);
    case Untrack(i) => GuardsConserve(s, DoUntrack(s, i), x);
    case Die => DieCounts(s, q); SameConserves(s, DoDie(s), x);
    case Receive => ReceiveCounts(s, q); SameConserves(s, DoReceive(s), x);
    case Reap(i, outcome) => ReapCounts(s, i, outcome, q); SameConserves(s, DoReap(s, i, outcome), x);
    case Start(now, spawns) => StartCounts(s, now, spawns, q); SameConserves(s, DoStart(s, now, spawns), x);
    case Update => CountingConserves(s, x, x);
  }

  // ---------------------------------------------------------------- every run

  /** In every reachable state the counters of every scope are exactly what is there. */
  lemma {:induction false} CountersAreReal(steps: seq<Step>, scope: nat)
    ensures CountedAt(After(START, steps), scope)
  {
    hide Do, Can;
    if steps != [] {
      var s, step := After(START, steps[..|steps| - 1]), steps[|steps| - 1];
      CountersAreReal(steps[..|steps| - 1], scope);
      if Can(s, step) { StepKeepsCounters(s, step, scope); }
    }
  }

  /** In every reachable state every session is somewhere as often as it was deferred: none is lost, none is doubled. */
  lemma {:induction false} SessionsAreConserved(steps: seq<Step>, x: Session)
    ensures ConservedAt(After(START, steps), x)
  {
    hide Do, Can;
    if steps != [] {
      var s, step := After(START, steps[..|steps| - 1]), steps[|steps| - 1];
      SessionsAreConserved(steps[..|steps| - 1], x);
      if Can(s, step) { StepConserves(s, step, x); }
    }
  }

  /** `outstanding = pending + running + quarantined`, always. */
  lemma OutstandingIsTheSum(steps: seq<Step>, scope: nat)
    ensures var p := ProgressAt(After(START, steps), scope); p.outstanding == p.pending + p.running + p.quarantined
  {
    hide After, PendingCount, RunningCount, Count, Guards, ProgressAt;
    CountersAreReal(steps, scope);
  }

  /** No counter that a step decrements is zero, and none that it increments is full. */
  lemma NothingSaturates(steps: seq<Step>, step: Step)
    requires Can(After(START, steps), step)
    ensures var s := After(START, steps);
            match step {
              case Defer(x) => var p := ProgressAt(s, x.scope); p.outstanding < USIZE_MAX && p.pending < USIZE_MAX
              case Track(scope) => var p := ProgressAt(s, scope); p.outstanding < USIZE_MAX && p.running < USIZE_MAX
              case Untrack(i) => var p := ProgressAt(s, s.guards[i]); p.outstanding > 0 && p.running > 0
              case Update =>
                var p := ProgressAt(s, HandScope(s));
                if s.hand.Starting? then p.pending > 0 && p.running < USIZE_MAX
                else p.running > 0 && p.outstanding > 0 && p.pending < USIZE_MAX && p.quarantined < USIZE_MAX
              case _ => true
            }
  {
    hide After, Count, Guards, Queued;
    var s := After(START, steps);
    match step
    case Defer(x) => CountersAreReal(steps, x.scope);
    case Track(scope) => CountersAreReal(steps, scope);
    case Untrack(i) => CountersAreReal(steps, s.guards[i]); GuardsWithout(s.guards[i], s.guards, i);
    case Update => CountersAreReal(steps, HandScope(s));
    case _ =>
  }

  lemma {:induction false} SessionWithinScope(x: Session, ts: seq<Task>)
    ensures Count(Is(x), ts) <= Count(InScope(x.scope), ts)
  {
    if ts != [] { SessionWithinScope(x, ts[..|ts| - 1]); }
  }

  /**
   * A drain that sees nothing outstanding in its scope: no guard is left, and every session counted there is released.
   */
  lemma NothingOutstandingMeansReleased(steps: seq<Step>, x: Session)
    requires ProgressAt(After(START, steps), x.scope).outstanding == 0
    ensures var s := After(START, steps);
            Guards(x.scope, s.guards) == 0 && Count(Is(x), s.released) == Count(Is(x), s.given)
  {
    hide After, Count, Guards, Queued;
    var s := After(START, steps);
    CountersAreReal(steps, x.scope);
    SessionsAreConserved(steps, x);
    SessionWithinScope(x, s.sending);
    SessionWithinScope(x, Queued(s.channel));
    SessionWithinScope(x, s.pending);
    SessionWithinScope(x, s.leaked);
    SessionWithinScope(x, s.workers);
    SessionWithinScope(x, s.quarantined);
  }
}
