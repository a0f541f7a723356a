/** When a scope of the finalizer can still be drained. */
module FinalizerProgress {
  import opened Text
  import opened Finalizer
  import opened FinalizerConservation
  import opened FinalizerRetry
  import opened FinalizerLoop

  /** Joined after a panic and about to be quarantined. */
  predicate Panicking(h: Hand) { h.Ended? && h.outcome.Panicked? }

  /** Sessions that get on only as long as the finalizer thread runs. */
  function Dependent(s: State, q: Query): nat {
    Count(q, s.sending) + Count(q, Queued(s.channel)) + Count(q, s.pending) + Count(q, s.workers)
    + if s.hand.Nothing? || Panicking(s.hand) then 0 else One(q, s.hand.task)
  }

  /**
   * Sessions of the scope that nobody will release any more: lost when the thread was gone, quarantined after a panic,
   * and once the thread is gone all that depended on it.
   */
  function Doomed(s: State, scope: nat): nat {
    Count(InScope(scope), s.leaked) + Count(InScope(scope), s.quarantined)
    + (if Panicking(s.hand) then One(InScope(scope), s.hand.task) else 0)
    + if s.alive then 0 else Dependent(s, InScope(scope))
  }

  // ---------------------------------------------------------------- doomed for good

  lemma DoomedStays(s: State, step: Step, scope: nat)
    requires Can(s, step)
    ensures Doomed(Do(s, step), scope) >= Doomed(s, scope)
  {
    hide Count, One, Queued, AuthorizationAt, Authorized, Attempt, ProgressAt, Settled, Without;
    var q := InScope(scope);
    match step
    case Defer(x) => CountPush(q, s.sending, Task(x, None, []));
    case SendFails(i) => CountPush(q, s.leaked, s.sending[i]); CountWithout(q, s.sending, i);
    case Update => CountPush(q, s.quarantined, s.hand.task);
    case _ =>
  }

  lemma {:induction false} DoomedForGood(s: State, steps: seq<Step>, scope: nat)
    ensures Doomed(After(s, steps), scope) >= Doomed(s, scope)
  {
    hide Do, Can, Doomed;
    if steps != [] {
      var r, step := After(s, steps[..|steps| - 1]), steps[|steps| - 1];
      DoomedForGood(s, steps[..|steps| - 1], scope);
      if Can(r, step) { DoomedStays(r, step, scope); }
    }
  }

  /** A doomed session is outstanding in every later state. */
  lemma DoomedIsOutstanding(before: seq<Step>, steps: seq<Step>, scope: nat)
    requires Doomed(After(START, before), scope) > 0
    ensures ProgressAt(After(After(START, before), steps), scope).outstanding > 0
  {
    hide After, Count, Guards, Queued, One;
    DoomedForGood(After(START, before), steps, scope);
    AfterAppend(START, before, steps);
    CountersAreReal(before + steps, scope);
  }

  // ---------------------------------------------------------------- the measure

  predicate Ours(t: Task, scope: nat) { t.session.scope == scope }

  /** The retry commands of the scope that are on their way. */
  function Retries(cs: seq<Command>, scope: nat): nat {
    if cs == [] then 0
    else Retries(cs[..|cs| - 1], scope) + if cs[|cs| - 1].Retry? && cs[|cs| - 1].scope == scope then 1 else 0
  }

  lemma RetriesPush(cs: seq<Command>, c: Command, scope: nat)
    ensures Retries(cs + [c], scope) == Retries(cs, scope) + if c.Retry? && c.scope == scope then 1 else 0
  {
    assert (cs + [c])[..|cs|] == cs;
  }

  lemma {:induction false} RetriesPop(cs: seq<Command>, scope: nat)
    requires cs != []
    ensures Retries(cs, scope) == (if cs[0].Retry? && cs[0].scope == scope then 1 else 0) + Retries(cs[1..], scope)
  {
    var n := |cs| - 1;
    if n == 0 {
      assert cs[..n] == [] && cs[1..] == [];
    } else {
      RetriesPop(cs[..n], scope);
      assert cs[..n][1..] == cs[1..][..n - 1];
    }
  }

  function Renewed(a: Authorization, c: Command, scope: nat): Authorization {
    if c.Retry? && c.scope == scope then Authorization(SaturatingAdd(a.epoch), Some(c.deadline)) else a
  }

  /** The authorization of the scope once the commands on their way are received. */
  function Coming(a: Authorization, cs: seq<Command>, scope: nat): Authorization {
    if cs == [] then a else Renewed(Coming(a, cs[..|cs| - 1], scope), cs[|cs| - 1], scope)
  }

  lemma ComingPush(a: Authorization, cs: seq<Command>, c: Command, scope: nat)
    ensures Coming(a, cs + [c], scope) == Renewed(Coming(a, cs, scope), c, scope)
  {
    assert (cs + [c])[..|cs|] == cs;
  }

  lemma {:induction false} ComingPop(a: Authorization, cs: seq<Command>, scope: nat)
    requires cs != []
    ensures Coming(a, cs, scope) == Coming(Renewed(a, cs[0], scope), cs[1..], scope)
  {
    hide Renewed;
    var n := |cs| - 1;
    if n == 0 {
      assert cs[..n] == [] && cs[1..] == [];
    } else {
      ComingPop(a, cs[..n], scope);
      assert cs[..n][1..] == cs[1..][..n - 1];
    }
  }

  lemma {:induction false} ComingEpoch(a: Authorization, cs: seq<Command>, scope: nat)
    requires a.epoch <= USIZE_MAX
    ensures a.epoch <= Coming(a, cs, scope).epoch <= a.epoch + Retries(cs, scope)
  {
    if cs != [] { ComingEpoch(a, cs[..|cs| - 1], scope); }
  }

  function ComingAt(s: State, scope: nat): Authorization { Coming(AuthorizationAt(s, scope), s.channel, scope) }

  /** At `now` some task of the scope waits that even the commands on their way do not let start. */
  predicate NeedsRetry(s: State, scope: nat, now: int) {
    exists t :: t in s.pending && Ours(t, scope) && !Authorized(t, ComingAt(s, scope), now)
  }

  /** How many tasks stand before the first of the scope. */
  function Ahead(ts: seq<Task>, scope: nat): nat {
    if ts == [] || Ours(ts[0], scope) then 0 else 1 + Ahead(ts[1..], scope)
  }

  function HandCount(s: State): nat { if s.hand.Nothing? then 0 else 1 }
  function Returning(s: State): nat { if s.hand.Ended? && s.hand.outcome.Failed? then 1 else 0 }

  /** Lexicographic, most significant first. */
  datatype Work = Work(guards: nat, sending: nat, tasks: nat, returning: nat, retry: nat, channel: nat, phase: nat,
      ahead: nat)

  function WorkOf(s: State, scope: nat, now: int): Work {
    Work(|s.guards|, |s.sending|, |Queued(s.channel)| + |s.pending| + |s.workers| + HandCount(s), Returning(s),
         if NeedsRetry(s, scope, now) then 1 else 0, |s.channel|,
         4 * |s.pending| + 2 * |s.workers| + (if s.hand.Starting? then 3 else if s.hand.Ended? then 1 else 0),
         Ahead(s.pending, scope))
  }

  predicate Less(a: Work, b: Work) {
    || a.guards < b.guards
    || (a.guards == b.guards && (a.sending < b.sending
    || (a.sending == b.sending && (a.tasks < b.tasks
    || (a.tasks == b.tasks && (a.returning < b.returning
    || (a.returning == b.returning && (a.retry < b.retry
    || (a.retry == b.retry && (a.channel < b.channel
    || (a.channel == b.channel && (a.phase < b.phase
    || (a.phase == b.phase && a.ahead < b.ahead)))))))))))))
  }

  /** The epoch counter of the scope is not about to saturate. */
  predicate Slack(s: State, scope: nat, now: int) {
    var more := Returning(s) + if NeedsRetry(s, scope, now) then 1 else 0;
    At(s.retries, scope, 0) + Retries(s.channel, scope) + more < USIZE_MAX
  }

  // ---------------------------------------------------------------- steps that do no harm

  /**
   * At the moment `now`: nothing new comes, nothing fails, and a retry, with a deadline that has not passed, is asked
   * for only where one is needed.
   */
  predicate Benign(s: State, step: Step, now: int) {
    match step
    case Untrack(_) => true
    case Send(_) => true
    case Receive => true
    case Update => true
    case Reap(_, o) => o.Released?
    case Start(clock, spawns) => spawns && clock == now
    case AskRetry(scope, deadline) => NeedsRetry(s, scope, now) && now < deadline
    case _ => false
  }

  lemma BenignDoomed(s: State, step: Step, scope: nat, now: int)
    requires Can(s, step) && Benign(s, step, now)
    ensures Doomed(Do(s, step), scope) == Doomed(s, scope)
  {
    hide Count, One, Queued, AuthorizationAt, Authorized, Attempt, ProgressAt, Settled, Without, SwapRemove, NeedsRetry;
    if step.Update? { CountPush(InScope(scope), s.quarantined, s.hand.task); }
  }

  lemma BenignOutstanding(s: State, step: Step, scope: nat, now: int)
    requires Can(s, step) && Benign(s, step, now)
    ensures ProgressAt(Do(s, step), scope).outstanding <= ProgressAt(s, scope).outstanding
  {
    hide AuthorizationAt, Authorized, Attempt, Without, SwapRemove, NeedsRetry;
  }

  /** A step brings the scope closer to zero. */
  predicate Advance(s: State, step: Step, scope: nat, now: int) {
    Can(s, step) && Benign(s, step, now) && Less(WorkOf(Do(s, step), scope, now), WorkOf(s, scope, now))
  }

  /** What a step may do to the need of a retry: nothing, or what the slack allows for. */
  predicate Affords(s: State, r: State, scope: nat, now: int) { Slack(s, scope, now) ==> Slack(r, scope, now) }

  // ---------------------------------------------------------------- moves

  lemma SameRetry(s: State, r: State, scope: nat, now: int)
    requires r.retries == s.retries && r.channel == s.channel && r.authorizations == s.authorizations
    requires Returning(r) <= Returning(s) && forall t :: t in r.pending ==> t in s.pending
    ensures (NeedsRetry(r, scope, now) ==> NeedsRetry(s, scope, now)) && Affords(s, r, scope, now)
  {
    hide Retries, Coming, Authorized;
  }

  lemma UntrackWorks(s: State, scope: nat, now: int)
    requires s.guards != []
    ensures Advance(s, Untrack(0), scope, now)
  {
    hide Queued, NeedsRetry;
    SameRetry(s, DoUntrack(s, 0), scope, now);
  }

  lemma SendRetry(s: State, i: nat, scope: nat, now: int)
    requires CanSend(s, i)
    ensures NeedsRetry(DoSend(s, i), scope, now) == NeedsRetry(s, scope, now) && Affords(s, DoSend(s, i), scope, now)
  {
    hide Retries, Without, Coming, Authorized;
    RetriesPush(s.channel, Enqueue(s.sending[i]), scope);
    ComingPush(AuthorizationAt(s, scope), s.channel, Enqueue(s.sending[i]), scope);
  }

  lemma SendWorks(s: State, scope: nat, now: int)
    requires CanSend(s, 0)
    ensures Advance(s, Send(0), scope, now)
  {
    hide Queued, NeedsRetry;
    SendRetry(s, 0, scope, now);
  }

  lemma ReapWorks(s: State, scope: nat, now: int)
    requires CanReap(s, 0)
    ensures Advance(s, Step.Reap(0, Released), scope, now)
  {
    hide Queued, SwapRemove, NeedsRetry;
    SameRetry(s, DoReap(s, 0, Released), scope, now);
  }

  /** A newer epoch with a deadline in the future lets every task of the scope start. */
  lemma AskSettles(s: State, scope: nat, deadline: int, now: int)
    requires FinalizerRetry.Inv(s) && now < deadline && At(s.retries, scope, 0) + Retries(s.channel, scope) < USIZE_MAX
    ensures !NeedsRetry(DoRetry(s, scope, deadline), scope, now)
  {
    hide Retries, Coming, AllFresh, FreshCommands;
    var r := DoRetry(s, scope, deadline);
    assert EpochsAreRetries(s, scope);
    ComingEpoch(AuthorizationAt(s, scope), s.channel, scope);
    ComingPush(AuthorizationAt(s, scope), s.channel, Retry(scope, deadline), scope);
    forall t | t in r.pending && Ours(t, scope) ensures Authorized(t, ComingAt(r, scope), now) {
      assert Disciplined(t, EpochAt(s.authorizations, scope));
    }
  }

  lemma AskSlack(s: State, ours: nat, deadline: int, scope: nat, now: int)
    requires FinalizerRetry.Inv(s) && NeedsRetry(s, ours, now) && now < deadline && Slack(s, scope, now)
    ensures Slack(DoRetry(s, ours, deadline), scope, now)
  {
    hide FinalizerRetry.Inv, Retries, Coming, Authorized;
    RetriesPush(s.channel, Retry(ours, deadline), scope);
    ComingPush(AuthorizationAt(s, scope), s.channel, Retry(ours, deadline), scope);
    if ours == scope { AskSettles(s, scope, deadline, now); }
  }

  lemma AskWorks(s: State, scope: nat, now: int)
    requires FinalizerRetry.Inv(s) && s.alive && NeedsRetry(s, scope, now) && Slack(s, scope, now)
    ensures Advance(s, AskRetry(scope, now + 1), scope, now)
  {
    hide FinalizerRetry.Inv, Queued, NeedsRetry, Retries;
    QueuedPush(s.channel, Retry(scope, now + 1));
    AskSettles(s, scope, now + 1, now);
  }

  lemma UpdateRetry(s: State, scope: nat, now: int)
    requires CanUpdate(s)
    ensures Affords(s, DoUpdate(s), scope, now)
    ensures DoUpdate(s).pending == s.pending ==> (NeedsRetry(DoUpdate(s), scope, now) ==> NeedsRetry(s, scope, now))
  {
    hide ProgressAt, Settled, Retries, Coming, Authorized;
    var r := DoUpdate(s);
    if r.pending == s.pending { SameRetry(s, r, scope, now); }
  }

  lemma UpdateWorks(s: State, scope: nat, now: int)
    requires CanUpdate(s)
    ensures Advance(s, Update, scope, now)
  {
    hide Queued, ProgressAt, Settled, NeedsRetry;
    UpdateRetry(s, scope, now);
  }

  /** What is on its way counts as received already, and a new task needs no retry. */
  lemma ReceiveRetry(s: State, scope: nat, now: int)
    requires FinalizerRetry.Inv(s) && CanReceive(s)
    ensures ComingAt(DoReceive(s), scope) == ComingAt(s, scope)
    ensures (NeedsRetry(DoReceive(s), scope, now) ==> NeedsRetry(s, scope, now)) && Affords(s, DoReceive(s), scope, now)
  {
    hide Epochs, AllDisciplined, AllFresh, Retries, Coming;
    var r := DoReceive(s);
    assert s.channel[0] in s.channel;
    ComingPop(AuthorizationAt(s, scope), s.channel, scope);
    RetriesPop(s.channel, scope);
    if NeedsRetry(r, scope, now) {
      var t :| t in r.pending && Ours(t, scope) && !Authorized(t, ComingAt(r, scope), now);
      assert t in s.pending;
    }
  }

  lemma ReceiveWorks(s: State, scope: nat, now: int)
    requires FinalizerRetry.Inv(s) && CanReceive(s)
    ensures Advance(s, Receive, scope, now)
  {
    hide Queued, FinalizerRetry.Inv, NeedsRetry;
    QueuedPop(s.channel);
    ReceiveRetry(s, scope, now);
  }

  lemma StartWorks(s: State, scope: nat, now: int)
    requires CanStart(s) && s.workers == []
    requires Authorized(s.pending[0], AuthorizationAt(s, s.pending[0].session.scope), now)
    ensures Advance(s, Step.Start(now, true), scope, now)
  {
    hide Queued, Attempt, NeedsRetry, Authorized;
    var r := DoStart(s, now, true);
    assert r.hand.Starting? && r.pending == s.pending[1..];
    SameRetry(s, r, scope, now);
  }

  lemma {:induction false} AheadRotates(ts: seq<Task>, t: Task, scope: nat)
    requires exists u :: u in ts && Ours(u, scope)
    ensures Ahead(ts + [t], scope) == Ahead(ts, scope)
  {
    if !Ours(ts[0], scope) {
      assert (ts + [t])[1..] == ts[1..] + [t];
      AheadRotates(ts[1..], t, scope);
    }
  }

  lemma RotateWorks(s: State, scope: nat, now: int)
    requires CanStart(s) && !Authorized(s.pending[0], AuthorizationAt(s, s.pending[0].session.scope), now)
    requires !Ours(s.pending[0], scope) && exists t :: t in s.pending && Ours(t, scope)
    ensures Advance(s, Step.Start(now, true), scope, now)
  {
    hide Queued, Attempt, NeedsRetry, Authorized;
    var r, t := DoStart(s, now, true), s.pending[0];
    assert r == s.(pending := s.pending[1..] + [t]);
    SameRetry(s, r, scope, now);
    AheadRotates(s.pending[1..], t, scope);
  }

  /** The slack of every scope survives a benign step. */
  lemma BenignSlack(s: State, step: Step, scope: nat, now: int)
    requires FinalizerRetry.Inv(s) && Can(s, step) && Benign(s, step, now) && Slack(s, scope, now)
    ensures Slack(Do(s, step), scope, now)
  {
    hide FinalizerRetry.Inv, Slack, NeedsRetry;
    match step
    case Untrack(i) => SameRetry(s, DoUntrack(s, i), scope, now);
    case Send(i) => SendRetry(s, i, scope, now);
    case Receive => ReceiveRetry(s, scope, now);
    case Update => UpdateRetry(s, scope, now);
    case Reap(i, o) => SameRetry(s, DoReap(s, i, o), scope, now);
    case AskRetry(ours, deadline) => AskSlack(s, ours, deadline, scope, now);
    case Start(clock, spawns) => StartSlack(s, scope, now);
  }

  lemma StartSlack(s: State, scope: nat, now: int)
    requires CanStart(s) && Slack(s, scope, now)
    ensures Slack(DoStart(s, now, true), scope, now)
  {
    hide Authorized, Attempt, Slack, NeedsRetry;
    SameRetry(s, DoStart(s, now, true), scope, now);
  }

  // ---------------------------------------------------------------- all moves

  /** Nothing of the scope is under way, or the thread that would move it is gone. */
  predicate Cleared(s: State, scope: nat) {
    && s.guards == []
    && (s.alive ==>
          && s.hand.Nothing? && s.sending == [] && s.channel == [] && s.workers == []
          && forall t :: t in s.pending ==> !Ours(t, scope))
  }

  lemma NextMove(s: State, scope: nat, now: int) returns (step: Step)
    requires FinalizerRetry.Inv(s) && Slack(s, scope, now) && !Cleared(s, scope)
    ensures Advance(s, step, scope, now)
  {
    hide FinalizerRetry.Inv, Slack, Advance, Authorized;
    if s.guards != [] {
      UntrackWorks(s, scope, now);
      step := Untrack(0);
    } else if !s.hand.Nothing? {
      UpdateWorks(s, scope, now);
      step := Update;
    } else if s.sending != [] {
      SendWorks(s, scope, now);
      step := Send(0);
    } else if s.channel != [] {
      ReceiveWorks(s, scope, now);
      step := Receive;
    } else if s.workers != [] {
      ReapWorks(s, scope, now);
      step := Step.Reap(0, Released);
    } else if Authorized(s.pending[0], AuthorizationAt(s, s.pending[0].session.scope), now) {
      StartWorks(s, scope, now);
      step := Step.Start(now, true);
    } else if Ours(s.pending[0], scope) {
      assert ComingAt(s, scope) == AuthorizationAt(s, scope);
      assert NeedsRetry(s, scope, now);
      AskWorks(s, scope, now);
      step := AskRetry(scope, now + 1);
    } else {
      RotateWorks(s, scope, now);
      step := Step.Start(now, true);
    }
  }

  lemma {:induction false} NoneOurs(ts: seq<Task>, scope: nat)
    requires forall t :: t in ts ==> !Ours(t, scope)
    ensures Count(InScope(scope), ts) == 0
  {
    if ts != [] {
      assert ts[|ts| - 1] in ts;
      NoneOurs(ts[..|ts| - 1], scope);
    }
  }

  lemma ClearedIsZero(s: State, scope: nat)
    requires Cleared(s, scope) && Doomed(s, scope) == 0 && CountedAt(s, scope)
    ensures ProgressAt(s, scope).outstanding == 0
  {
    if s.alive { NoneOurs(s.pending, scope); }
  }

  lemma AfterFirst(s: State, step: Step, rest: seq<Step>)
    ensures After(s, [step] + rest) == After(Next(s, step), rest)
  {
    hide Next;
    AfterAppend(s, [step], rest);
    assert [step][..0] == [];
    assert After(s, []) == s;
  }

  /** What stays true, for a scope, along benign steps. */
  predicate Sound(s: State, scope: nat, now: int) {
    CountedAt(s, scope) && Slack(s, scope, now) && Doomed(s, scope) == 0
  }

  lemma BenignSound(s: State, step: Step, scope: nat, now: int)
    requires FinalizerRetry.Inv(s) && Can(s, step) && Benign(s, step, now) && Sound(s, scope, now)
    ensures Sound(Do(s, step), scope, now)
  {
    hide FinalizerRetry.Inv, CountedAt, Slack, Doomed, Can, Do, Benign;
    StepKeepsCounters(s, step, scope);
    BenignSlack(s, step, scope, now);
    BenignDoomed(s, step, scope, now);
  }

  // ---------------------------------------------------------------- runs with a clock

  /** The thread's readings of the clock start at `now` or later and do not go back. */
  predicate OrderedFrom(steps: seq<Step>, now: int) {
    && (forall i :: 0 <= i < |steps| && steps[i].Start? ==> now <= steps[i].now)
    && (forall i, j :: 0 <= i < j < |steps| && steps[i].Start? && steps[j].Start? ==> steps[i].now <= steps[j].now)
  }

  /** All readings are `now`. */
  predicate AtOnce(steps: seq<Step>, now: int) { forall step :: step in steps && step.Start? ==> step.now == now }

  lemma AtOnceIsOrdered(steps: seq<Step>, now: int)
    requires AtOnce(steps, now)
    ensures OrderedFrom(steps, now)
  {
    assert forall i :: 0 <= i < |steps| ==> steps[i] in steps;
  }

  /** Clearing one scope leaves the others sound, and those that are clear stay clear. */
  lemma {:induction false} StillClearable(s: State, scope: nat, others: set<nat>, now: int) returns (steps: seq<Step>)
    requires FinalizerRetry.Inv(s) && Sound(s, scope, now) && forall o :: o in others ==> Sound(s, o, now)
    ensures AtOnce(steps, now)
    ensures var r := After(s, steps);
            && FinalizerRetry.Inv(r) && ProgressAt(r, scope).outstanding == 0
            && forall o :: o in others ==>
                Sound(r, o, now) && ProgressAt(r, o).outstanding <= ProgressAt(s, o).outstanding
    decreases WorkOf(s, scope, now).guards, WorkOf(s, scope, now).sending, WorkOf(s, scope, now).tasks,
      WorkOf(s, scope, now).returning, WorkOf(s, scope, now).retry, WorkOf(s, scope, now).channel,
      WorkOf(s, scope, now).phase, WorkOf(s, scope, now).ahead
  {
    hide FinalizerRetry.Inv, CountedAt, Slack, Doomed, Cleared, WorkOf, Do, Can, ProgressAt, NeedsRetry;
    if Cleared(s, scope) {
      steps := [];
      ClearedIsZero(s, scope);
    } else {
      var step := NextMove(s, scope, now);
      var r := Do(s, step);
      StepKeepsDiscipline(s, step);
      BenignSound(s, step, scope, now);
      forall o | o in others ensures Sound(r, o, now) && ProgressAt(r, o).outstanding <= ProgressAt(s, o).outstanding {
        BenignSound(s, step, o, now);
        BenignOutstanding(s, step, o, now);
      }
      var rest := StillClearable(r, scope, others, now);
      AfterFirst(s, step, rest);
      steps := [step] + rest;
    }
  }

  ghost predicate AllClear(s: State, scopes: set<nat>) {
    forall scope :: scope in scopes ==> ProgressAt(s, scope).outstanding == 0
  }

  lemma {:induction false} StillAllClearable(
    s: State, scopes: set<nat>, done: set<nat>, now: int) returns (steps: seq<Step>)
    requires FinalizerRetry.Inv(s) && (forall o :: o in scopes + done ==> Sound(s, o, now)) && AllClear(s, done)
    ensures AtOnce(steps, now) && AllClear(After(s, steps), scopes + done)
    decreases |scopes|
  {
    hide FinalizerRetry.Inv, Sound, ProgressAt;
    if scopes == {} {
      steps := [];
      assert scopes + done == done;
    } else {
      var scope :| scope in scopes;
      var first := StillClearable(s, scope, scopes + done, now);
      var r := After(s, first);
      var rest := StillAllClearable(r, scopes - {scope}, done + {scope}, now);
      assert scopes - {scope} + (done + {scope}) == scopes + done;
      AfterAppend(s, first, rest);
      steps := first + rest;
    }
  }

  /** From the clock reading `now` on, some continuation clears the scopes. */
  ghost predicate Clearable(s: State, scopes: set<nat>, now: int) {
    exists steps :: OrderedFrom(steps, now) && AllClear(After(s, steps), scopes)
  }

  /**
   * After any run and at any time, some scopes can still be drained to zero together, on a clock that does not go back,
   * if and only if none of them has a doomed session: a fresh retry with a vault that answers clears everything else,
   * also when the deadline of an earlier one has passed. The epoch counters must not be about to saturate.
   */
  lemma ClearableExactly(before: seq<Step>, scopes: set<nat>, now: int)
    requires forall scope :: scope in scopes ==> Slack(After(START, before), scope, now)
    ensures Clearable(After(START, before), scopes, now)
        <==> forall scope :: scope in scopes ==> Doomed(After(START, before), scope) == 0
  {
    hide After, FinalizerRetry.Inv, Slack, Doomed, ProgressAt, CountedAt, OrderedFrom;
    var s := After(START, before);
    if forall scope :: scope in scopes ==> Doomed(s, scope) == 0 {
      RunKeepsDiscipline(before);
      forall scope | scope in scopes ensures Sound(s, scope, now) { CountersAreReal(before, scope); }
      var steps := StillAllClearable(s, scopes, {}, now);
      assert scopes + {} == scopes;
      AtOnceIsOrdered(steps, now);
      assert AllClear(After(s, steps), scopes);
    } else {
      var scope :| scope in scopes && Doomed(s, scope) != 0;
      forall steps ensures !AllClear(After(s, steps), scopes) { DoomedIsOutstanding(before, steps, scope); }
    }
  }
}
