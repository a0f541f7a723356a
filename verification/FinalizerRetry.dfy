/** The retry discipline: how often a session may be attempted, and by how many workers at once. */
module FinalizerRetry {
  import opened Text
  import opened Finalizer
  import opened FinalizerConservation

  // ---------------------------------------------------------------- attempts of one session

  predicate Increasing(a: seq<nat>) { forall i, j :: 0 <= i < j < |a| ==> a[i] < a[j] }

  predicate AtMost(a: seq<nat>, e: nat) { forall i :: 0 <= i < |a| ==> a[i] <= e }

  /** Attempts at strictly growing epochs, none after the last one recorded, which is not in the future. */
  predicate Disciplined(t: Task, epoch: nat) {
    && Increasing(t.attempts)
    && (t.last.None? ==> t.attempts == [])
    && (t.last.Some? ==> t.last.value <= epoch && AtMost(t.attempts, t.last.value))
  }

  lemma {:induction false} IncreasingIsShort(a: seq<nat>, e: nat)
    requires Increasing(a) && AtMost(a, e)
    ensures |a| <= 1 + e
  {
    if |a| >= 2 {
      var front, n := a[..|a| - 1], |a| - 2;
      assert a[n] < a[n + 1];
      assert AtMost(front, a[n]);
      IncreasingIsShort(front, a[n]);
    }
  }

  /** A session is attempted at most once more than the epoch of its scope. */
  lemma DisciplinedIsShort(t: Task, epoch: nat)
    requires Disciplined(t, epoch)
    ensures |t.attempts| <= 1 + epoch
  {
    if t.last.Some? { IncreasingIsShort(t.attempts, t.last.value); }
  }

  /** An authorized attempt keeps the discipline: its epoch is newer than all before it. */
  lemma AttemptIsNewer(t: Task, a: Authorization, now: int)
    requires Disciplined(t, a.epoch) && Authorized(t, a, now)
    ensures Disciplined(Attempt(t, a.epoch), a.epoch) && Disciplined(t.(last := Some(a.epoch)), a.epoch)
    ensures forall e :: e in t.attempts ==> e < a.epoch
  {
  }

  lemma DisciplinedLater(t: Task, e: nat, f: nat)
    requires Disciplined(t, e) && e <= f
    ensures Disciplined(t, f)
  {
  }

  // ---------------------------------------------------------------- all sessions

  function EpochAt(authorizations: map<nat, Authorization>, scope: nat): nat {
    At(authorizations, scope, Authorization(0, None)).epoch
  }

  predicate AllDisciplined(ts: seq<Task>, authorizations: map<nat, Authorization>) {
    forall t :: t in ts ==> Disciplined(t, EpochAt(authorizations, t.session.scope))
  }

  predicate AllFresh(ts: seq<Task>) { forall t :: t in ts ==> t.last.None? && t.attempts == [] }

  predicate FreshCommands(cs: seq<Command>) {
    forall c :: c in cs && c.Enqueue? ==> c.task.last.None? && c.task.attempts == []
  }

  function HandTask(h: Hand): seq<Task> { if h.Nothing? then [] else [h.task] }

  /** Epochs count the retry commands, up to the width of the counter. */
  predicate EpochsAreRetries(s: State, scope: nat) {
    EpochAt(s.authorizations, scope) == if At(s.retries, scope, 0) <= USIZE_MAX then At(s.retries, scope, 0)
        else USIZE_MAX
  }

  ghost predicate Epochs(s: State) { forall scope :: EpochsAreRetries(s, scope) }

  predicate Tasks(s: State) {
    && AllFresh(s.sending) && FreshCommands(s.channel) && AllFresh(s.leaked)
    && AllDisciplined(s.pending, s.authorizations) && AllDisciplined(s.workers, s.authorizations)
    && AllDisciplined(HandTask(s.hand), s.authorizations)
    && AllDisciplined(s.quarantined, s.authorizations) && AllDisciplined(s.released, s.authorizations)
  }

  /** At most four workers, counting the one just spawned. */
  predicate WorkerBound(s: State) { |s.workers| + (if s.hand.Starting? then 1 else 0) <= 4 }

  lemma AllLater(ts: seq<Task>, a: map<nat, Authorization>, b: map<nat, Authorization>)
    requires AllDisciplined(ts, a) && forall scope :: EpochAt(a, scope) <= EpochAt(b, scope)
    ensures AllDisciplined(ts, b)
  {
    hide Disciplined, EpochAt;
    forall t | t in ts ensures Disciplined(t, EpochAt(b, t.session.scope)) {
      DisciplinedLater(t, EpochAt(a, t.session.scope), EpochAt(b, t.session.scope));
    }
  }

  lemma ReceiveKeepsTasks(s: State)
    requires Tasks(s) && Epochs(s) && CanReceive(s)
    ensures Tasks(DoReceive(s))
  {
    var r := DoReceive(s);
    assert forall c :: c in r.channel ==> c in s.channel;
    if s.channel[0].Enqueue? {
      hide EpochAt;
      assert s.channel[0] in s.channel;
      assert Disciplined(s.channel[0].task, EpochAt(s.authorizations, s.channel[0].task.session.scope));
    } else {
      assert r.sending == s.sending && r.leaked == s.leaked;
      RetryKeepsTasks(s, r);
    }
  }

  lemma RetryKeepsTasks(s: State, r: State)
    requires Tasks(s) && Epochs(s) && CanReceive(s) && s.channel[0].Retry? && r == DoReceive(s)
    ensures AllDisciplined(r.pending, r.authorizations) && AllDisciplined(r.workers, r.authorizations)
    ensures AllDisciplined(HandTask(r.hand), r.authorizations)
    ensures AllDisciplined(r.quarantined, r.authorizations) && AllDisciplined(r.released, r.authorizations)
  {
    hide AllDisciplined, AllFresh, FreshCommands;
    assert forall scope :: EpochAt(s.authorizations, scope) <= EpochAt(r.authorizations, scope) by { RetryRaises(s); }
    AllLater(s.pending, s.authorizations, r.authorizations);
    AllLater(s.workers, s.authorizations, r.authorizations);
    AllLater(HandTask(s.hand), s.authorizations, r.authorizations);
    AllLater(s.quarantined, s.authorizations, r.authorizations);
    AllLater(s.released, s.authorizations, r.authorizations);
  }

  lemma RetryRaises(s: State)
    requires CanReceive(s) && s.channel[0].Retry?
    requires Epochs(s)
    ensures forall scope :: EpochAt(s.authorizations, scope) <= EpochAt(DoReceive(s).authorizations, scope)
  {
    forall scope ensures EpochAt(s.authorizations, scope) <= EpochAt(DoReceive(s).authorizations, scope) {
      assert EpochsAreRetries(s, scope);
    }
  }

  lemma ReceiveKeepsEpochs(s: State)
    requires Epochs(s) && CanReceive(s)
    ensures Epochs(DoReceive(s))
  {
    forall scope ensures EpochsAreRetries(DoReceive(s), scope) { assert EpochsAreRetries(s, scope); }
  }

  lemma SendKeepsTasks(s: State, i: nat)
    requires Tasks(s) && i < |s.sending|
    ensures CanSend(s, i) ==> Tasks(DoSend(s, i))
    ensures CanLose(s, i) ==> Tasks(DoSendFails(s, i))
  {
    hide AllDisciplined;
    assert forall t :: t in Without(s.sending, i) ==> t in s.sending;
  }

  lemma ReapKeepsTasks(s: State, i: nat, outcome: Outcome)
    requires Tasks(s) && CanReap(s, i)
    ensures Tasks(DoReap(s, i, outcome))
  {
    hide AllFresh, FreshCommands, Disciplined, SwapRemove;
    assert forall t :: t in SwapRemove(s.workers, i) ==> t in s.workers by { SwapRemoveKeeps(s.workers, i); }
  }

  lemma SwapRemoveKeeps(ts: seq<Task>, i: nat)
    requires i < |ts|
    ensures forall t :: t in SwapRemove(ts, i) ==> t in ts
  {
  }

  lemma StartKeepsTasks(s: State, now: int, spawns: bool)
    requires Tasks(s) && CanStart(s)
    ensures Tasks(DoStart(s, now, spawns))
  {
    hide AllFresh, FreshCommands, Disciplined, Attempt;
    var t, rest := s.pending[0], s.pending[1..];
    assert forall u :: u in rest ==> u in s.pending;
    var a := AuthorizationAt(s, t.session.scope);
    assert Disciplined(t, a.epoch);
    if Authorized(t, a, now) {
      AttemptIsNewer(t, a, now);
      AttemptSession(t, a.epoch);
    }
  }

  lemma UpdateKeepsTasks(s: State)
    requires Tasks(s) && CanUpdate(s)
    ensures Tasks(DoUpdate(s))
  {
    hide AllFresh, FreshCommands, Disciplined, Settled;
    assert HandTask(s.hand) == [s.hand.task];
  }

  ghost predicate Inv(s: State) { Tasks(s) && WorkerBound(s) && Epochs(s) }

  lemma SameEpochs(s: State, r: State)
    requires Epochs(s)
    ensures r.authorizations == s.authorizations && r.retries == s.retries ==> Epochs(r)
  {
    if r.authorizations == s.authorizations && r.retries == s.retries {
      forall scope ensures EpochsAreRetries(r, scope) { assert EpochsAreRetries(s, scope); }
    }
  }

  lemma StepKeepsDiscipline(s: State, step: Step)
    requires Inv(s) && Can(s, step)
    ensures Inv(Do(s, step))
  {
    hide Disciplined, EpochAt, Epochs, Tasks;
    SameEpochs(s, Do(s, step));
    match step
    case Defer(x) => CallerKeepsTasks(s, x, x.scope, 0, 0);
    case AskRetry(scope, deadline) => CallerKeepsTasks(s, Session(0, 0), scope, deadline, 0);
    case Track(scope) => CallerKeepsTasks(s, Session(0, 0), scope, 0, 0);
    case Untrack(i) => CallerKeepsTasks(s, Session(0, 0), 0, 0, i);
    case Send(i) => SendKeepsTasks(s, i);
    case SendFails(i) => SendKeepsTasks(s, i);
    case Die => DieKeepsTasks(s);
    case Receive => ReceiveKeepsTasks(s); ReceiveKeepsEpochs(s);
    case Reap(i, outcome) => ReapKeepsTasks(s, i, outcome);
    case Start(now, spawns) => StartKeepsTasks(s, now, spawns);
    case Update => UpdateKeepsTasks(s);
  }

  lemma DieKeepsTasks(s: State)
    requires Tasks(s)
    ensures Tasks(DoDie(s))
  {
    hide AllDisciplined, AllFresh, FreshCommands;
  }

  lemma CallerKeepsTasks(s: State, x: Session, scope: nat, deadline: int, i: nat)
    requires Tasks(s)
    ensures Tasks(DoDefer(s, x)) && Tasks(DoRetry(s, scope, deadline)) && Tasks(DoTrack(s, scope))
    ensures CanUntrack(s, i) ==> Tasks(DoUntrack(s, i))
  {
    hide AllDisciplined;
  }

  lemma {:induction false} RunKeepsDiscipline(steps: seq<Step>)
    ensures Inv(After(START, steps))
  {
    hide Do, Can, Tasks, WorkerBound;
    if steps == [] {
      StartDiscipline();
    } else {
      var s, step := After(START, steps[..|steps| - 1]), steps[|steps| - 1];
      RunKeepsDiscipline(steps[..|steps| - 1]);
      if Can(s, step) { StepKeepsDiscipline(s, step); }
    }
  }

  lemma StartDiscipline()
    ensures Inv(START)
  {
  }

  /** A session that the finalizer has, or has had. */
  predicate Held(s: State, t: Task) {
    t in s.pending || t in s.workers || t in HandTask(s.hand) || t in s.quarantined || t in s.released
  }

  /**
   * Over any run a session is attempted at most once plus once for each retry command of its scope, at growing epochs.
   */
  lemma AttemptsAreBounded(steps: seq<Step>, t: Task)
    requires Held(After(START, steps), t)
    ensures |t.attempts| <= 1 + At(After(START, steps).retries, t.session.scope, 0) && Increasing(t.attempts)
  {
    hide After, HandTask, AllFresh, FreshCommands, Increasing, AtMost;
    RunKeepsDiscipline(steps);
    var s := After(START, steps);
    assert Disciplined(t, EpochAt(s.authorizations, t.session.scope));
    DisciplinedIsShort(t, EpochAt(s.authorizations, t.session.scope));
    assert EpochsAreRetries(s, t.session.scope);
  }

  /** A further attempt starts only at an epoch newer than every attempt before it, before that epoch's deadline. */
  lemma RetryNeedsNewerEpoch(steps: seq<Step>, now: int)
    requires var s := After(START, steps); CanStart(s) && DoStart(s, now, true).hand.Starting?
    ensures var s := After(START, steps);
            var t, a := s.pending[0], AuthorizationAt(s, s.pending[0].session.scope);
            && DoStart(s, now, true).hand.task.attempts == t.attempts + [a.epoch]
            && (forall e :: e in t.attempts ==> e < a.epoch)
            && (t.attempts != [] ==> a.deadline.Some? && now < a.deadline.value)
  {
    hide After, HandTask, AllFresh, FreshCommands, Disciplined;
    RunKeepsDiscipline(steps);
    var s := After(START, steps);
    var t, a := s.pending[0], AuthorizationAt(s, s.pending[0].session.scope);
    assert Disciplined(t, a.epoch);
    AttemptIsNewer(t, a, now);
    FirstAttemptIsFree(t, a.epoch);
  }

  lemma FirstAttemptIsFree(t: Task, epoch: nat)
    requires Disciplined(t, epoch)
    ensures t.last.None? ==> t.attempts == []
  {
  }

  /** At most four workers run at once. */
  lemma AtMostFourWorkers(steps: seq<Step>)
    ensures WorkerBound(After(START, steps))
  {
    hide After, Tasks;
    RunKeepsDiscipline(steps);
  }
}
