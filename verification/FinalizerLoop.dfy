/** The loops of the finalizer thread, as the code runs them, and their reading as steps of the state machine. */
module FinalizerLoop {
  import opened Text
  import opened Finalizer

  /** The thread's variables and the shared counters. */
  datatype Local = Local(
    pending: seq<Task>, workers: seq<Task>, authorizations: map<nat, Authorization>, progress: map<nat, Progress>)

  /** What a turn of the pass meets: the clock, and whether a thread can be spawned. */
  datatype Turn = Turn(now: int, spawns: bool)

  /** Whether a worker is finished, and how it ended. */
  type Ends = Task -> Option<Outcome>

  function Progressed(l: Local, h: Hand): map<nat, Progress>
    requires !h.Nothing?
  {
    var scope := h.task.session.scope;
    l.progress[scope := Settled(At(l.progress, scope, ZERO), h)]
  }

  /** One finished worker joined. */
  function Joined(l: Local, i: nat, o: Outcome): Local
    requires i < |l.workers|
  {
    var t := l.workers[i];
    l.(workers := SwapRemove(l.workers, i), progress := Progressed(l, Ended(t, o)),
       pending := if o.Failed? then l.pending + [t] else l.pending)
  }

  /** `reap_credential_release_workers` from index `i`. */
  function Reaped(l: Local, i: nat, ends: Ends): Local
    decreases |l.workers| - i
  {
    if i >= |l.workers| then l
    else
      var o := ends(l.workers[i]);
      if o.None? then Reaped(l, i + 1, ends) else Reaped(Joined(l, i, o.value), i, ends)
  }

  /** One turn of the pass over the queue. */
  function Turned(l: Local, turn: Turn): Local
    requires l.pending != []
  {
    var t, rest := l.pending[0], l.pending[1..];
    var a := At(l.authorizations, t.session.scope, Authorization(0, None));
    if |l.workers| >= MAX_WORKERS || !Authorized(t, a, turn.now) then l.(pending := rest + [t])
    else if turn.spawns then
      l.(pending := rest, workers := l.workers + [Attempt(t, a.epoch)], progress := Progressed(l, Starting(t)))
    else l.(pending := rest + [t.(last := Some(a.epoch))])
  }

  function Passed(l: Local, n: nat, k: nat, turns: nat -> Turn): Local
    requires n <= |l.pending|
    decreases n
  {
    if n == 0 then l else Passed(Turned(l, turns(k)), n - 1, k + 1, turns)
  }

  class FinalizerThread {
    var pending: seq<Task>
    var workers: seq<Task>
    var authorizations: map<nat, Authorization>
    var progress: map<nat, Progress>

    function View(): Local
      reads this
    {
      Local(pending, workers, authorizations, progress)
    }

    method UpdateProgress(h: Hand)
      requires !h.Nothing?
      modifies this`progress
      ensures View() == old(View()).(progress := Progressed(old(View()), h))
    {
      var scope := h.task.session.scope;
      var p := if scope in progress then progress[scope] else ZERO;
      progress := progress[scope := Settled(p, h)];
    }

    /** `apply_credential_finalizer_command` */
    method Apply(c: Command)
      modifies this`pending, this`authorizations
      ensures c.Enqueue? ==> View() == old(View()).(pending := old(pending) + [c.task])
      ensures c.Retry? ==>
        View() == old(View()).(authorizations := old(authorizations)[c.scope :=
          Authorization(SaturatingAdd(At(old(authorizations), c.scope, Authorization(0, None)).epoch),
              Some(c.deadline))])
    {
      match c
      case Enqueue(t) => pending := pending + [t];
      case Retry(scope, deadline) =>
        var epoch := if scope in authorizations then authorizations[scope].epoch else 0;
        authorizations := authorizations[scope := Authorization(SaturatingAdd(epoch), Some(deadline))];
    }

    /** `reap_credential_release_workers` */
    method Reap(ends: Ends)
      modifies this
      ensures View() == Reaped(old(View()), 0, ends)
    {
      var index := 0;
      while index < |workers|
        invariant Reaped(View(), index, ends) == Reaped(old(View()), 0, ends)
        decreases |workers| - index
      {
        var o := ends(workers[index]);
        if o.None? {
          index := index + 1;
        } else {
          ghost var before := View();
          var t := workers[index];
          workers := SwapRemove(workers, index);
          if o.value.Failed? { pending := pending + [t]; }
          UpdateProgress(Ended(t, o.value));
          assert View() == Joined(before, index, o.value);
        }
      }
    }

    /** The pass over the pending queue in `run_credential_release_finalizer`. */
    method Pass(turns: nat -> Turn)
      modifies this
      ensures View() == Passed(old(View()), |old(pending)|, 0, turns)
    {
      var count := |pending|;
      for k := 0 to count
        invariant count - k <= |pending|
        invariant Passed(View(), count - k, k, turns) == Passed(old(View()), count, 0, turns)
      {
        ghost var before := View();
        TakeTurn(turns(k));
      }
    }

    method TakeTurn(turn: Turn)
      requires pending != []
      modifies this
      ensures View() == Turned(old(View()), turn) && |pending| >= |old(pending)| - 1
    {
      var t := pending[0];
      pending := pending[1..];
      var a := if t.session.scope in authorizations then authorizations[t.session.scope] else Authorization(0, None);
      if |workers| >= MAX_WORKERS || !Authorized(t, a, turn.now) {
        pending := pending + [t];
      } else if turn.spawns {
        UpdateProgress(Starting(t));
        workers := workers + [Attempt(t, a.epoch)];
      } else {
        pending := pending + [t.(last := Some(a.epoch))];
      }
    }
  }

  // ---------------------------------------------------------------- reaping

  /** After reaping, no finished worker is left. */
  lemma {:induction false} ReapedAll(l: Local, i: nat, ends: Ends)
    requires i <= |l.workers| && forall k :: 0 <= k < i ==> ends(l.workers[k]).None?
    ensures forall t :: t in Reaped(l, i, ends).workers ==> ends(t).None?
    decreases |l.workers| - i
  {
    hide Progressed;
    if i < |l.workers| {
      var o := ends(l.workers[i]);
      if o.None? { ReapedAll(l, i + 1, ends); } else { ReapedAll(Joined(l, i, o.value), i, ends); }
    }
  }

  // ---------------------------------------------------------------- the order of the queue

  function Sessions(ts: seq<Task>): seq<Session> {
    seq(|ts|, i requires 0 <= i < |ts| => ts[i].session)
  }

  lemma SessionsAppend(a: seq<Task>, b: seq<Task>)
    ensures Sessions(a + b) == Sessions(a) + Sessions(b)
  {
  }

  lemma SessionsPush(ts: seq<Task>, t: Task)
    ensures Sessions(ts + [t]) == Sessions(ts) + [t.session]
  {
    SessionsAppend(ts, [t]);
    assert Sessions([t]) == [t.session];
  }

  lemma SessionsTail(ts: seq<Task>)
    requires ts != []
    ensures |Sessions(ts)| == |ts| && Sessions(ts)[0] == ts[0].session && Sessions(ts[1..]) == Sessions(ts)[1..]
  {
  }

  /** The elements marked `b`, in order. */
  function Select(xs: seq<Session>, marks: seq<bool>, b: bool): seq<Session>
    requires |xs| == |marks|
  {
    if xs == [] then [] else (if marks[0] == b then [xs[0]] else []) + Select(xs[1..], marks[1..], b)
  }

  predicate Starts(l: Local, turn: Turn)
    requires l.pending != []
  {
    var t := l.pending[0];
    && |l.workers| < MAX_WORKERS && turn.spawns
    && Authorized(t, At(l.authorizations, t.session.scope, Authorization(0, None)), turn.now)
  }

  /** Which of the first `n` sessions a pass starts. */
  function Marks(l: Local, n: nat, k: nat, turns: nat -> Turn): (m: seq<bool>)
    requires n <= |l.pending|
    ensures |m| == n
    decreases n
  {
    if n == 0 then [] else [Starts(l, turns(k))] + Marks(Turned(l, turns(k)), n - 1, k + 1, turns)
  }

  lemma TurnSplits(l: Local, turn: Turn)
    requires l.pending != []
    ensures var r, x := Turned(l, turn), [l.pending[0].session];
            && Sessions(r.pending) == Sessions(l.pending[1..]) + (if Starts(l, turn) then [] else x)
            && Sessions(r.workers) == Sessions(l.workers) + (if Starts(l, turn) then x else [])
            && |r.pending| >= |l.pending| - 1
  {
    hide Progressed, Authorized, Sessions, Attempt;
    var t, rest := l.pending[0], l.pending[1..];
    var a := At(l.authorizations, t.session.scope, Authorization(0, None));
    SessionsPush(rest, t);
    SessionsPush(rest, t.(last := Some(a.epoch)));
    SessionsPush(l.workers, Attempt(t, a.epoch));
    AttemptSession(t, a.epoch);
    assert Sessions(rest) + [] == Sessions(rest) && Sessions(l.workers) + [] == Sessions(l.workers);
  }

  /**
   * A pass over the first `n` tasks: the ones it does not start keep their order, behind the ones it did not
   * look at, and the ones it starts join the workers in order. Together they are the sessions that were there.
   */
  lemma {:induction false} PassSplits(l: Local, n: nat, k: nat, turns: nat -> Turn)
    requires n <= |l.pending|
    ensures var r, xs, m := Passed(l, n, k, turns), Sessions(l.pending), Marks(l, n, k, turns);
            && Sessions(r.pending) == xs[n..] + Select(xs[..n], m, false)
            && Sessions(r.workers) == Sessions(l.workers) + Select(xs[..n], m, true)
    decreases n
  {
    hide Turned, Starts, Sessions, Select;
    var xs := Sessions(l.pending);
    if n == 0 {
      SelectNothing();
      assert xs[..0] == [] && xs[0..] == xs;
    } else {
      var turn := turns(k);
      TurnSplits(l, turn);
      var l1, starts := Turned(l, turn), Starts(l, turn);
      var ys, m := Sessions(l1.pending), Marks(l1, n - 1, k + 1, turns);
      SessionsTail(l.pending);
      PassSplits(l1, n - 1, k + 1, turns);
      SplitStep(xs, ys, n, starts, m);
    }
  }

  lemma SelectNothing()
    ensures forall b :: Select([], [], b) == []
  {
  }

  lemma SplitStep(xs: seq<Session>, ys: seq<Session>, n: nat, starts: bool, m: seq<bool>)
    requires 0 < n <= |xs| && |m| == n - 1 && ys == xs[1..] + (if starts then [] else [xs[0]])
    ensures ys[n - 1..] == xs[n..] + (if starts then [] else [xs[0]])
    ensures Select(xs[..n], [starts] + m, false) == (if starts then [] else [xs[0]]) + Select(ys[..n - 1], m, false)
    ensures Select(xs[..n], [starts] + m, true) == (if starts then [xs[0]] else []) + Select(ys[..n - 1], m, true)
  {
    hide Select;
    assert ys[..n - 1] == xs[..n][1..];
    SelectCons(xs[..n], starts, m, false);
    SelectCons(xs[..n], starts, m, true);
  }

  lemma SelectCons(xs: seq<Session>, mark: bool, m: seq<bool>, b: bool)
    requires |xs| == |m| + 1
    ensures Select(xs, [mark] + m, b) == (if mark == b then [xs[0]] else []) + Select(xs[1..], m, b)
  {
    assert ([mark] + m)[1..] == m;
  }

  /** A pass leaves room for at most four workers. */
  lemma {:induction false} PassBound(l: Local, n: nat, k: nat, turns: nat -> Turn)
    requires n <= |l.pending| && |l.workers| <= 4
    ensures |Passed(l, n, k, turns).workers| <= 4
    decreases n
  {
    hide Progressed, Authorized;
    if n > 0 { PassBound(Turned(l, turns(k)), n - 1, k + 1, turns); }
  }

  /** The first attempt needs nothing; another one needs a retry since the last attempt that has not run out. */
  predicate MayTry(t: Task, a: Authorization, now: int) {
    match (t.last, a.deadline)
    case (None, _) => true
    case (Some(_), None) => false
    case (Some(epoch), Some(deadline)) => epoch < a.epoch && now < deadline
  }

  /** The `i`-th task of the queue may be attempted when its turn comes, and a thread can be spawned for it. */
  predicate Ready(l: Local, i: nat, k: nat, turns: nat -> Turn)
    requires i < |l.pending|
  {
    var t := l.pending[i];
    turns(k + i).spawns && MayTry(t, At(l.authorizations, t.session.scope, Authorization(0, None)), turns(k + i).now)
  }

  /** How many of the first `i` are. */
  function ReadyBefore(l: Local, i: nat, k: nat, turns: nat -> Turn): (c: nat)
    requires i <= |l.pending|
    ensures c <= i
  {
    if i == 0 then 0 else ReadyBefore(l, i - 1, k, turns) + if Ready(l, i - 1, k, turns) then 1 else 0
  }

  function Free(l: Local): nat { if |l.workers| >= 4 then 0 else 4 - |l.workers| }

  /** After one turn the next tasks are the same, one place further, and a place is gone if the turn started one. */
  lemma TurnMovesOn(l: Local, k: nat, turns: nat -> Turn)
    requires l.pending != []
    ensures var r := Turned(l, turns(k));
            && |r.pending| >= |l.pending| - 1 && r.authorizations == l.authorizations
            && (forall i :: 0 < i < |l.pending| ==> r.pending[i - 1] == l.pending[i])
            && Starts(l, turns(k)) == (Ready(l, 0, k, turns) && Free(l) > 0)
            && Free(r) == Free(l) - if Starts(l, turns(k)) then 1 else 0
  {
    hide Progressed, Attempt;
  }

  lemma {:induction false} ReadyMovesOn(l: Local, i: nat, k: nat, turns: nat -> Turn)
    requires 0 < i <= |l.pending| && i - 1 <= |Turned(l, turns(k)).pending|
    ensures ReadyBefore(l, i, k, turns) ==
      (if Ready(l, 0, k, turns) then 1 else 0) + ReadyBefore(Turned(l, turns(k)), i - 1, k + 1, turns)
  {
    hide Turned, Authorized;
    TurnMovesOn(l, k, turns);
    if i > 1 {
      ReadyMovesOn(l, i - 1, k, turns);
      assert k + (i - 1) == k + 1 + (i - 2);
    }
  }

  /**
   * Exactly which sessions a pass starts: a session is started if and only if it may be attempted when its turn comes,
   * a thread can be spawned, and fewer such sessions stand before it than there are free places. So no free place is
   * left while one of them waits.
   */
  lemma {:induction false} PassStartsExactly(l: Local, n: nat, k: nat, turns: nat -> Turn, i: nat)
    requires i < n <= |l.pending|
    ensures Marks(l, n, k, turns)[i] <==> Ready(l, i, k, turns) && ReadyBefore(l, i, k, turns) < Free(l)
    decreases n
  {
    hide Turned, Authorized, Starts, Free;
    TurnMovesOn(l, k, turns);
    if i > 0 {
      var r := Turned(l, turns(k));
      PassStartsExactly(r, n - 1, k + 1, turns, i - 1);
      ReadyMovesOn(l, i, k, turns);
      assert k + i == k + 1 + (i - 1);
    }
  }

  /** A turn that tried a session, whether or not its thread could be spawned, has used up the epoch for it. */
  lemma TurnUsesEpoch(l: Local, turn: Turn, now: int)
    requires l.pending != [] && |l.workers| < MAX_WORKERS
    requires var t := l.pending[0]; MayTry(t, At(l.authorizations, t.session.scope, Authorization(0, None)), turn.now)
    ensures var r, t := Turned(l, turn), l.pending[0];
            var a := At(r.authorizations, t.session.scope, Authorization(0, None));
            var tried := if turn.spawns then r.workers[|r.workers| - 1] else r.pending[|r.pending| - 1];
            tried.session == t.session && !MayTry(tried, a, now)
  {
    hide Progressed;
  }

  // ---------------------------------------------------------------- the loops are runs of the state machine

  function LocalOf(s: State): Local { Local(s.pending, s.workers, s.authorizations, s.progress) }

  lemma {:induction false} AfterAppend(s: State, a: seq<Step>, b: seq<Step>)
    ensures After(s, a + b) == After(After(s, a), b)
  {
    hide Next;
    if b == [] {
      assert a + b == a;
    } else {
      var ab := a + b;
      assert ab[..|ab| - 1] == a + b[..|b| - 1];
      AfterAppend(s, a, b[..|b| - 1]);
    }
  }

  lemma TwoSteps(s: State, x: Step, y: Step)
    ensures After(s, [x, y]) == Next(Next(s, x), y)
  {
    hide Next;
    assert [x, y][..1] == [x] && [x][..0] == [];
    assert After(s, [x]) == Next(After(s, []), x);
  }

  lemma TurnIsSteps(s: State, turn: Turn)
    requires s.alive && s.hand.Nothing? && s.pending != []
    ensures var r := After(s, [Step.Start(turn.now, turn.spawns), Update]);
            LocalOf(r) == Turned(LocalOf(s), turn) && r.hand.Nothing? && r.alive
  {
    UpdateEmptiesHand();
    assert DoStart(s, turn.now, turn.spawns).alive;
    hide Authorized, Attempt, Can, Do, DoStart, DoUpdate;
    var step := Step.Start(turn.now, turn.spawns);
    TwoSteps(s, step, Update);
    assert Next(s, step) == DoStart(s, turn.now, turn.spawns) by { NextStart(s, turn); }
    NextUpdate(DoStart(s, turn.now, turn.spawns));
    StartThenUpdate(s, turn);
  }

  lemma NextStart(s: State, turn: Turn)
    requires CanStart(s)
    ensures Next(s, Step.Start(turn.now, turn.spawns)) == DoStart(s, turn.now, turn.spawns)
  {
    hide DoStart;
  }

  lemma NextUpdate(s: State)
    ensures Next(s, Update) == if CanUpdate(s) then DoUpdate(s) else s
  {
    hide DoUpdate;
  }

  lemma UpdateEmptiesHand()
    ensures forall s :: CanUpdate(s) ==> DoUpdate(s).hand.Nothing? && DoUpdate(s).alive
  {
  }

  lemma StartThenUpdate(s: State, turn: Turn)
    requires CanStart(s)
    ensures var r := DoStart(s, turn.now, turn.spawns);
            LocalOf(if CanUpdate(r) then DoUpdate(r) else r) == Turned(LocalOf(s), turn)
  {
    hide Authorized, Attempt;
    AttemptSession(s.pending[0], AuthorizationAt(s, s.pending[0].session.scope).epoch);
  }

  lemma JoinIsSteps(s: State, i: nat, o: Outcome)
    requires s.alive && s.hand.Nothing? && i < |s.workers|
    ensures var r := After(s, [Step.Reap(i, o), Update]);
            LocalOf(r) == Joined(LocalOf(s), i, o) && r.hand.Nothing? && r.alive
  {
    hide SwapRemove;
    TwoSteps(s, Step.Reap(i, o), Update);
  }

  /** The pass of the code is a run of the state machine. */
  lemma {:induction false} PassIsARun(s: State, n: nat, k: nat, turns: nat -> Turn) returns (steps: seq<Step>)
    requires s.alive && s.hand.Nothing? && n <= |s.pending|
    ensures LocalOf(After(s, steps)) == Passed(LocalOf(s), n, k, turns) && After(s, steps).hand.Nothing?
            && After(s, steps).alive
    decreases n
  {
    hide Turned, Next;
    if n == 0 {
      steps := [];
    } else {
      var first := [Step.Start(turns(k).now, turns(k).spawns), Update];
      TurnIsSteps(s, turns(k));
      TurnSplits(LocalOf(s), turns(k));
      var rest := PassIsARun(After(s, first), n - 1, k + 1, turns);
      AfterAppend(s, first, rest);
      steps := first + rest;
    }
  }

  /** So is its reaping. */
  lemma {:induction false} ReapIsARun(s: State, i: nat, ends: Ends) returns (steps: seq<Step>)
    requires s.alive && s.hand.Nothing?
    ensures LocalOf(After(s, steps)) == Reaped(LocalOf(s), i, ends) && After(s, steps).hand.Nothing?
            && After(s, steps).alive
    decreases |s.workers| - i
  {
    hide Next, Progressed;
    if i >= |s.workers| {
      steps := [];
    } else if ends(s.workers[i]).None? {
      steps := ReapIsARun(s, i + 1, ends);
    } else {
      var first := [Step.Reap(i, ends(s.workers[i]).value), Update];
      JoinIsSteps(s, i, ends(s.workers[i]).value);
      var rest := ReapIsARun(After(s, first), i, ends);
      AfterAppend(s, first, rest);
      steps := first + rest;
    }
  }

  // ---------------------------------------------------------------- the drain's wait

  /** What the drain sees under the lock each time it wakes. */
  datatype Wake = Wake(progress: Progress, now: int)

  /**
   * `drain_deferred_credential_releases_until`: a first look, a retry request that must be acknowledged, then a
   * wait that ends at the deadline. The wake-ups are a parameter; after the last one the deadline has passed.
   */
  method DrainDeferred(
    first: Wake, sent: bool, acknowledged: bool, wakes: seq<Wake>, deadline: int) returns (r: Result<()>)
    ensures r.Ok? ==> exists w :: (w == first || w in wakes) && w.progress.outstanding == 0 && w.now < deadline
    ensures r.Err? ==> r.error == if first.progress.outstanding != 0 && !sent then Unavailable else Timeout
    ensures first.progress.outstanding == 0 ==> (r.Ok? <==> first.now < deadline)
    ensures first.progress.outstanding != 0 && sent && acknowledged ==>
      (r.Ok? <==> exists k :: 0 <= k < |wakes| && wakes[k].progress.outstanding == 0
                              && forall j :: 0 <= j <= k ==> wakes[j].now < deadline)
  {
    if first.progress.outstanding == 0 {
      return if first.now < deadline then Ok(()) else Err(Timeout);
    }
    if !sent { return Err(Unavailable); }
    if !acknowledged { return Err(Timeout); }
    for i := 0 to |wakes|
      invariant forall j :: 0 <= j < i ==> wakes[j].now < deadline && wakes[j].progress.outstanding != 0
    {
      if wakes[i].now >= deadline { return Err(Timeout); }
      if wakes[i].progress.outstanding == 0 { return Ok(()); }
    }
    return Err(Timeout);
  }
}
