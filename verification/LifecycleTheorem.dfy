/** What holds in every interleaving of callers, workers and drains. */
module LifecycleTheorem {
  import opened Text
  import opened Lifecycle
  import opened LifecycleInvariant
  import opened LifecycleSteps

  /** A lease that has been handed to the lifecycle. */
  predicate Handed(s: State, l: Lease) { l in s.place }

  /**
   * In every reachable state a handed lease is in exactly one of the lease map, one release task or one
   * caller's hands, or it has been released and nobody has it. It is never dropped unreleased.
   */
  lemma ExactlyOneOwner(steps: seq<Step>, l: Lease)
    requires Handed(After(START, steps), l)
    ensures var s := After(START, steps);
            exists p: Place :: p != Dropped && Claim(s, l, p) && forall q: Place :: q != Gone && Claim(s, l, q) ==>
                q == p
  {
    hide After, GateInv, CallsInv, NamesInv, TasksInv, HandsInv, DrainInv, VaultInv, LeaseOf;
    RunKeeps(steps);
    var s := After(START, steps);
    var p := s.place[l];
    assert Claim(s, l, p);
    forall q: Place | q != Gone && Claim(s, l, q) ensures q == p { assert IsAt(s, l, q); }
  }

  /** Two callers, two tasks, two names never have the same lease. */
  lemma OwnersDiffer(steps: seq<Step>, l: Lease, p: Place, q: Place)
    requires var s := After(START, steps); p != Gone && q != Gone && Claim(s, l, p) && Claim(s, l, q)
    ensures p == q
  {
    hide After, GateInv, CallsInv, NamesInv, TasksInv, HandsInv, DrainInv, VaultInv, LeaseOf, Claim;
    RunKeeps(steps);
    var s := After(START, steps);
    assert IsAt(s, l, p) && IsAt(s, l, q);
  }

  /** No task is ever launched twice, and a worker that starts always finds its lease. */
  lemma LaunchedOnce(steps: seq<Step>, t: TaskId)
    requires t in After(START, steps).tasks
    ensures var s := After(START, steps);
            && |s.tasks[t].workers| <= 1
            && (forall a :: a in s.hands && s.hands[a] == Prepared(t) ==> s.tasks[t].workers == [])
            && (forall i :: CanTake(s, t, i) ==> s.tasks[t].completion.Pending?)
  {
    hide After, GateInv, CallsInv, NamesInv, PlaceInv, DrainInv, VaultInv;
    RunKeeps(steps);
    var s := After(START, steps);
    assert TaskInv(s, t);
    forall i | CanTake(s, t, i) ensures s.tasks[t].completion.Pending? { WorkerShape(s, t, i); }
    forall a | a in s.hands && s.hands[a] == Prepared(t) ensures s.tasks[t].workers == [] { AgentShape(s, a, t); }
  }

  /**
   * The vault session of a lease is successfully released at most once, although asking the vault and recording its
   * answer are two steps between which everything else may happen. A success is recorded, or one worker is about to
   * record it.
   */
  lemma VaultOnce(steps: seq<Step>, l: Lease)
    ensures var s := After(START, steps);
            && s.vault.successes[l] <= 1
            && (s.vault.successes[l] == 1 <==>
                l in s.vault.released || exists t :: t in s.tasks && Unrecorded(s.tasks[t], l))
            && (l in s.vault.released ==> forall t :: t in s.tasks ==> !Unrecorded(s.tasks[t], l))
  {
    hide After, GateInv, CallsInv, NamesInv, TasksInv, HandsInv, DrainInv, PlaceInv;
    RunKeeps(steps);
    var s := After(START, steps);
    assert forall t :: t in s.tasks ==> VaultTask(s.vault, s.tasks[t]);
  }

  /** Between a success and its record nobody else can ask the vault about the lease: its worker is the only owner. */
  lemma NobodyElseAsks(steps: seq<Step>, t: TaskId, u: TaskId, i: nat, l: Lease)
    requires var s := After(START, steps); t in s.tasks && Unrecorded(s.tasks[t], l) && CanAsk(s, u, i)
    ensures After(START, steps).tasks[u].workers[i].lease != l
  {
    hide After, GateInv, CallsInv, NamesInv, HandsInv, DrainInv, VaultInv, TasksInv, PlaceInv;
    RunKeeps(steps);
    var s := After(START, steps);
    WorkerShape(s, u, i);
    if s.tasks[u].workers[i].lease == l { OnlyAnswer(s, u, t, l); }
  }

  /**
   * A completed wait always finds its own task with an outcome. A failed release puts its lease back under the
   * task's name; a successful one lets go of a lease that has been released.
   */
  lemma CompletionReturnsOwner(steps: seq<Step>, a: Actor, joinOk: bool)
    requires CanComplete(After(START, steps), a)
    ensures var s := After(START, steps);
            var t := s.hands[a].task;
            var k := s.tasks[t];
            && IsRegistered(s, t) && k.completion.Finished? && k.name !in s.leases
            && var r, l := DoComplete(s, a, joinOk), k.completion.lease;
               if k.completion.ok && joinOk then
                 r.leases == s.leases && l in r.vault.released && IsAt(r, l, Gone)
               else
                 r.leases == s.leases[k.name := l] && IsAt(r, l, Mapped(k.name))
  {
    hide After, Inv, DoComplete;
    RunKeeps(steps);
    CompletionAt(After(START, steps), a, joinOk);
  }

  lemma CompletionAt(s: State, a: Actor, joinOk: bool)
    requires Inv(s) && CanComplete(s, a)
    ensures var t := s.hands[a].task;
            var k := s.tasks[t];
            && IsRegistered(s, t) && k.completion.Finished? && k.name !in s.leases
            && var r, l := DoComplete(s, a, joinOk), k.completion.lease;
               if k.completion.ok && joinOk then
                 r.leases == s.leases && l in r.vault.released && IsAt(r, l, Gone)
               else
                 r.leases == s.leases[k.name := l] && IsAt(r, l, Mapped(k.name))
  {
    hide GateInv, CallsInv, TasksInv, HandsInv, DrainInv, PlaceInv, Joinable, LeaseOf, DoComplete, Left;
    CompleteShape(s, a);
    CompleteEffect(s, a, joinOk);
  }

  // ---------------------------------------------------------------- the gate, over time

  /** What is never taken back. */
  predicate Later(s: State, r: State) {
    (s.gate.closed ==> r.gate.closed) && (s.sawZero ==> r.sawZero) && (s.drained ==> r.drained)
  }

  lemma LeaveLater(s: State, a: Actor, t: TaskId, failed: bool)
    ensures Later(s, Leave(s, a, t, failed))
  {
  }

  lemma SpawnLater(s: State, a: Actor)
    requires CanSpawn(s, a)
    ensures Later(s, DoSpawn(s, a))
  {
  }

  lemma AttachLater(s: State, a: Actor)
    requires CanAttach(s, a)
    ensures Later(s, DoAttach(s, a))
  {
  }

  lemma TakeLater(s: State, t: TaskId, i: nat)
    requires CanTake(s, t, i)
    ensures Later(s, DoTake(s, t, i))
  {
    hide WithWorker;
  }

  lemma AskLater(s: State, t: TaskId, i: nat, late: bool, vaultOk: bool)
    requires CanAsk(s, t, i)
    ensures Later(s, DoAsk(s, t, i, late, vaultOk))
  {
    hide WithWorker;
  }

  lemma FinishLater(s: State, t: TaskId, i: nat)
    requires CanFinish(s, t, i)
    ensures Later(s, DoFinish(s, t, i))
  {
    hide WithWorker;
  }

  lemma ExitLater(s: State, t: TaskId, i: nat)
    requires CanExit(s, t, i)
    ensures Later(s, DoExit(s, t, i))
  {
    hide WithWorker;
  }

  lemma CompleteLater(s: State, a: Actor, joinOk: bool)
    requires CanComplete(s, a)
    ensures Later(s, DoComplete(s, a, joinOk))
  {
    hide Joinable, Leave, Settle, SettleFails;
    var t := s.hands[a].task;
    SettleLater(s, t, joinOk);
    LeaveLater(Settle(s, t, joinOk), a, t, SettleFails(s, t, joinOk));
  }

  lemma SettleLater(s: State, t: TaskId, joinOk: bool)
    requires t in s.tasks
    ensures Later(s, Settle(s, t, joinOk))
  {
    hide IsRegistered;
  }

  lemma NextLater(s: State, step: Step)
    ensures Later(s, Next(s, step))
  {
    hide Later, Leave, DoSpawn, DoAttach, DoTake, DoAsk, DoFinish, DoExit, DoComplete, CanTake, CanAsk, CanFinish,
        CanExit, CanComplete,
      DoCall, DoRegister, DoDetach, DoShutdown, Retake;
    LaterSame(s);
    if Can(s, step) {
      match step
      case Spawn(a) => SpawnLater(s, a);
      case SpawnFails(a) => LeaveLater(s, a, s.hands[a].task, true);
      case Attach(a) => AttachLater(s, a);
      case GiveUp(a) => LeaveLater(s, a, s.hands[a].task, true);
      case Take(t, i) => TakeLater(s, t, i);
      case Ask(t, i, late, vaultOk) => AskLater(s, t, i, late, vaultOk);
      case Finish(t, i) => FinishLater(s, t, i);
      case Exit(t, i) => ExitLater(s, t, i);
      case Complete(a, joinOk) => CompleteLater(s, a, joinOk);
      case Call(c, p, l) => CallLater(s, c, p, l);
      case Register(c, n) => RegisterLater(s, c, n);
      case Detach(c, n, t) => DetachLater(s, c, n, t);
      case Shutdown(c, name, t) => ShutdownLater(s, c, name, t);
      case Prepare(name, t) => RetakeLater(s, name, t);
      case _ => OtherLater(s, step);
    }
  }

  /** The steps whose new flags can be read off directly. */
  lemma OtherLater(s: State, step: Step)
    requires Can(s, step)
    requires !step.Spawn? && !step.SpawnFails? && !step.Attach? && !step.GiveUp?
    requires !step.Take? && !step.Ask? && !step.Finish? && !step.Exit? && !step.Complete?
    requires !step.Call? && !step.Register? && !step.Detach? && !step.Shutdown? && !step.Prepare?
    ensures Later(s, Do(s, step))
  {
    hide CanTake, CanAsk, CanFinish, CanExit, CanComplete, CanSpawn, CanAttach, CanCall, CanRegister, CanDetach;
    hide CanShutdown, CanPrepare;
  }

  lemma CallLater(s: State, c: nat, p: Permit, lease: Option<Lease>)
    ensures Later(s, DoCall(s, c, p, lease))
  {
  }

  lemma RegisterLater(s: State, c: nat, n: nat)
    requires CanRegister(s, c, n)
    ensures Later(s, DoRegister(s, c, n))
  {
  }

  lemma DetachLater(s: State, c: nat, n: nat, t: TaskId)
    requires CanDetach(s, c, n, t)
    ensures Later(s, DoDetach(s, c, n, t))
  {
  }

  lemma ShutdownLater(s: State, c: nat, name: Name, t: TaskId)
    requires CanShutdown(s, c, name, t)
    ensures Later(s, DoShutdown(s, c, name, t))
  {
    hide Retake;
    RetakeLater(s, name, t);
  }

  lemma RetakeLater(s: State, name: Name, t: TaskId)
    requires name in s.leases
    ensures Later(s, Retake(s, name, t))
  {
  }

  lemma LaterSame(s: State)
    ensures Later(s, s)
  {
  }

  lemma {:induction false} RunLater(steps: seq<Step>, more: seq<Step>)
    ensures Later(After(START, steps), After(START, steps + more))
  {
    hide Next;
    if more == [] {
      assert steps + more == steps;
    } else {
      var all, n := steps + more, |more| - 1;
      assert all[..|all| - 1] == steps + more[..n];
      RunLater(steps, more[..n]);
      NextLater(After(START, steps + more[..n]), more[n]);
    }
  }

  /** The counter never drifts: it is the number of live permits, so its decrement never saturates. */
  lemma CounterIsPermits(steps: seq<Step>)
    ensures var g := After(START, steps).gate; g.active == |g.permits| && (g.permits != {} ==> g.active > 0)
  {
    hide After, CallsInv, NamesInv, TasksInv, HandsInv, DrainInv, PlaceInv, VaultInv;
    RunKeeps(steps);
    var g := After(START, steps).gate;
    if g.permits != {} {
      var p :| p in g.permits;
      assert |g.permits| > 0;
    }
  }

  /**
   * Once closed, admission stays closed, whether or not the drain that closed it timed out; nobody gets in any more.
   */
  lemma ClosedForGood(steps: seq<Step>, more: seq<Step>, p: Permit)
    requires After(START, steps).gate.closed
    ensures After(START, steps + more).gate.closed && !CanLock(After(START, steps + more), p)
  {
    hide After;
    RunLater(steps, more);
  }

  /**
   * Once a drain has closed admission and seen zero under the gate, no permit and no call exists then or ever again.
   */
  lemma ZeroForGood(steps: seq<Step>, more: seq<Step>)
    requires After(START, steps).sawZero
    ensures var s := After(START, steps + more);
            s.gate.closed && s.gate.permits == {} && s.gate.admitting.None? && s.calls == map[]
                && forall c :: Caller(c) !in s.hands
  {
    hide After, NamesInv, TasksInv, HandsInv, DrainInv, PlaceInv, VaultInv;
    RunLater(steps, more);
    RunKeeps(steps + more);
    var s := After(START, steps + more);
    assert forall c :: c in s.calls ==> s.calls[c] in s.gate.permits;
  }

  /**
   * After a drain has returned Ok, in every later state: both maps are empty, the registry has no session, no permit
   * exists, and every lease ever handed over is released, exactly once.
   */
  lemma DrainOkIsFinal(steps: seq<Step>, more: seq<Step>)
    requires Can(After(START, steps), End(true))
    ensures var s := After(START, steps + [End(true)] + more);
            && s.leases == map[] && s.releases == map[] && s.registry == {} && s.gate.permits == {}
            && forall l :: Handed(s, l) ==> s.place[l] == Gone && s.vault.successes[l] == 1
  {
    hide NamesInv, TasksInv, HandsInv, DrainInv, PlaceInv, CallsInv, VaultInv, Can, Do;
    var ended := steps + [End(true)];
    assert ended[..|ended| - 1] == steps;
    assert After(START, ended).drained by { EndDrains(After(START, steps)); }
    hide After;
    RunLater(ended, more);
    RunKeeps(ended + more);
    var s := After(START, ended + more);
    forall l | Handed(s, l) ensures s.place[l] == Gone && s.vault.successes[l] == 1 {
      AllGone(s, l);
    }
  }

  lemma EndDrains(s: State)
    requires Can(s, End(true))
    ensures Do(s, End(true)).drained
  {
  }

  lemma AllGone(s: State, l: Lease)
    requires Inv(s) && s.drained && Handed(s, l)
    ensures s.place[l] == Gone && s.vault.successes[l] == 1
  {
    hide NamesInv, HandsInv, DrainInv, ShapeFor;
    assert Claim(s, l, s.place[l]);
    assert forall t :: t in s.tasks ==> TaskInv(s, t);
    assert forall a :: a in s.hands ==> !s.hands[a].Holding? by { NobodyHolds(s); }
  }

  lemma NobodyHolds(s: State)
    requires GateInv(s) && CallsInv(s) && s.sawZero
    ensures forall a :: a in s.hands ==> !s.hands[a].Holding?
  {
    assert s.calls == map[];
    forall a ensures a in s.hands ==> a == Drainer {
      if a.Caller? { assert Caller(a.c) !in s.hands; }
    }
  }

  // ---------------------------------------------------------------- what a drain answers

  /** A step of the drain that goes wrong: a thread that cannot be spawned, a wait given up, a release that failed. */
  predicate Spoils(s: State, step: Step)
    requires Can(s, step)
  {
    match step
    case SpawnFails(a) => a.Drainer?
    case GiveUp(a) => a.Drainer?
    case Complete(a, joinOk) =>
      a.Drainer? && var t := s.hands[a].task;
      var k := s.tasks[t];
      k.name in s.releases && !(s.releases[k.name] == t && k.completion == Finished(LeaseIn(k), true) && joinOk)
    case _ => false
  }

  function LeaseIn(k: Task): Lease { if k.completion.Finished? then k.completion.lease else 0 }

  lemma SpoilsExactly(s: State, step: Step)
    requires s.drain.Launching? && Can(s, step) && !step.End?
    ensures Do(s, step).drain.Launching? && Do(s, step).drain.failed == (s.drain.failed || Spoils(s, step))
  {
    hide Leave, Settle, WithWorker, WithTask, Retake, WithoutCall, DoAttach, DoRegister, DoSpawn, DoStore, HasWorker;
    match step
    case Complete(a, joinOk) => CompletionFlag(s, a, joinOk);
    case SpawnFails(a) => LeaveFlag(s, a, s.hands[a].task, true);
    case GiveUp(a) => LeaveFlag(s, a, s.hands[a].task, true);
    case Attach(a) => AttachFlag(s, a);
    case Spawn(a) => SpawnFlag(s, a);
    case Store(a) => StoreFlag(s, a);
    case Detach(_, _, _) => HandOverFlag(s, step);
    case Shutdown(_, _, _) => HandOverFlag(s, step);
    case Register(c, n) => RegisterFlag(s, c, n);
    case Return(c) => ReturnFlag(s, c);
    case Take(_, _) => WorkerFlag(s, step);
    case Ask(_, _, _, _) => WorkerFlag(s, step);
    case Finish(_, _) => WorkerFlag(s, step);
    case Exit(_, _) => WorkerFlag(s, step);
    case _ =>
  }

  lemma LeaveFlag(s: State, a: Actor, t: TaskId, failed: bool)
    requires s.drain.Launching?
    ensures Leave(s, a, t, failed).drain ==
      if a.Caller? then s.drain else s.drain.(failed := s.drain.failed || failed)
  {
  }

  lemma AttachFlag(s: State, a: Actor)
    requires CanAttach(s, a) && s.drain.Launching?
    ensures DoAttach(s, a).drain.Launching? && DoAttach(s, a).drain.failed == s.drain.failed
  {
    hide Leave;
    var r := s.(tasks := s.tasks[s.hands[a].task := s.tasks[s.hands[a].task].(attached := true)]);
    LeaveFlag(r, a, s.hands[a].task, false);
  }

  lemma SpawnFlag(s: State, a: Actor)
    requires CanSpawn(s, a)
    ensures DoSpawn(s, a).drain == s.drain
  {
  }

  lemma StoreFlag(s: State, a: Actor)
    requires CanStore(s, a)
    ensures DoStore(s, a).drain == s.drain
  {
  }

  lemma RegisterFlag(s: State, c: nat, n: nat)
    requires CanRegister(s, c, n)
    ensures DoRegister(s, c, n).drain == s.drain
  {
  }

  lemma ReturnFlag(s: State, c: nat)
    ensures WithoutCall(s, c).drain == s.drain
  {
  }

  lemma WorkerFlag(s: State, step: Step)
    requires Can(s, step) && (step.Take? || step.Ask? || step.Finish? || step.Exit?)
    ensures Do(s, step).drain == s.drain
  {
    hide WithWorker;
  }

  lemma HandOverFlag(s: State, step: Step)
    requires s.drain.Launching? && Can(s, step) && (step.Detach? || step.Shutdown?)
    ensures Do(s, step).drain == s.drain
  {
    hide WithTask;
    if step.Detach? {
      WithTaskKeepsDrain(s, DetachedName(step.n), step.t, s.hands[Caller(step.c)].lease);
    } else {
      WithTaskKeepsDrain(s.(leases := s.leases - {step.name}), step.name, step.t, s.leases[step.name]);
    }
  }

  lemma WithTaskKeepsDrain(s: State, name: Name, t: TaskId, lease: Lease)
    ensures WithTask(s, name, t, lease).drain == s.drain
  {
  }

  lemma CompletionFlag(s: State, a: Actor, joinOk: bool)
    requires s.drain.Launching? && CanComplete(s, a)
    ensures var r := DoComplete(s, a, joinOk);
      r.drain.Launching? && r.drain.failed == (s.drain.failed || Spoils(s, Complete(a, joinOk)))
  {
    hide WithoutTask, Emptied, Joinable;
    SettleKeepsDrain(s, s.hands[a].task, joinOk);
  }

  lemma SettleKeepsDrain(s: State, t: TaskId, joinOk: bool)
    requires t in s.tasks
    ensures Settle(s, t, joinOk).drain == s.drain
  {
    hide WithoutTask, Forget, GiveBack, Emptied, IsRegistered;
    var k := s.tasks[t];
    ReplacedKeepsDrain(s, t, k.(handle := None), k.name, 0);
    if k.completion.Finished? { ReplacedKeepsDrain(s, t, Emptied(k), k.name, k.completion.lease); }
  }

  lemma ReplacedKeepsDrain(s: State, t: TaskId, k: Task, name: Name, lease: Lease)
    ensures var r := WithoutTask(s, t, k);
      r.drain == s.drain && Forget(r, lease).drain == s.drain && GiveBack(r, name, lease).drain == s.drain
  {
  }

  ghost predicate Spoilt(s: State, steps: seq<Step>) {
    exists i :: 0 <= i < |steps| && SpoilsAt(s, steps, i)
  }

  predicate SpoilsAt(s: State, steps: seq<Step>, i: nat)
    requires i < |steps|
  {
    var r := After(s, steps[..i]);
    Can(r, steps[i]) && Spoils(r, steps[i])
  }

  /**
   * From the collection of its work to its end, over any interleaving: a drain remembers exactly whether the registry
   * kept a session or one of its own steps went wrong, and then it cannot answer Ok.
   */
  lemma {:induction false} DrainRemembersFailure(s: State, steps: seq<Step>)
    requires s.drain.Launching? && forall i :: 0 <= i < |steps| ==> !steps[i].End?
    ensures var r := After(s, steps);
      && r.drain.Launching? && (r.drain.failed <==> s.drain.failed || Spoilt(s, steps))
      && (s.drain.failed || Spoilt(s, steps) ==> !CanEnd(r, true))
  {
    if steps != [] {
      hide Can, Do, Spoils, CanEnd;
      var n := |steps| - 1;
      var front, last := steps[..n], steps[n];
      DrainRemembersFailure(s, front);
      var r := After(s, front);
      if Can(r, last) { SpoilsExactly(r, last); }
      SpoiltGrows(s, steps);
      FailedCannotEnd(After(s, steps));
    } else {
      FailedCannotEnd(s);
    }
  }

  lemma FailedCannotEnd(s: State)
    requires s.drain.Launching?
    ensures s.drain.failed ==> !CanEnd(s, true)
  {
  }

  lemma SpoiltGrows(s: State, steps: seq<Step>)
    requires steps != []
    ensures Spoilt(s, steps) <==> Spoilt(s, steps[..|steps| - 1]) || SpoilsAt(s, steps, |steps| - 1)
  {
    hide After, Can, Spoils;
    var front := steps[..|steps| - 1];
    forall i | 0 <= i < |front| ensures SpoilsAt(s, front, i) == SpoilsAt(s, steps, i) {
      assert front[..i] == steps[..i];
    }
    if Spoilt(s, front) {
      var i :| 0 <= i < |front| && SpoilsAt(s, front, i);
      assert SpoilsAt(s, steps, i);
    }
    if Spoilt(s, steps) {
      var i :| 0 <= i < |steps| && SpoilsAt(s, steps, i);
      assert i < |front| ==> SpoilsAt(s, front, i);
    }
  }

  /** The drain starts with a failure exactly if the registry still has a session. */
  lemma CollectedFailure(s: State)
    requires CanCollect(s)
    ensures DoCollect(s).drain.Launching? && (DoCollect(s).drain.failed <==> exists name :: name in s.registry)
  {
  }

  /**
   * The vault is called exactly by a worker in time whose lease is not yet known to be released, and the worker's
   * answer is yes exactly if it is in time and the lease is known to be released or the vault says so.
   */
  lemma AskedExactly(s: State, t: TaskId, i: nat, late: bool, vaultOk: bool)
    requires CanAsk(s, t, i)
    ensures var r, lease := DoAsk(s, t, i, late, vaultOk), s.tasks[t].workers[i].lease;
      var known := lease in s.vault.released;
      && r.tasks[t].workers[i] == Answered(lease, !late && (known || vaultOk), !late && !known)
      && r.vault.successes[lease] == s.vault.successes[lease] + (if !late && !known && vaultOk then 1 else 0)
      && r.vault.released == s.vault.released
  {
  }
}
