/** How far the lifecycle's own part of a drain can be brought, once a drain has seen zero operations. */
module LifecycleProgress {
  import opened Text
  import opened Lifecycle
  import opened LifecycleInvariant
  import opened LifecycleSteps
  import opened LifecycleTheorem

  // ---------------------------------------------------------------- the measure

  /** The release has failed, whether or not that is written yet. */
  predicate Failing(k: Task) {
    (k.completion.Finished? && !k.completion.ok) || (k.workers != [] && k.workers[0].Answered? && !k.workers[0].ok)
  }

  /** The registered tasks that will put their lease back. */
  function FailingNames(s: State): set<Name> {
    set n | n in s.releases && s.releases[n] in s.tasks && Failing(s.tasks[s.releases[n]])
  }

  /** A registered task that the drain neither lists nor works on. */
  predicate Missed(s: State, t: TaskId) {
    s.drain.Launching? && IsRegistered(s, t) && t !in s.drain.pending && t !in s.drain.waiters && t !in s.agent
  }

  /** This drain cannot return Ok any more. */
  predicate Spoilt(s: State) {
    s.drain.Launching? && (s.drain.failed || s.leases != map[] || exists t :: t in s.tasks && Missed(s, t))
  }

  function Stage(s: State): nat {
    match s.drain
    case NoDrain => 4
    case Entered => 3
    case Closing => 2
    case Preparing => 1
    case Launching(_, _, _) => if Spoilt(s) then 5 else 0
  }

  function HandsWork(s: State): nat {
    if Drainer !in s.hands then 0
    else match s.hands[Drainer]
         case Prepared(_) => 3
         case Spawned(_, _) => 2
         case Stored(_) => 1
         case _ => 0
  }

  function WorkerWork(s: State): nat {
    if Drainer in s.hands && s.hands[Drainer].Waiting? && s.hands[Drainer].task in s.tasks
       && |s.tasks[s.hands[Drainer].task].workers| == 1 then
      match s.tasks[s.hands[Drainer].task].workers[0]
      case Parked => 5
      case Took(_) => 4
      case Answered(_, _, _) => 3
      case Wrote => 2
      case Exited => 1
    else 0
  }

  function Listed(d: Drain): nat { if d.Launching? then |d.pending| else 0 }
  function Awaited(d: Drain): nat { if d.Launching? then |d.waiters| else 0 }
  function Failures(s: State): nat { 2 * |FailingNames(s)| + if s.drain.Launching? && s.drain.failed then 1 else 0 }

  /** Lexicographic, most significant first. */
  datatype Work = Work(
    failures: nat, stage: nat, leases: nat, registry: nat, releases: nat, listed: nat, hands: nat, awaited: nat,
        worker: nat)

  function WorkOf(s: State): Work {
    Work(Failures(s), Stage(s), |s.leases|, |s.registry|, |s.releases|, Listed(s.drain), HandsWork(s),
        Awaited(s.drain), WorkerWork(s))
  }

  predicate Less(a: Work, b: Work) {
    || a.failures < b.failures
    || (a.failures == b.failures && (a.stage < b.stage
    || (a.stage == b.stage && (a.leases < b.leases
    || (a.leases == b.leases && (a.registry < b.registry
    || (a.registry == b.registry && (a.releases < b.releases
    || (a.releases == b.releases && (a.listed < b.listed
    || (a.listed == b.listed && (a.hands < b.hands
    || (a.hands == b.hands && (a.awaited < b.awaited
    || (a.awaited == b.awaited && a.worker < b.worker)))))))))))))))
  }

  // ---------------------------------------------------------------- the stages before launching

  lemma EnterWorks(s: State)
    requires Inv(s) && s.sawZero && s.drain.NoDrain?
    ensures CanEnter(s) && Less(WorkOf(DoEnter(s)), WorkOf(s))
  {
    hide NamesInv, TasksInv, HandsInv, PlaceInv, VaultInv;
    assert FailingNames(DoEnter(s)) == FailingNames(s);
  }

  lemma CloseWorks(s: State)
    requires s.drain.Entered?
    ensures CanClose(s) && Less(WorkOf(DoClose(s)), WorkOf(s))
  {
    assert FailingNames(DoClose(s)) == FailingNames(s);
  }

  lemma SeeZeroWorks(s: State)
    requires Inv(s) && s.sawZero && s.drain.Closing?
    ensures CanSeeZero(s) && Less(WorkOf(DoSeeZero(s)), WorkOf(s))
  {
    hide NamesInv, TasksInv, HandsInv, PlaceInv, VaultInv;
    assert FailingNames(DoSeeZero(s)) == FailingNames(s);
  }

  lemma LetGoWorks(s: State, name: Name)
    requires CanLetGo(s, name)
    ensures Less(WorkOf(DoLetGo(s, name)), WorkOf(s))
  {
    var r := DoLetGo(s, name);
    assert FailingNames(r) == FailingNames(s);
    assert |r.registry| == |s.registry| - 1;
  }

  lemma PrepareWorks(s: State, name: Name, t: TaskId)
    requires NamesInv(s) && CanPrepare(s, name, t)
    ensures Less(WorkOf(DoPrepare(s, name, t)), WorkOf(s))
  {
    hide FailingNames, Retake, NamesInv, Spoilt;
    var r := DoPrepare(s, name, t);
    RetakeEffect(s, name, t);
    RetakeFailing(s, name, t);
    RemoveOne(s.leases, name);
  }

  lemma RetakeEffect(s: State, name: Name, t: TaskId)
    requires name in s.leases
    ensures var r := Retake(s, name, t);
            && r.leases == s.leases - {name} && r.releases == s.releases[name := t]
            && r.tasks == s.tasks[t := Task(name, Pending(s.leases[name]), [], None, false)]
            && r.drain == s.drain && r.hands == s.hands && r.agent == s.agent && r.registry == s.registry
  {
  }

  lemma RetakeFailing(s: State, name: Name, t: TaskId)
    requires NamesInv(s) && name in s.leases && t !in s.tasks
    ensures FailingNames(Retake(s, name, t)) == FailingNames(s)
  {
    hide Retake;
    RetakeEffect(s, name, t);
    var r := Retake(s, name, t);
    forall n ensures n in FailingNames(r) <==> n in FailingNames(s) {}
  }

  lemma RemoveOne<K, V>(m: map<K, V>, k: K)
    requires k in m
    ensures |m - {k}| == |m| - 1
  {
    assert (m - {k}).Keys == m.Keys - {k};
    assert |m.Keys| == |m| && |(m - {k}).Keys| == |m - {k}|;
  }

  lemma CollectWorks(s: State)
    requires s.drain.Preparing? && s.leases == map[] && s.registry == {}
    ensures CanCollect(s) && Less(WorkOf(DoCollect(s)), WorkOf(s))
  {
    var r := DoCollect(s);
    assert FailingNames(r) == FailingNames(s);
    forall t | t in r.tasks ensures !Missed(r, t) {
      assert IsRegistered(r, t) == IsRegistered(s, t);
    }
  }

  // ---------------------------------------------------------------- launching

  /** The drain's own steps leave the maps and the outcomes alone. */
  predicate SameOutcomes(s: State, r: State) {
    && r.leases == s.leases && r.releases == s.releases && r.tasks.Keys == s.tasks.Keys
    && (forall t :: t in s.tasks ==> Failing(r.tasks[t]) == Failing(s.tasks[t]) && r.tasks[t].name == s.tasks[t].name)
    && s.drain.Launching? && r.drain.Launching? && r.drain.failed == s.drain.failed
  }

  lemma SameFailures(s: State, r: State)
    requires SameOutcomes(s, r)
    ensures Failures(r) == Failures(s) && forall t :: t in s.tasks ==> IsRegistered(r, t) == IsRegistered(s, t)
  {
    assert FailingNames(r) == FailingNames(s);
  }

  /** No task is missed that was not missed before. */
  lemma SameStage(s: State, r: State)
    requires SameOutcomes(s, r) && forall t :: t in s.tasks ==> Missed(r, t) == Missed(s, t)
    ensures Stage(r) == Stage(s)
  {
    hide Missed, Failing;
  }

  lemma SpawnWorks(s: State)
    requires Inv(s) && s.drain.Launching? && Drainer in s.hands && s.hands[Drainer].Prepared?
    ensures CanSpawn(s, Drainer) && Less(WorkOf(DoSpawn(s, Drainer)), WorkOf(s))
  {
    hide GateInv, CallsInv, NamesInv, TasksInv, HandsInv, PlaceInv, VaultInv, DrainInv, Spoilt, FailingNames;
    AgentShape(s, Drainer, s.hands[Drainer].task);
    var r := DoSpawn(s, Drainer);
    SameFailures(s, r);
    SameStage(s, r);
  }

  lemma StoreWorks(s: State)
    requires Inv(s) && s.drain.Launching? && Drainer in s.hands && s.hands[Drainer].Spawned?
    ensures CanStore(s, Drainer) && Less(WorkOf(DoStore(s, Drainer)), WorkOf(s))
  {
    hide GateInv, CallsInv, NamesInv, TasksInv, HandsInv, PlaceInv, VaultInv, DrainInv, Spoilt, FailingNames;
    AgentShape(s, Drainer, s.hands[Drainer].task);
    var r := DoStore(s, Drainer);
    SameFailures(s, r);
    SameStage(s, r);
  }

  lemma AttachWorks(s: State)
    requires Inv(s) && s.drain.Launching? && Drainer in s.hands && s.hands[Drainer].Stored?
    ensures CanAttach(s, Drainer) && Less(WorkOf(DoAttach(s, Drainer)), WorkOf(s))
  {
    hide GateInv, CallsInv, NamesInv, TasksInv, HandsInv, PlaceInv, VaultInv, DrainInv, Spoilt, FailingNames, DoAttach;
    AgentShape(s, Drainer, s.hands[Drainer].task);
    var r := DoAttach(s, Drainer);
    AttachEffect(s);
    SameFailures(s, r);
    SameStage(s, r);
  }

  lemma AttachEffect(s: State)
    requires CanAttach(s, Drainer)
    ensures var r, t := DoAttach(s, Drainer), s.hands[Drainer].task;
            && r.leases == s.leases && r.releases == s.releases && r.registry == s.registry
                && r.hands == s.hands[Drainer := Idle]
            && r.tasks == s.tasks[t := s.tasks[t].(attached := true)] && r.agent == s.agent - {t}
            && r.drain == s.drain.(waiters := s.drain.waiters + {t})
  {
  }

  lemma PickWorks(s: State, t: TaskId)
    requires Inv(s) && CanPick(s, t)
    ensures Less(WorkOf(DoPick(s, t)), WorkOf(s))
  {
    hide GateInv, CallsInv, NamesInv, TasksInv, HandsInv, PlaceInv, VaultInv, Spoilt, FailingNames, Failing;
    var r := DoPick(s, t);
    SameFailures(s, r);
    SameStage(s, r);
    assert |r.drain.pending| == |s.drain.pending| - 1;
  }

  lemma AwaitWorks(s: State, t: TaskId)
    requires Inv(s) && CanAwait(s, t) && s.drain.pending == {}
    ensures Less(WorkOf(DoAwait(s, t)), WorkOf(s))
  {
    hide GateInv, CallsInv, NamesInv, TasksInv, HandsInv, PlaceInv, VaultInv, Spoilt, FailingNames, Failing;
    var r := DoAwait(s, t);
    SameFailures(s, r);
    SameStage(s, r);
    assert |r.drain.waiters| == |s.drain.waiters| - 1;
  }

  // ---------------------------------------------------------------- waiting

  /** The worker the drain waits for, if it has not ended, takes its next step, with a vault that answers. */
  function WorkerStep(t: TaskId, w: Worker): Step {
    match w
    case Parked => Take(t, 0)
    case Took(_) => Ask(t, 0, false, true)
    case Answered(_, _, _) => Finish(t, 0)
    case _ => Exit(t, 0)
  }

  lemma WorkerWorks(s: State)
    requires Inv(s) && s.drain.Launching? && Waits(s, Drainer)
    requires var k := s.tasks[s.hands[Drainer].task]; k.workers != [] && !k.workers[0].Exited?
    ensures var t := s.hands[Drainer].task;
            var step := WorkerStep(t, s.tasks[t].workers[0]);
            Can(s, step) && Less(WorkOf(Do(s, step)), WorkOf(s))
  {
    hide GateInv, CallsInv, NamesInv, TasksInv, HandsInv, PlaceInv, VaultInv, DrainInv, Spoilt, FailingNames;
    var t := s.hands[Drainer].task;
    AgentShape(s, Drainer, t);
    match s.tasks[t].workers[0]
    case Parked => TakeWorks(s, t);
    case Took(_) => AskWorks(s, t);
    case Answered(_, _, _) => FinishWorks(s, t);
    case Wrote => ExitWorks(s, t);
  }

  lemma TakeWorks(s: State, t: TaskId)
    requires s.drain.Launching? && Drainer in s.hands && s.hands[Drainer] == Waiting(t)
    requires t in s.tasks && Launched(s.tasks[t]) && s.tasks[t].workers[0].Parked?
    ensures CanTake(s, t, 0) && Less(WorkOf(DoTake(s, t, 0)), WorkOf(s))
  {
    hide Spoilt, FailingNames;
    var r := DoTake(s, t, 0);
    SameFailures(s, r);
    SameStage(s, r);
  }

  lemma AskWorks(s: State, t: TaskId)
    requires s.drain.Launching? && Drainer in s.hands && s.hands[Drainer] == Waiting(t)
    requires t in s.tasks && Launched(s.tasks[t]) && s.tasks[t].workers[0].Took?
    ensures CanAsk(s, t, 0) && Less(WorkOf(DoAsk(s, t, 0, false, true)), WorkOf(s))
  {
    hide Spoilt, FailingNames;
    var r := DoAsk(s, t, 0, false, true);
    SameFailures(s, r);
    SameStage(s, r);
  }

  lemma FinishWorks(s: State, t: TaskId)
    requires s.drain.Launching? && Drainer in s.hands && s.hands[Drainer] == Waiting(t)
    requires t in s.tasks && Launched(s.tasks[t]) && s.tasks[t].workers[0].Answered?
    ensures CanFinish(s, t, 0) && Less(WorkOf(DoFinish(s, t, 0)), WorkOf(s))
  {
    hide Spoilt, FailingNames;
    var r := DoFinish(s, t, 0);
    SameFailures(s, r);
    SameStage(s, r);
  }

  lemma ExitWorks(s: State, t: TaskId)
    requires s.drain.Launching? && Drainer in s.hands && s.hands[Drainer] == Waiting(t)
    requires t in s.tasks && Launched(s.tasks[t]) && s.tasks[t].workers[0].Wrote?
    ensures CanExit(s, t, 0) && Less(WorkOf(DoExit(s, t, 0)), WorkOf(s))
  {
    hide Spoilt, FailingNames;
    var r := DoExit(s, t, 0);
    SameFailures(s, r);
    SameStage(s, r);
  }

  lemma CompleteFlag(s: State, joinOk: bool)
    requires CanComplete(s, Drainer) && s.drain.Launching?
    requires var t := s.hands[Drainer].task;
             IsRegistered(s, t) && s.tasks[t].completion.Finished? && s.tasks[t].name !in s.leases
    ensures var r, k := DoComplete(s, Drainer, joinOk), s.tasks[s.hands[Drainer].task];
            r.drain == s.drain.(failed := s.drain.failed || !k.completion.ok || !joinOk)
  {
    hide Settle, Joinable;
    SettleEffect(s, s.hands[Drainer].task, joinOk);
  }

  lemma CompleteWorks(s: State)
    requires Inv(s) && s.drain.Launching? && Waits(s, Drainer)
    requires var k := s.tasks[s.hands[Drainer].task]; k.workers == [] || k.workers[0].Exited?
    ensures CanComplete(s, Drainer) && Less(WorkOf(DoComplete(s, Drainer, true)), WorkOf(s))
  {
    hide GateInv, TasksInv, HandsInv, PlaceInv, VaultInv, DrainInv, FailingNames, DoComplete, Spoilt;
    var t := s.hands[Drainer].task;
    AgentShape(s, Drainer, t);
    var k := s.tasks[t];
    CompleteFlag(s, true);
    CompleteEffect(s, Drainer, true);
    var r := DoComplete(s, Drainer, true);
    CompleteFailures(s, r, t);
    RemoveOne(s.releases, k.name);
    if k.completion.ok { CompleteStage(s, r, t); }
  }

  lemma CompleteFailures(s: State, r: State, t: TaskId)
    requires NamesInv(s) && TakesOut(s, r, Drainer, t)
    ensures FailingNames(r) == FailingNames(s) - {s.tasks[t].name}
    ensures |FailingNames(r)| == |FailingNames(s)| - if Failing(s.tasks[t]) then 1 else 0
  {
    hide Left, At;
    var name := s.tasks[t].name;
    assert name in FailingNames(s) <==> Failing(s.tasks[t]);
    assert FailingNames(r) == FailingNames(s) - {name};
  }

  lemma CompleteStage(s: State, r: State, t: TaskId)
    requires NamesInv(s) && TakesOut(s, r, Drainer, t) && r.leases == s.leases && r.drain == s.drain
    requires s.drain.Launching? && t in s.agent
    ensures Stage(r) <= Stage(s)
  {
    hide NamesInv, IsRegistered, At;
    TakesOutNames(s, r, Drainer, t, 0);
    forall u | u in r.tasks && Missed(r, u) ensures u in s.tasks && Missed(s, u) {}
  }

  // ---------------------------------------------------------------- ending

  lemma EndSpoiltWorks(s: State)
    requires DrainFree(s) && Spoilt(s)
    ensures CanEnd(s, false) && Less(WorkOf(DoEnd(s, false)), WorkOf(s))
  {
    hide Missed;
    assert FailingNames(DoEnd(s, false)) == FailingNames(s);
  }

  /** A drain that is not spoilt and has nothing left to do finds nothing left. */
  lemma NothingLeft(s: State)
    requires Inv(s) && s.sawZero && DrainFree(s) && !Spoilt(s) && s.drain.pending == {} && s.drain.waiters == {}
    ensures CanEnd(s, true)
  {
    hide TasksInv, PlaceInv, VaultInv, DrainInv;
    forall n | n in s.releases ensures false {
      var t := s.releases[n];
      assert IsRegistered(s, t);
      assert !Missed(s, t);
      NobodyWorks(s, t);
    }
    assert s.releases == map[];
  }

  lemma NobodyWorks(s: State, t: TaskId)
    requires GateInv(s) && CallsInv(s) && HandsInv(s) && s.sawZero && DrainFree(s)
    ensures t !in s.agent
  {
    assert s.calls == map[];
    forall a ensures a in s.hands ==> a == Drainer {
      if a.Caller? { assert Caller(a.c) !in s.hands; }
    }
  }

  // ---------------------------------------------------------------- the next move, and all of them

  lemma {:induction false} Bound(ids: set<TaskId>) returns (b: TaskId)
    ensures forall t :: t in ids ==> t < b
    decreases |ids|
  {
    if ids == {} {
      b := 0;
    } else {
      var t :| t in ids;
      var c := Bound(ids - {t});
      b := if c > t then c else t + 1;
      assert forall u :: u in ids ==> u == t || u in ids - {t};
    }
  }

  /** A step that brings the drain closer to its end, and lets go of no session but one of the willing. */
  predicate Advance(s: State, step: Step, willing: set<Name>) {
    Can(s, step) && Less(WorkOf(Do(s, step)), WorkOf(s)) && Obeys(step, willing)
  }

  /** The registry lets go only of sessions it can shut down. */
  predicate Obeys(step: Step, willing: set<Name>) { step.LetGo? ==> step.name in willing }

  lemma EarlyMove(s: State, willing: set<Name>) returns (step: Step)
    requires Inv(s) && s.sawZero && !s.drain.Launching? && s.registry <= willing
    ensures Advance(s, step, willing)
  {
    hide Inv, WorkOf, Less, DoEnter, DoClose, DoSeeZero, DoCollect, DoPrepare, DoLetGo, CanSpawn, CanStore, CanAttach;
    hide CanComplete, Waits;
    match s.drain
    case NoDrain => EnterWorks(s); step := Enter;
    case Entered => CloseWorks(s); step := Close;
    case Closing => SeeZeroWorks(s); step := SeeZero;
    case Preparing =>
      if s.registry != {} {
        var name :| name in s.registry;
        LetGoWorks(s, name);
        step := LetGo(name);
      } else if s.leases == map[] {
        CollectWorks(s);
        step := Collect;
      } else {
        var name :| name in s.leases;
        var t := Bound(s.tasks.Keys);
        assert NamesInv(s) by { InvNames(s); }
        PrepareWorks(s, name, t);
        step := Prepare(name, t);
      }
  }

  lemma InvNames(s: State)
    requires Inv(s)
    ensures NamesInv(s) && (s.drain.Launching? ==> Drainer in s.hands && !s.hands[Drainer].Holding?)
  {
  }

  lemma PickAdvances(s: State, t: TaskId, willing: set<Name>)
    requires Inv(s) && CanPick(s, t)
    ensures Advance(s, Pick(t), willing)
  {
    hide Inv, WorkOf, Less, DoPick;
    PickWorks(s, t);
  }

  lemma AwaitAdvances(s: State, t: TaskId, willing: set<Name>)
    requires Inv(s) && CanAwait(s, t) && s.drain.pending == {}
    ensures Advance(s, Await(t), willing)
  {
    hide Inv, WorkOf, Less, DoAwait;
    AwaitWorks(s, t);
  }

  lemma EndAdvances(s: State, willing: set<Name>)
    requires DrainFree(s) && Spoilt(s)
    ensures Advance(s, End(false), willing)
  {
    hide Inv, WorkOf, Less, Spoilt;
    EndSpoiltWorks(s);
  }

  lemma IdleMove(s: State, willing: set<Name>) returns (step: Step)
    requires Inv(s) && s.sawZero && DrainFree(s) && !Can(s, End(true))
    ensures Advance(s, step, willing)
  {
    hide Inv, Spoilt, Advance;
    if Spoilt(s) {
      EndAdvances(s, willing);
      step := End(false);
    } else if s.drain.pending != {} {
      var t :| t in s.drain.pending;
      PickAdvances(s, t, willing);
      step := Pick(t);
    } else {
      assert s.drain.waiters != {} by {
        if s.drain.waiters == {} { NothingLeft(s); }
      }
      var t :| t in s.drain.waiters;
      AwaitAdvances(s, t, willing);
      step := Await(t);
    }
  }

  lemma BusyMove(s: State, willing: set<Name>) returns (step: Step)
    requires Inv(s) && s.drain.Launching? && Drainer in s.hands && !s.hands[Drainer].Idle? && !s.hands[Drainer].Holding?
    ensures Advance(s, step, willing)
  {
    hide Inv, WorkOf, Less, DoSpawn, DoStore, DoAttach, DoComplete;
    match s.hands[Drainer]
    case Prepared(_) => SpawnWorks(s); step := Spawn(Drainer);
    case Spawned(_, _) => StoreWorks(s); step := Store(Drainer);
    case Stored(_) => AttachWorks(s); step := Attach(Drainer);
    case Waiting(t) =>
      assert t in s.tasks by { WaitedTask(s, t); }
      var ws := s.tasks[t].workers;
      if ws != [] && !ws[0].Exited? {
        WorkerWorks(s);
        step := WorkerStep(t, ws[0]);
      } else {
        CompleteWorks(s);
        step := Complete(Drainer, true);
      }
  }

  lemma WaitedTask(s: State, t: TaskId)
    requires Inv(s) && Drainer in s.hands && s.hands[Drainer] == Waiting(t)
    ensures t in s.tasks
  {
    hide GateInv, CallsInv, NamesInv, PlaceInv, VaultInv;
    AgentShape(s, Drainer, t);
  }

  lemma {:induction false} AfterFirst(s: State, step: Step, rest: seq<Step>)
    ensures After(s, [step] + rest) == After(Next(s, step), rest)
  {
    hide Next;
    var all := [step] + rest;
    if rest == [] {
      assert all[..0] == [];
      assert After(s, []) == s;
    } else {
      var n := |rest| - 1;
      assert all[..|all| - 1] == [step] + rest[..n];
      AfterFirst(s, step, rest[..n]);
    }
  }

  // ---------------------------------------------------------------- what changes after zero

  lemma NoCallers(s: State)
    requires GateInv(s) && CallsInv(s) && s.sawZero
    ensures s.gate.closed && s.gate.admitting.None? && s.gate.permits == {}
    ensures forall a :: a in s.hands ==> a.Drainer?
  {
    assert s.calls == map[];
    assert forall c :: Caller(c) !in s.hands;
    assert forall a: Actor :: a.Drainer? || a == Caller(a.c);
  }

  /** Workers leave all this alone. */
  predicate Quiet(s: State, r: State) {
    && r.leases == s.leases && r.releases == s.releases && r.registry == s.registry && r.hands == s.hands
    && r.drain == s.drain && r.gate == s.gate
  }

  predicate OfWorker(step: Step) { step.Take? || step.Ask? || step.Finish? || step.Exit? }

  lemma WorkersAreQuiet(s: State, step: Step)
    requires OfWorker(step) && Can(s, step)
    ensures Quiet(s, Do(s, step))
  {
    hide WithWorker, HasWorker;
  }

  /** While a drain that has seen zero has nothing in hand and turns to none of its lists, only workers move. */
  lemma OnlyWorkers(s: State, step: Step)
    requires GateInv(s) && CallsInv(s) && s.sawZero && DrainFree(s) && Can(s, step)
    requires !step.Pick? && !step.Await? && !step.End?
    ensures OfWorker(step)
  {
    hide GateInv, CallsInv, Joinable, HasWorker;
    NoCallers(s);
    assert s.hands[Drainer].Idle?;
  }

  /** Without callers the registry changes only by letting go. */
  lemma RegistryStep(s: State, step: Step)
    requires GateInv(s) && CallsInv(s) && s.sawZero && Can(s, step)
    ensures Do(s, step).registry == if step.LetGo? then s.registry - {step.name} else s.registry
  {
    NoCallers(s);
    if OfWorker(step) {
      WorkersAreQuiet(s, step);
    } else if step.Complete? {
      SettleRegistry(s, s.hands[step.a].task, step.joinOk);
      CompleteRegistry(s, step.a, step.joinOk);
    } else {
      OtherRegistry(s, step);
    }
  }

  lemma CompleteRegistry(s: State, a: Actor, joinOk: bool)
    requires CanComplete(s, a)
    ensures DoComplete(s, a, joinOk).registry == Settle(s, s.hands[a].task, joinOk).registry
  {
    hide Settle, SettleFails, Joinable;
  }

  lemma SettleRegistry(s: State, t: TaskId, joinOk: bool)
    requires t in s.tasks
    ensures Settle(s, t, joinOk).registry == s.registry
  {
    hide IsRegistered, WithoutTask, Emptied;
    WithoutTaskEffect(s, t, s.tasks[t].(handle := None));
    WithoutTaskEffect(s, t, Emptied(s.tasks[t]));
  }

  lemma OtherRegistry(s: State, step: Step)
    requires Can(s, step) && (forall a :: a in s.hands ==> a.Drainer?) && !OfWorker(step) && !step.Complete?
    ensures Do(s, step).registry == if step.LetGo? then s.registry - {step.name} else s.registry
  {
    hide WithWorker, HasWorker, CanTake, CanAsk, CanFinish, CanExit, CanComplete;
  }

  // ---------------------------------------------------------------- the lifecycle's part of an Ok

  ghost predicate AllObey(steps: seq<Step>, willing: set<Name>) {
    forall step :: step in steps ==> Obeys(step, willing)
  }

  /**
   * From every state after a drain has seen zero operations, whatever releases and drains failed since: if the registry
   * can shut down the sessions it has, some continuation, with a vault that answers, brings the lifecycle to where its
   * drain may return Ok. No lease is out of reach.
   */
  lemma {:induction false} StillDrainable(s: State, willing: set<Name>) returns (steps: seq<Step>)
    requires Inv(s) && s.sawZero && s.registry <= willing
    ensures AllObey(steps, willing) && Can(After(s, steps), End(true)) && End(true) !in steps
    decreases WorkOf(s).failures, WorkOf(s).stage, WorkOf(s).leases, WorkOf(s).registry, WorkOf(s).releases,
        WorkOf(s).listed,
      WorkOf(s).hands, WorkOf(s).awaited, WorkOf(s).worker
  {
    hide Inv, WorkOf, Do, Can, DrainFree, Obeys;
    if Can(s, End(true)) {
      steps := [];
      assert After(s, []) == s;
    } else {
      var step: Step;
      if !s.drain.Launching? {
        step := EarlyMove(s, willing);
      } else {
        InvNames(s);
        if s.hands[Drainer].Idle? {
          assert DrainFree(s) by { IdleIsFree(s); }
          step := IdleMove(s, willing);
        } else {
          step := BusyMove(s, willing);
        }
      }
      var r := Do(s, step);
      assert Next(s, step) == r;
      DoKeeps(s, step);
      NextLater(s, step);
      RegistryShrinks(s, step);
      var rest := StillDrainable(r, willing);
      AfterFirst(s, step, rest);
      steps := [step] + rest;
    }
  }

  lemma RegistryShrinks(s: State, step: Step)
    requires Inv(s) && s.sawZero && Can(s, step)
    ensures Do(s, step).registry <= s.registry
  {
    hide Do, Can, NamesInv, TasksInv, HandsInv, DrainInv, PlaceInv, VaultInv;
    RegistryStep(s, step);
  }

  lemma IdleIsFree(s: State)
    requires s.drain.Launching? && Drainer in s.hands && s.hands[Drainer].Idle?
    ensures DrainFree(s)
  {
  }

  /** A session that the registry cannot shut down stays, and keeps every drain from an Ok. */
  lemma {:induction false} StubbornStays(s: State, steps: seq<Step>, willing: set<Name>, name: Name)
    requires Inv(s) && s.sawZero && AllObey(steps, willing) && name in s.registry && name !in willing
    ensures var r := After(s, steps); Inv(r) && r.sawZero && name in r.registry && !Can(r, End(true))
  {
    hide Inv, Do, Can;
    if steps == [] {
      SessionSpoilsOk(s, name);
    } else {
      var front, step := steps[..|steps| - 1], steps[|steps| - 1];
      StubbornStays(s, front, willing, name);
      var r := After(s, front);
      assert step in steps;
      NextLater(r, step);
      if Can(r, step) {
        DoKeeps(r, step);
        StubbornStep(r, step, name);
      }
      SessionSpoilsOk(Next(r, step), name);
    }
  }

  lemma StubbornStep(s: State, step: Step, name: Name)
    requires Inv(s) && s.sawZero && Can(s, step) && name in s.registry && step != LetGo(name)
    ensures name in Do(s, step).registry
  {
    hide Do, Can, NamesInv, TasksInv, HandsInv, DrainInv, PlaceInv, VaultInv;
    RegistryStep(s, step);
  }

  lemma SessionSpoilsOk(s: State, name: Name)
    requires Inv(s) && name in s.registry
    ensures !Can(s, End(true))
  {
    hide NamesInv, TasksInv, HandsInv, DrainInv, PlaceInv, VaultInv;
  }

  /** The lifecycle's part of a later Ok is possible if and only if the registry can shut down every session it has. */
  lemma DrainableExactly(before: seq<Step>, willing: set<Name>)
    requires After(START, before).sawZero
    ensures (exists steps :: AllObey(steps, willing) && Can(After(After(START, before), steps), End(true)))
        <==> After(START, before).registry <= willing
  {
    hide After, Inv, Can;
    RunKeeps(before);
    var s := After(START, before);
    if s.registry <= willing {
      var steps := StillDrainable(s, willing);
      assert AllObey(steps, willing) && Can(After(s, steps), End(true));
    } else {
      var name :| name in s.registry && name !in willing;
      forall steps | AllObey(steps, willing) ensures !Can(After(s, steps), End(true)) {
        StubbornStays(s, steps, willing, name);
      }
    }
  }
}
