/** Every step of the lifecycle keeps the invariant. */
module LifecycleSteps {
  import opened Text
  import opened Lifecycle
  import opened LifecycleInvariant

  // ---------------------------------------------------------------- the gate and the drain's first stages

  /** Steps that touch the gate or the drain's stage only. */
  lemma GateStep(s: State, r: State)
    requires Inv(s) && SameCore(s, r) && s.calls == r.calls && s.drained == r.drained && (s.sawZero ==> r.sawZero)
    requires GateInv(r) && (r.drain == s.drain || (!r.drain.Launching? && !s.drain.Launching?))
    requires forall c :: c in s.calls ==> s.calls[c] in r.gate.permits
    ensures Inv(r)
  {
    hide NamesInv, DrainInv, PlaceInv, VaultInv, HandsInv, TasksInv, GateInv;
    CoreFrame(s, r);
  }

  lemma LockKeeps(s: State, p: Permit)
    requires Inv(s) && CanLock(s, p)
    ensures Inv(DoLock(s, p))
  {
    hide NamesInv, DrainInv, PlaceInv, VaultInv, HandsInv, TasksInv;
    GateStep(s, DoLock(s, p));
  }

  lemma AddKeeps(s: State)
    requires Inv(s) && CanAdd(s)
    ensures Inv(DoAdd(s))
  {
    hide NamesInv, DrainInv, PlaceInv, VaultInv, HandsInv, TasksInv, GateInv;
    assert SameCore(s, DoAdd(s));
    AddGate(s);
    GateStep(s, DoAdd(s));
  }

  lemma AddGate(s: State)
    requires GateInv(s) && CanAdd(s)
    ensures GateInv(DoAdd(s)) && s.gate.permits <= DoAdd(s).gate.permits
  {
    var r := DoAdd(s);
    OneMore(s.gate.permits, s.gate.admitting.value);
    assert r.drain == s.drain && r.sawZero == s.sawZero && r.gate.closed == s.gate.closed;
  }

  lemma OneMore(permits: set<Permit>, p: Permit)
    requires p !in permits
    ensures |permits + {p}| == |permits| + 1
  {
  }

  lemma DropKeeps(s: State, p: Permit)
    requires Inv(s) && CanDrop(s, p)
    ensures Inv(DoDrop(s, p))
  {
    hide NamesInv, DrainInv, PlaceInv, VaultInv, HandsInv, TasksInv;
    GateStep(s, DoDrop(s, p));
  }

  lemma EnterKeeps(s: State)
    requires Inv(s) && CanEnter(s)
    ensures Inv(DoEnter(s))
  {
    hide NamesInv, DrainInv, PlaceInv, VaultInv, HandsInv, TasksInv;
    GateStep(s, DoEnter(s));
  }

  lemma CloseKeeps(s: State)
    requires Inv(s) && CanClose(s)
    ensures Inv(DoClose(s))
  {
    hide NamesInv, DrainInv, PlaceInv, VaultInv, HandsInv, TasksInv;
    GateStep(s, DoClose(s));
  }

  lemma SeeZeroKeeps(s: State)
    requires Inv(s) && CanSeeZero(s)
    ensures Inv(DoSeeZero(s))
  {
    hide NamesInv, DrainInv, PlaceInv, VaultInv, HandsInv, TasksInv;
    assert s.gate.permits == {};
    GateStep(s, DoSeeZero(s));
  }

  lemma AbortKeeps(s: State)
    requires Inv(s) && CanAbort(s)
    ensures Inv(DoAbort(s))
  {
    hide NamesInv, DrainInv, PlaceInv, VaultInv, HandsInv, TasksInv;
    GateStep(s, DoAbort(s));
  }

  // ---------------------------------------------------------------- threads without a task

  /** A thread that works on no task changes hands to another such state, or goes. */
  lemma FreeHands(s: State, r: State, a: Actor)
    requires NamesInv(s) && TasksInv(s) && HandsInv(s) && DrainInv(s) && VaultInv(s) && OthersHands(s, r, a)
    requires s.releases == r.releases && s.tasks == r.tasks && s.agent == r.agent && s.vault == r.vault
    requires s.drain == r.drain || !r.drain.Launching?
    requires a in s.hands ==> Mentioned(s.hands[a]).None?
    requires a in r.hands ==> Mentioned(r.hands[a]).None?
    ensures TasksInv(r) && HandsInv(r) && DrainInv(r) && VaultInv(r)
  {
    hide Mentioned, ShapeFor, Unlaunched, Launched, Retired;
    forall u | u in s.agent ensures s.agent[u] in r.hands && r.hands[s.agent[u]] == s.hands[s.agent[u]] {
      var b := s.agent[u];
      assert Mentioned(s.hands[b]) == Some(u);
      assert b in s.hands - {a};
      assert (s.hands - {a})[b] == (r.hands - {a})[b];
    }
    forall b | b in r.hands && b != a ensures b in s.hands && r.hands[b] == s.hands[b] {
      assert b in r.hands - {a};
      assert (s.hands - {a})[b] == (r.hands - {a})[b];
    }
    forall t ensures IsRegistered(r, t) == IsRegistered(s, t) {}
    forall t | t in r.tasks ensures TaskInv(r, t) { assert TaskInv(s, t); }
  }

  lemma CallKeeps(s: State, c: nat, p: Permit, lease: Option<Lease>)
    requires Inv(s) && CanCall(s, c, p, lease)
    ensures Inv(DoCall(s, c, p, lease))
  {
    hide TasksInv, HandsInv, DrainInv, PlaceInv, VaultInv, SameHolding, LeaseOf;
    var r := DoCall(s, c, p, lease);
    FreeHands(s, r, Caller(c));
    if lease.Some? {
      CallPlaces(s, c, p, lease.value);
    } else {
      WorkHolding(s, r, Caller(c));
      PlaceFrame(s, r);
    }
  }

  lemma CallPlaces(s: State, c: nat, p: Permit, l: Lease)
    requires PlaceInv(s) && CanCall(s, c, p, Some(l))
    ensures PlaceInv(DoCall(s, c, p, Some(l)))
  {
    hide LeaseOf;
    var r := DoCall(s, c, p, Some(l));
    forall m: Lease, q: Place | m != l && !q.Gone? ensures Claim(r, m, q) == Claim(s, m, q) {}
    forall q: Place | q != Held(Caller(c)) && !q.Gone? ensures !Claim(r, l, q) { assert !Claim(s, l, q); }
    PlaceMove(s, r, l, Held(Caller(c)));
  }

  lemma ReturnKeeps(s: State, c: nat)
    requires Inv(s) && CanReturn(s, c)
    ensures Inv(WithoutCall(s, c))
  {
    hide TasksInv, HandsInv, DrainInv, PlaceInv, VaultInv, SameHolding, LeaseOf;
    var r := WithoutCall(s, c);
    FreeHands(s, r, Caller(c));
    WorkHolding(s, r, Caller(c));
    PlaceFrame(s, r);
  }

  /** While a call is under way no drain has seen zero. */
  lemma CallMeansOpen(s: State, c: nat)
    requires GateInv(s) && CallsInv(s) && DrainedInv(s) && Caller(c) in s.hands
    ensures !s.sawZero && !s.drained && !s.drain.Launching? && Drainer !in s.hands
  {
    assert c in s.calls;
    assert s.calls[c] in s.gate.permits;
  }

  lemma RegisterKeeps(s: State, c: nat, n: nat)
    requires Inv(s) && CanRegister(s, c, n)
    ensures Inv(DoRegister(s, c, n))
  {
    hide TasksInv, HandsInv, DrainInv, PlaceInv, VaultInv, LeaseOf;
    var r := DoRegister(s, c, n);
    CallMeansOpen(s, c);
    assert SessionName(n) !in s.leases;
    FreeHands(s, r, Caller(c));
    RegisterPlaces(s, c, n);
  }

  lemma RegisterPlaces(s: State, c: nat, n: nat)
    requires PlaceInv(s) && CanRegister(s, c, n) && SessionName(n) !in s.leases
    ensures PlaceInv(DoRegister(s, c, n))
  {
    hide LeaseOf;
    var r, l := DoRegister(s, c, n), s.hands[Caller(c)].lease;
    assert Claim(s, l, Held(Caller(c)));
    forall m: Lease, q: Place | m != l && !q.Gone? ensures Claim(r, m, q) == Claim(s, m, q) {}
    forall q: Place | q != Mapped(SessionName(n)) && !q.Gone? ensures !Claim(r, l, q) {
      if Claim(s, l, q) { assert q == Held(Caller(c)); }
    }
    PlaceMove(s, r, l, Mapped(SessionName(n)));
  }

  // ---------------------------------------------------------------- a thread leaves its task

  /** The hands, calls and drain as `Leave` makes them. */
  predicate Left(s: State, r: State, a: Actor, t: TaskId) {
    && r.gate == s.gate && r.sawZero == s.sawZero && r.drained == s.drained && r.agent == s.agent - {t}
        && r.registry == s.registry
    && if a.Caller? then
         r.hands == s.hands - {a} && r.calls == s.calls - {a.c} && r.drain == s.drain
       else
         && r.hands == s.hands[a := Idle] && r.calls == s.calls && s.drain.Launching? && r.drain.Launching?
         && r.drain.pending == s.drain.pending && r.drain.waiters == s.drain.waiters
             && (s.drain.failed ==> r.drain.failed)
  }

  /** The thread `a` works on `t`. */
  predicate At(s: State, a: Actor, t: TaskId) { a in s.hands && Mentioned(s.hands[a]) == Some(t) }

  lemma LeftHands(s: State, r: State, a: Actor, t: TaskId)
    requires GateInv(s) && CallsInv(s) && HandsInv(s) && Left(s, r, a, t) && At(s, a, t)
    ensures GateInv(r) && CallsInv(r) && HandsInv(r) && OthersHands(s, r, a) && SameHolding(s, r)
    ensures forall u :: u != t && u in s.agent ==> s.agent[u] != a
  {
    hide GateInv, HandsInv, SameHolding;
    assert GateInv(r) by { LeftGate(s, r, a, t); }
    assert OthersHands(s, r, a);
    assert t in s.agent && s.agent[t] == a by { LeftAgent(s, a, t); }
    HandsFrame(s, r, a, t);
    WorkHolding(s, r, a);
  }

  lemma LeftAgent(s: State, a: Actor, t: TaskId)
    requires HandsInv(s) && At(s, a, t)
    ensures t in s.agent && s.agent[t] == a
  {
  }

  lemma LeftGate(s: State, r: State, a: Actor, t: TaskId)
    requires GateInv(s) && Left(s, r, a, t)
    ensures GateInv(r)
  {
  }

  /** A thread gives its task up before launching it or after attaching it. */
  lemma LeaveKeeps(s: State, a: Actor, t: TaskId, failed: bool)
    requires Inv(s) && At(s, a, t) && (s.hands[a].Prepared? || s.hands[a].Waiting?)
    ensures Inv(Leave(s, a, t, failed))
  {
    hide NamesInv, TasksInv, HandsInv, DrainInv, PlaceInv, VaultInv, GateInv, SameHolding, LeaseOf, Unlaunched;
    hide Launched;
    var r := Leave(s, a, t, failed);
    AgentShape(s, a, t);
    LeftHands(s, r, a, t);
    assert WorksOn(s, r, t) || a.Caller?;
    LeaveTasks(s, r, a, t);
    LeaveLists(s, r, t);
    PlaceFrame(s, r);
    LeaveNames(s, r);
  }

  lemma LeaveNames(s: State, r: State)
    requires NamesInv(s) && VaultInv(s) && s.tasks == r.tasks && s.leases == r.leases && s.releases == r.releases
    requires s.issued == r.issued && s.vault == r.vault
    ensures NamesInv(r) && VaultInv(r)
  {
  }

  lemma LeaveLists(s: State, r: State, t: TaskId)
    requires DrainInv(s) && s.tasks == r.tasks && s.releases == r.releases && r.agent == s.agent - {t}
    requires r.drain.Launching? ==>
               s.drain.Launching? && r.drain.pending == s.drain.pending && r.drain.waiters == s.drain.waiters
    ensures DrainInv(r)
  {
    hide Unlaunched, Launched;
    forall u ensures IsRegistered(r, u) == IsRegistered(s, u) {}
  }

  lemma LeaveTasks(s: State, r: State, a: Actor, t: TaskId)
    requires TasksInv(s) && s.tasks == r.tasks && s.releases == r.releases && r.agent == s.agent - {t}
    requires OthersHands(s, r, a) && (forall u :: u != t && u in s.agent ==> s.agent[u] != a)
    requires t in s.tasks && IsRegistered(s, t) && (Unlaunched(s.tasks[t]) || Launched(s.tasks[t]))
    ensures TasksInv(r)
  {
    hide TasksInv, Unlaunched, Launched;
    forall u ensures IsRegistered(r, u) == IsRegistered(s, u) {}
    TasksFrame(s, r, a, t);
  }

  lemma SpawnFailsKeeps(s: State, a: Actor)
    requires Inv(s) && CanSpawn(s, a)
    ensures Inv(DoSpawnFails(s, a))
  {
    hide Inv, Leave;
    LeaveKeeps(s, a, s.hands[a].task, true);
  }

  lemma GiveUpKeeps(s: State, a: Actor)
    requires Inv(s) && Waits(s, a)
    ensures Inv(DoGiveUp(s, a))
  {
    hide Inv, Leave;
    LeaveKeeps(s, a, s.hands[a].task, true);
  }

  // ---------------------------------------------------------------- new tasks

  /** A task `t` for the lease `l` is entered under a name that no task has. */
  predicate Enters(s: State, r: State, name: Name, t: TaskId, l: Lease) {
    && t !in s.tasks && name !in s.releases && (name.SessionName? ==> name in s.issued)
    && r.leases == s.leases - {name} && r.releases == s.releases[name := t] && r.issued == s.issued
    && r.tasks == s.tasks[t := Task(name, Pending(l), [], None, false)] && r.vault == s.vault
        && r.place == s.place[l := Tasked(t)]
  }

  lemma EntersNames(s: State, r: State, name: Name, t: TaskId, l: Lease)
    requires NamesInv(s) && Enters(s, r, name, t, l)
    ensures NamesInv(r) && IsRegistered(r, t)
    ensures forall u :: u in s.tasks ==> IsRegistered(r, u) == IsRegistered(s, u)
  {
  }

  lemma EntersVault(s: State, r: State, name: Name, t: TaskId, l: Lease)
    requires VaultInv(s) && Enters(s, r, name, t, l)
    ensures VaultInv(r)
  {
    hide VaultTask, Unrecorded;
    assert VaultTask(r.vault, r.tasks[t]) by { NewTaskVault(r.vault, name, l); }
    forall u | u in r.tasks ensures VaultTask(r.vault, r.tasks[u]) {
      if u != t { assert VaultTask(s.vault, s.tasks[u]); }
    }
    forall m | r.vault.successes[m] > 0
        ensures m in r.vault.released || exists u :: u in r.tasks && Unrecorded(r.tasks[u], m) {
      if m !in s.vault.released {
        var u :| u in s.tasks && Unrecorded(s.tasks[u], m);
        assert u in r.tasks && Unrecorded(r.tasks[u], m);
      }
    }
  }

  lemma NewTaskVault(v: Vault, name: Name, l: Lease)
    ensures VaultTask(v, Task(name, Pending(l), [], None, false))
  {
  }

  lemma EntersTasks(s: State, r: State, name: Name, t: TaskId, l: Lease, a: Actor)
    requires NamesInv(s) && TasksInv(s) && Enters(s, r, name, t, l) && OthersHands(s, r, a)
    requires s.agent == r.agent - {t}
    requires r.hands == s.hands || forall u :: u != t && u in s.agent ==> s.agent[u] != a
    requires t in r.agent ==> r.agent[t] == a && a in r.hands && r.hands[a] == Prepared(t)
    ensures TasksInv(r)
  {
    hide NamesInv, TasksInv, IsRegistered, Retired, Launched;
    EntersNames(s, r, name, t, l);
    assert TaskInv(r, t);
    assert s.agent - {t} == s.agent by { assert t !in s.agent by { AgentsHaveTasks(s); } }
    assert s.tasks - {t} == r.tasks - {t};
    TasksFrame(s, r, a, t);
  }

  lemma AgentsHaveTasks(s: State)
    requires TasksInv(s)
    ensures forall t :: t in s.agent ==> t in s.tasks
  {
  }

  /** The lease comes from the hands of `a` or from the map. */
  lemma EntersPlaces(s: State, r: State, name: Name, t: TaskId, l: Lease, from: Place)
    requires PlaceInv(s) && Enters(s, r, name, t, l) && Claim(s, l, from) && from != Gone
    requires from == Mapped(name) || (from.Held? && name !in s.leases)
    requires forall a :: a in s.hands && s.hands[a].Holding? ==>
            Held(a) == from || (a in r.hands && r.hands[a] == s.hands[a])
    requires forall a :: a in r.hands && r.hands[a].Holding? ==>
            Held(a) != from && a in s.hands && r.hands[a] == s.hands[a]
    ensures PlaceInv(r)
  {
    hide LeaseOf;
    assert LeaseOf(r.tasks[t]) == Some(l) by { NewLease(name, l); }
    forall m: Lease, q: Place | m != l && !q.Gone? ensures Claim(r, m, q) == Claim(s, m, q) {
      if Claim(s, m, q) { assert q != from; }
    }
    forall q: Place | q != Tasked(t) && !q.Gone? ensures !Claim(r, l, q) {
      if Claim(s, l, q) { assert IsAt(s, l, q) && IsAt(s, l, from); }
    }
    PlaceMove(s, r, l, Tasked(t));
  }

  lemma NewLease(name: Name, l: Lease)
    ensures LeaseOf(Task(name, Pending(l), [], None, false)) == Some(l)
  {
  }

  /** A call enters a task and is its agent. */
  lemma CallerEnters(s: State, r: State, c: nat, name: Name, t: TaskId, l: Lease, from: Place)
    requires Inv(s) && Enters(s, r, name, t, l) && Claim(s, l, from)
    requires Caller(c) in s.hands && r.hands == s.hands[Caller(c) := Prepared(t)] && r.agent == s.agent[t := Caller(c)]
    requires if s.hands[Caller(c)].Holding? then from == Held(Caller(c)) && name !in s.leases
             else s.hands[Caller(c)].Idle? && from == Mapped(name)
    requires r.gate == s.gate && r.calls == s.calls && r.drain == s.drain && r.sawZero == s.sawZero
            && r.drained == s.drained
    ensures Inv(r)
  {
    hide NamesInv, TasksInv, HandsInv, PlaceInv, VaultInv, LeaseOf, Enters;
    CallMeansOpen(s, c);
    assert t !in s.agent by { AgentsHaveTasks(s); EntersNew(s, r, name, t, l); }
    EntersNames(s, r, name, t, l);
    EntersVault(s, r, name, t, l);
    HandsFrame(s, r, Caller(c), t);
    assert s.agent == r.agent - {t};
    EntersTasks(s, r, name, t, l, Caller(c));
    EntersPlaces(s, r, name, t, l, from);
  }

  lemma EntersNew(s: State, r: State, name: Name, t: TaskId, l: Lease)
    requires Enters(s, r, name, t, l)
    ensures t !in s.tasks
  {
  }

  lemma DetachKeeps(s: State, c: nat, n: nat, t: TaskId)
    requires Inv(s) && CanDetach(s, c, n, t)
    ensures Inv(DoDetach(s, c, n, t))
  {
    hide NamesInv, TasksInv, HandsInv, PlaceInv, VaultInv, DrainInv, GateInv, CallsInv, DrainedInv, LeaseOf;
    var l := s.hands[Caller(c)].lease;
    assert s.leases - {DetachedName(n)} == s.leases;
    CallerEnters(s, DoDetach(s, c, n, t), c, DetachedName(n), t, l, Held(Caller(c)));
  }

  lemma ShutdownKeeps(s: State, c: nat, name: Name, t: TaskId)
    requires Inv(s) && CanShutdown(s, c, name, t)
    ensures Inv(DoShutdown(s, c, name, t))
  {
    hide TasksInv, HandsInv, PlaceInv, VaultInv, DrainInv, GateInv, CallsInv, DrainedInv, LeaseOf;
    CallerEnters(s, DoShutdown(s, c, name, t), c, name, t, s.leases[name], Mapped(name));
  }

  lemma PrepareKeeps(s: State, name: Name, t: TaskId)
    requires Inv(s) && CanPrepare(s, name, t)
    ensures Inv(DoPrepare(s, name, t))
  {
    hide TasksInv, HandsInv, PlaceInv, VaultInv, LeaseOf;
    var r, l := DoPrepare(s, name, t), s.leases[name];
    assert Enters(s, r, name, t, l);
    assert s.agent == r.agent - {t} by { AgentsHaveTasks(s); }
    PrepareRest(s, r, name, t, l);
  }

  lemma PrepareRest(s: State, r: State, name: Name, t: TaskId, l: Lease)
    requires NamesInv(s) && TasksInv(s) && HandsInv(s) && PlaceInv(s) && VaultInv(s) && Enters(s, r, name, t, l)
    requires r.hands == s.hands && r.agent == s.agent && s.agent == r.agent - {t} && name in s.leases
            && s.leases[name] == l
    ensures NamesInv(r) && TasksInv(r) && HandsInv(r) && PlaceInv(r) && VaultInv(r)
  {
    hide NamesInv, TasksInv, PlaceInv, VaultInv, LeaseOf, Mentioned;
    EntersNames(s, r, name, t, l);
    EntersVault(s, r, name, t, l);
    EntersTasks(s, r, name, t, l, Drainer);
    PlacedHands(s);
    EntersPlaces(s, r, name, t, l, Mapped(name));
  }

  lemma PlacedHands(s: State)
    requires PlaceInv(s)
    ensures forall a :: a in s.hands && s.hands[a].Holding? ==> Claim(s, s.hands[a].lease, Held(a))
  {
  }

  lemma LetGoKeeps(s: State, name: Name)
    requires Inv(s) && CanLetGo(s, name)
    ensures Inv(DoLetGo(s, name))
  {
    hide NamesInv, TasksInv, HandsInv, PlaceInv, VaultInv, SameHolding, LeaseOf;
    var r := DoLetGo(s, name);
    FreeHands(s, r, Drainer);
    assert SameHolding(s, r) by { SameHands(s, r); }
    PlaceFrame(s, r);
    LeaveNames(s, r);
  }

  lemma SameHands(s: State, r: State)
    requires s.hands == r.hands
    ensures SameHolding(s, r)
  {
  }

  // ---------------------------------------------------------------- collecting and ending

  lemma NoAgents(s: State)
    requires GateInv(s) && CallsInv(s) && HandsInv(s) && s.sawZero && !s.drain.Launching?
    ensures s.hands == map[] && s.agent == map[]
  {
    assert s.calls == map[];
    forall a ensures a !in s.hands {
      if a.Caller? { assert a == Caller(a.c); }
    }
    assert forall t :: t in s.agent ==> s.agent[t] in s.hands;
  }

  lemma CollectKeeps(s: State)
    requires Inv(s) && CanCollect(s)
    ensures Inv(DoCollect(s))
  {
    hide NamesInv, TasksInv, HandsInv, PlaceInv, VaultInv, DrainInv, SameHolding, LeaseOf;
    var r := DoCollect(s);
    NoAgents(s);
    CollectTasks(s);
    WorkHolding(s, r, Drainer);
    PlaceFrame(s, r);
    LeaveNames(s, r);
    assert HandsInv(r) by { CollectHands(r); }
  }

  lemma CollectHands(r: State)
    requires r.hands == map[Drainer := Idle] && r.agent == map[]
    ensures HandsInv(r)
  {
  }

  lemma CollectTasks(s: State)
    requires TasksInv(s) && CanCollect(s) && s.agent == map[]
    ensures TasksInv(DoCollect(s)) && DrainInv(DoCollect(s))
  {
    var r := DoCollect(s);
    forall t ensures IsRegistered(r, t) == IsRegistered(s, t) {}
    forall t | t in r.tasks ensures TaskInv(r, t) { assert TaskInv(s, t); }
  }

  lemma EndKeeps(s: State, ok: bool)
    requires Inv(s) && CanEnd(s, ok)
    ensures Inv(DoEnd(s, ok))
  {
    hide NamesInv, TasksInv, HandsInv, PlaceInv, VaultInv, DrainInv, SameHolding, LeaseOf;
    var r := DoEnd(s, ok);
    FreeHands(s, r, Drainer);
    WorkHolding(s, r, Drainer);
    PlaceFrame(s, r);
    LeaveNames(s, r);
    EndCalls(s, r);
  }

  lemma EndCalls(s: State, r: State)
    requires CallsInv(s) && r.calls == s.calls && r.gate == s.gate && r.hands == s.hands - {Drainer} && r.drain.NoDrain?
    ensures CallsInv(r)
  {
    forall c ensures Caller(c) in r.hands <==> Caller(c) in s.hands {}
  }

  // ---------------------------------------------------------------- completion

  /** The task `t` is taken out of the map, emptied, and left. */
  predicate TakesOut(s: State, r: State, a: Actor, t: TaskId) {
    && t in s.tasks && IsRegistered(s, t) && Left(s, r, a, t) && At(s, a, t)
    && r.releases == s.releases - {s.tasks[t].name} && r.tasks == s.tasks[t := Emptied(s.tasks[t])]
    && r.issued == s.issued && r.vault == s.vault
  }

  lemma TakesOutNames(s: State, r: State, a: Actor, t: TaskId, l: Lease)
    requires NamesInv(s) && TakesOut(s, r, a, t)
    requires r.leases == s.leases || r.leases == s.leases[s.tasks[t].name := l]
    ensures NamesInv(r) && !IsRegistered(r, t)
    ensures forall u :: u != t && u in s.tasks ==> IsRegistered(r, u) == IsRegistered(s, u)
  {
    hide Left, At;
  }

  lemma TakesOutVault(s: State, r: State, a: Actor, t: TaskId)
    requires VaultInv(s) && TakesOut(s, r, a, t) && s.tasks[t].workers == [Exited]
    ensures VaultInv(r)
  {
    hide Left, At, IsRegistered;
    assert VaultTask(r.vault, r.tasks[t]);
    forall u | u in r.tasks ensures VaultTask(r.vault, r.tasks[u]) {
      if u != t { assert VaultTask(s.vault, s.tasks[u]); }
    }
    forall m | r.vault.successes[m] > 0
        ensures m in r.vault.released || exists u :: u in r.tasks && Unrecorded(r.tasks[u], m) {
      if m !in s.vault.released {
        var u :| u in s.tasks && Unrecorded(s.tasks[u], m);
        assert u in r.tasks && Unrecorded(r.tasks[u], m);
      }
    }
  }

  lemma TakesOutTasks(s: State, r: State, a: Actor, t: TaskId, l: Lease)
    requires GateInv(s) && CallsInv(s) && NamesInv(s) && TasksInv(s) && HandsInv(s) && TakesOut(s, r, a, t)
    requires r.leases == s.leases || r.leases == s.leases[s.tasks[t].name := l]
    requires s.tasks[t].workers == [Exited]
    ensures GateInv(r) && CallsInv(r) && TasksInv(r) && HandsInv(r) && SameHolding(s, r)
  {
    hide GateInv, CallsInv, NamesInv, TasksInv, HandsInv, IsRegistered, SameHolding;
    TakesOutNames(s, r, a, t, l);
    LeftHands(s, r, a, t);
    assert TaskInv(r, t);
    assert s.tasks - {t} == r.tasks - {t};
    TasksFrame(s, r, a, t);
  }

  lemma TakesOutLists(s: State, r: State, a: Actor, t: TaskId, l: Lease)
    requires NamesInv(s) && DrainInv(s) && TakesOut(s, r, a, t)
    requires r.leases == s.leases || r.leases == s.leases[s.tasks[t].name := l]
    requires s.drain.Launching? ==> t !in s.drain.pending && t !in s.drain.waiters
    ensures DrainInv(r)
  {
    hide NamesInv, IsRegistered, Launched, Unlaunched, At;
    TakesOutNames(s, r, a, t, l);
  }

  /** The lease leaves its task for `q`: released for good, or back in the map under the task's name. */
  lemma TakesOutPlaces(s: State, r: State, a: Actor, t: TaskId, l: Lease, q: Place)
    requires PlaceInv(s) && TakesOut(s, r, a, t) && LeaseOf(s.tasks[t]) == Some(l) && s.tasks[t].workers == [Exited]
    requires SameHolding(s, r) && r.place == s.place[l := q] && s.tasks[t].name !in s.leases
    requires (q == Gone && l in s.vault.released && r.leases == s.leases)
          || (q == Mapped(s.tasks[t].name) && r.leases == s.leases[s.tasks[t].name := l])
    ensures PlaceInv(r)
  {
    hide LeaseOf, Left, At, IsRegistered;
    assert LeaseOf(r.tasks[t]).None? by { EmptiedHasNone(s.tasks[t]); }
    assert Claim(s, l, Tasked(t));
    forall m: Lease, p: Place | m != l && !p.Gone? ensures Claim(r, m, p) == Claim(s, m, p) {}
    forall p: Place | p != q && !p.Gone? ensures !Claim(r, l, p) {
      if Claim(s, l, p) { assert IsAt(s, l, p) && IsAt(s, l, Tasked(t)); }
    }
    PlaceMove(s, r, l, q);
  }

  lemma EmptiedHasNone(k: Task)
    requires k.workers == [Exited]
    ensures LeaseOf(Emptied(k)).None?
  {
  }

  lemma TakesOutKeeps(s: State, r: State, a: Actor, t: TaskId, l: Lease, q: Place)
    requires Inv(s) && TakesOut(s, r, a, t) && LeaseOf(s.tasks[t]) == Some(l) && s.tasks[t].workers == [Exited]
    requires r.place == s.place[l := q]
    requires (q == Gone && l in s.vault.released && r.leases == s.leases)
          || (q == Mapped(s.tasks[t].name) && r.leases == s.leases[s.tasks[t].name := l])
    ensures Inv(r)
  {
    hide GateInv, CallsInv, VaultInv, TasksInv, HandsInv, SameHolding, PlaceInv, DrainInv, LeaseOf, Left, NamesInv;
    hide Claim;
    assert !s.drained && s.tasks[t].name !in s.leases by { RegisteredNames(s, t); }
    assert s.drain.Launching? ==> t !in s.drain.pending && t !in s.drain.waiters by { AgentShape(s, a, t); }
    TakesOutNames(s, r, a, t, l);
    TakesOutVault(s, r, a, t);
    TakesOutTasks(s, r, a, t, l);
    TakesOutLists(s, r, a, t, l);
    TakesOutPlaces(s, r, a, t, l, q);
    LeftDrained(s, r, a, t);
  }

  lemma LeftDrained(s: State, r: State, a: Actor, t: TaskId)
    requires RegistryInv(s) && Left(s, r, a, t)
    ensures RegistryInv(r) && r.drained == s.drained
  {
  }

  lemma RegisteredNames(s: State, t: TaskId)
    requires NamesInv(s) && DrainedInv(s) && IsRegistered(s, t)
    ensures !s.drained && s.tasks[t].name !in s.leases
  {
  }

  /** What a finished wait finds: a registered task whose only worker has ended and left an outcome. */
  lemma CompleteShape(s: State, a: Actor)
    requires TasksInv(s) && HandsInv(s) && DrainInv(s) && CanComplete(s, a)
    ensures var t := s.hands[a].task;
            IsRegistered(s, t) && s.tasks[t].workers == [Exited] && s.tasks[t].completion.Finished?
  {
    hide TasksInv, HandsInv, DrainInv;
    AgentShape(s, a, s.hands[a].task);
  }

  /** The maps and histories that a settled task leaves, for a registered task with an outcome. */
  lemma SettleEffect(s: State, t: TaskId, joinOk: bool)
    requires IsRegistered(s, t) && s.tasks[t].completion.Finished? && s.tasks[t].name !in s.leases
    ensures var r, k, l := Settle(s, t, joinOk), s.tasks[t], s.tasks[t].completion.lease;
            && r.releases == s.releases - {k.name} && r.tasks == s.tasks[t := Emptied(k)]
            && r.gate == s.gate && r.calls == s.calls && r.hands == s.hands && r.agent == s.agent && r.drain == s.drain
            && r.issued == s.issued && r.registry == s.registry && r.vault == s.vault && r.sawZero == s.sawZero
                && r.drained == s.drained
            && if k.completion.ok && joinOk then
                 r.leases == s.leases && r.place == s.place[l := if l in s.vault.released then Gone else Dropped]
               else
                 r.leases == s.leases[k.name := l] && r.place == s.place[l := Mapped(k.name)]
  {
    hide WithoutTask, Emptied;
    var k := Emptied(s.tasks[t]);
    WithoutTaskEffect(s, t, k);
    assert k.name == s.tasks[t].name by { EmptiedName(s.tasks[t]); }
    if s.tasks[t].completion.ok && joinOk {
      assert Settle(s, t, joinOk) == Forget(WithoutTask(s, t, k), s.tasks[t].completion.lease);
    } else {
      assert Settle(s, t, joinOk) == GiveBack(WithoutTask(s, t, k), s.tasks[t].name, s.tasks[t].completion.lease);
    }
  }

  lemma EmptiedName(k: Task)
    ensures Emptied(k).name == k.name
  {
  }

  lemma WithoutTaskEffect(s: State, t: TaskId, k: Task)
    ensures var r := WithoutTask(s, t, k);
            && r.releases == s.releases - {k.name} && r.tasks == s.tasks[t := k] && r.leases == s.leases
            && r.gate == s.gate && r.calls == s.calls && r.hands == s.hands && r.agent == s.agent && r.drain == s.drain
            && r.issued == s.issued && r.registry == s.registry && r.vault == s.vault && r.sawZero == s.sawZero
            && r.drained == s.drained && r.place == s.place
  {
  }

  lemma LeaveEffect(s: State, a: Actor, t: TaskId, failed: bool)
    ensures var r := Leave(s, a, t, failed);
            && r.leases == s.leases && r.releases == s.releases && r.issued == s.issued && r.tasks == s.tasks
            && r.vault == s.vault && r.place == s.place
            && (a.Caller? || s.drain.Launching? ==> Left(s, r, a, t))
  {
  }

  /** `DoComplete`, read as taking the task out. */
  lemma CompleteEffect(s: State, a: Actor, joinOk: bool)
    requires CallsInv(s) && CanComplete(s, a)
    requires var t := s.hands[a].task;
             IsRegistered(s, t) && s.tasks[t].completion.Finished? && s.tasks[t].name !in s.leases
    ensures var r, t := DoComplete(s, a, joinOk), s.hands[a].task;
            var k, l := s.tasks[t], s.tasks[t].completion.lease;
            && TakesOut(s, r, a, t)
            && if k.completion.ok && joinOk then
                 r.leases == s.leases && r.place == s.place[l := if l in s.vault.released then Gone else Dropped]
               else
                 r.leases == s.leases[k.name := l] && r.place == s.place[l := Mapped(k.name)]
  {
    hide Leave, Settle, SettleFails, Joinable, Emptied;
    var t := s.hands[a].task;
    SettleEffect(s, t, joinOk);
    LeaveEffect(Settle(s, t, joinOk), a, t, SettleFails(s, t, joinOk));
  }

  lemma CompleteKeeps(s: State, a: Actor, joinOk: bool)
    requires Inv(s) && CanComplete(s, a)
    ensures Inv(DoComplete(s, a, joinOk))
  {
    hide TasksInv, HandsInv, DrainInv, PlaceInv, GateInv, CallsInv, Joinable, LeaseOf, DoComplete, TakesOut;
    CompleteShape(s, a);
    var r, t := DoComplete(s, a, joinOk), s.hands[a].task;
    var k := s.tasks[t];
    var l := k.completion.lease;
    assert LeaseOf(k) == Some(l) by { FinishedLease(k); }
    CompleteEffect(s, a, joinOk);
    TakesOutKeeps(s, r, a, t, l, if k.completion.ok && joinOk then Gone else Mapped(k.name));
  }

  lemma FinishedLease(k: Task)
    requires k.completion.Finished?
    ensures LeaseOf(k) == Some(k.completion.lease)
  {
  }

  // ---------------------------------------------------------------- every step, every run

  lemma NextKeeps(s: State, step: Step)
    requires Inv(s)
    ensures Inv(Next(s, step))
  {
    hide Inv;
    if Can(s, step) { DoKeeps(s, step); }
  }

  lemma DoKeeps(s: State, step: Step)
    requires Inv(s) && Can(s, step)
    ensures Inv(Do(s, step))
  {
    hide Inv, DoLock, DoAdd, DoDrop, DoCall, WithoutCall, DoRegister, DoDetach, DoShutdown, DoSpawn, DoSpawnFails;
    hide DoStore, DoAttach, DoTake, DoAsk, DoFinish, DoExit, DoComplete, DoGiveUp, DoEnter, DoClose, DoSeeZero, DoAbort;
    hide DoLetGo, DoPrepare, DoCollect, DoPick, DoAwait, DoEnd, CanLock, CanAdd, CanDrop, CanCall, CanReturn;
    hide CanRegister, CanDetach, CanShutdown, CanSpawn, CanStore, CanAttach, CanTake, CanAsk, CanFinish, CanExit;
    hide CanComplete, Waits, CanEnter, CanClose, CanSeeZero, CanAbort, CanLetGo, CanPrepare, CanCollect, CanPick;
    hide CanAwait, CanEnd;
    match step
    case Lock(p) => LockKeeps(s, p);
    case Add => AddKeeps(s);
    case Drop(p) => DropKeeps(s, p);
    case Call(c, p, l) => CallKeeps(s, c, p, l);
    case Return(c) => ReturnKeeps(s, c);
    case Register(c, n) => RegisterKeeps(s, c, n);
    case Detach(c, n, t) => DetachKeeps(s, c, n, t);
    case Shutdown(c, name, t) => ShutdownKeeps(s, c, name, t);
    case Spawn(a) => SpawnKeeps(s, a);
    case SpawnFails(a) => SpawnFailsKeeps(s, a);
    case Store(a) => StoreKeeps(s, a);
    case Attach(a) => AttachKeeps(s, a);
    case Take(t, i) => TakeKeeps(s, t, i);
    case Ask(t, i, late, vaultOk) => AskKeeps(s, t, i, late, vaultOk);
    case Finish(t, i) => FinishKeeps(s, t, i);
    case Exit(t, i) => ExitKeeps(s, t, i);
    case Complete(a, joinOk) => CompleteKeeps(s, a, joinOk);
    case GiveUp(a) => GiveUpKeeps(s, a);
    case Enter => EnterKeeps(s);
    case Close => CloseKeeps(s);
    case SeeZero => SeeZeroKeeps(s);
    case Abort => AbortKeeps(s);
    case LetGo(name) => LetGoKeeps(s, name);
    case Prepare(name, t) => PrepareKeeps(s, name, t);
    case Collect => CollectKeeps(s);
    case Pick(t) => PickKeeps(s, t);
    case Await(t) => AwaitKeeps(s, t);
    case End(ok) => EndKeeps(s, ok);
  }

  lemma {:induction false} RunKeeps(steps: seq<Step>)
    ensures Inv(After(START, steps))
  {
    hide Inv, Next;
    if steps == [] {
      StartInv();
    } else {
      RunKeeps(steps[..|steps| - 1]);
      NextKeeps(After(START, steps[..|steps| - 1]), steps[|steps| - 1]);
    }
  }
}
