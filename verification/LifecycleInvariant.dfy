/** What every step of the lifecycle keeps. */
module LifecycleInvariant {
  import opened Text
  import opened Lifecycle

  // ---------------------------------------------------------------- the invariant

  /** The counter is the number of permits, and once a drain has seen zero the gate stays shut and empty. */
  predicate GateInv(s: State) {
    && s.gate.active == |s.gate.permits|
    && (s.gate.admitting.Some? ==> s.gate.admitting.value !in s.gate.permits)
    && (s.sawZero ==> s.gate.closed && s.gate.admitting.None? && s.gate.permits == {})
    && (s.drain.Closing? ==> s.gate.closed)
    && (s.drain.Preparing? || s.drain.Launching? ==> s.sawZero)
  }

  /** Calls own permits; the drainer has hands exactly while it works on releases. */
  ghost predicate CallsInv(s: State) {
    && (forall c :: c in s.calls ==> s.calls[c] in s.gate.permits)
    && (forall c :: Caller(c) in s.hands <==> c in s.calls)
    && (Drainer in s.hands <==> s.drain.Launching?)
    && (Drainer in s.hands ==> !s.hands[Drainer].Holding?)
  }

  predicate NamesInv(s: State) {
    && (forall n :: n in s.leases && n.SessionName? ==> n in s.issued)
    && (forall n :: n in s.releases && n.SessionName? ==> n in s.issued)
    && (forall n :: n in s.leases ==> n !in s.releases)
    && (forall n :: n in s.releases ==> s.releases[n] in s.tasks && s.tasks[s.releases[n]].name == n)
  }

  // The shapes of a task, in the order it goes through them.

  predicate Unlaunched(k: Task) { k.workers == [] && k.completion.Pending? && k.handle.None? && !k.attached }
  predicate NewWorker(k: Task) { k.workers == [Parked] && k.completion.Pending? && k.handle.None? && !k.attached }
  predicate StoredWorker(k: Task) {
    k.workers == [Parked] && k.completion.Pending? && k.handle == Some(0) && !k.attached
  }

  predicate Launched(k: Task) {
    && |k.workers| == 1 && k.handle == Some(0) && k.attached
    && match k.workers[0] {
         case Parked => k.completion.Pending?
         case Took(_) => k.completion.Running?
         case Answered(_, _, _) => k.completion.Running?
         case Wrote => k.completion.Finished?
         case Exited => k.completion.Finished?
       }
  }

  predicate Retired(k: Task) { k.workers == [Exited] && k.completion.Running? && k.handle.None? }

  /** The shape a task has while `h` works on it. */
  predicate ShapeFor(k: Task, t: TaskId, h: Hands) {
    match h
    case Prepared(u) => u == t && Unlaunched(k)
    case Spawned(u, i) => u == t && i == 0 && NewWorker(k)
    case Stored(u) => u == t && StoredWorker(k)
    case Waiting(u) => u == t && Launched(k)
    case _ => false
  }

  predicate TaskInv(s: State, t: TaskId)
    requires t in s.tasks
  {
    if t in s.agent then IsRegistered(s, t) && s.agent[t] in s.hands && ShapeFor(s.tasks[t], t, s.hands[s.agent[t]])
    else if IsRegistered(s, t) then Unlaunched(s.tasks[t]) || Launched(s.tasks[t])
    else Retired(s.tasks[t])
  }

  predicate TasksInv(s: State) {
    && (forall t :: t in s.tasks ==> TaskInv(s, t))
    && (forall t :: t in s.agent ==> t in s.tasks)
  }

  function Mentioned(h: Hands): Option<TaskId> {
    match h
    case Idle => None
    case Holding(_) => None
    case Prepared(t) => Some(t)
    case Spawned(t, _) => Some(t)
    case Stored(t) => Some(t)
    case Waiting(t) => Some(t)
  }

  predicate HandsInv(s: State) {
    && (forall a :: a in s.hands && Mentioned(s.hands[a]).Some? ==>
          var t := Mentioned(s.hands[a]).value; t in s.agent && s.agent[t] == a)
    && (forall t :: t in s.agent ==> s.agent[t] in s.hands && Mentioned(s.hands[s.agent[t]]) == Some(t))
  }

  predicate DrainInv(s: State) {
    s.drain.Launching? ==>
      && (forall t :: t in s.drain.pending ==>
          t in s.tasks && t !in s.agent && IsRegistered(s, t) && Unlaunched(s.tasks[t]))
      && (forall t :: t in s.drain.waiters ==>
          t in s.tasks && t !in s.agent && IsRegistered(s, t) && Launched(s.tasks[t]))
  }

  /** The lease that a task owns, in its completion or in its worker's hands. */
  function LeaseOf(k: Task): Option<Lease> {
    match k.completion
    case Pending(l) => Some(l)
    case Finished(l, _) => Some(l)
    case Running => if |k.workers| > 0 && (k.workers[0].Took? || k.workers[0].Answered?) then Some(k.workers[0].lease)
        else None
  }

  /** The state has lease `l` at `p`; nothing may be dropped. */
  predicate Claim(s: State, l: Lease, p: Place) {
    match p
    case Held(a) => a in s.hands && s.hands[a] == Holding(l)
    case Mapped(n) => n in s.leases && s.leases[n] == l
    case Tasked(t) => t in s.tasks && LeaseOf(s.tasks[t]) == Some(l)
    case Gone => l in s.vault.released
    case Dropped => false
  }

  predicate IsAt(s: State, l: Lease, p: Place) { l in s.place && s.place[l] == p }

  /** Every lease is where `place` says, and nowhere else. */
  ghost predicate PlaceInv(s: State) {
    && (forall l :: l in s.place ==> Claim(s, l, s.place[l]))
    && (forall l, p :: Claim(s, l, p) ==> p.Gone? || IsAt(s, l, p))
  }

  /** The vault has released the lease's session and the worker has not recorded it yet. */
  predicate Unrecorded(k: Task, l: Lease) { k.workers != [] && k.workers[0] == Answered(l, true, true) }

  predicate VaultTask(v: Vault, k: Task) {
    && (k.completion.Finished? && k.completion.ok ==> k.completion.lease in v.released)
    && (k.workers != [] && k.workers[0].Answered? && k.workers[0].ok ==>
          var l := k.workers[0].lease;
          if k.workers[0].asked then l !in v.released && v.successes[l] == 1 else l in v.released)
  }

  /** A session is successfully released once when that is recorded or about to be, and else never. */
  ghost predicate VaultInv(s: State) {
    && (forall t :: t in s.tasks ==> VaultTask(s.vault, s.tasks[t]))
    && (forall l :: l in s.vault.released ==> s.vault.successes[l] == 1)
    && (forall l :: s.vault.successes[l] > 0 ==>
        l in s.vault.released || exists t :: t in s.tasks && Unrecorded(s.tasks[t], l))
  }

  /** A drain whose registry drain succeeded meets no session of the registry any more. */
  predicate RegistryInv(s: State) { s.drain.Launching? && !s.drain.failed ==> s.registry == {} }

  predicate DrainedInv(s: State) {
    s.drained ==> s.sawZero && s.leases == map[] && s.releases == map[] && s.registry == {}
  }

  ghost predicate Inv(s: State) {
    && GateInv(s) && CallsInv(s) && NamesInv(s) && TasksInv(s) && HandsInv(s)
    && DrainInv(s) && PlaceInv(s) && VaultInv(s) && RegistryInv(s) && DrainedInv(s)
  }

  lemma StartInv()
    ensures Inv(START)
  {
  }

  // ---------------------------------------------------------------- frames

  /** Nobody but `a` changes hands. */
  predicate OthersHands(s: State, r: State, a: Actor) { s.hands - {a} == r.hands - {a} }

  /** The hands and agent of tasks other than `t` are as before. */
  lemma HandsFrame(s: State, r: State, a: Actor, t: TaskId)
    requires HandsInv(s) && OthersHands(s, r, a)
    requires a in s.hands ==> Mentioned(s.hands[a]).None? || Mentioned(s.hands[a]) == Some(t)
    requires s.agent - {t} == r.agent - {t}
    requires t in s.agent ==> s.agent[t] == a
    requires if t in r.agent then r.agent[t] == a && a in r.hands && Mentioned(r.hands[a]) == Some(t)
             else a in r.hands ==> Mentioned(r.hands[a]).None?
    ensures HandsInv(r)
    ensures forall u :: u != t && u in s.agent ==> s.agent[u] != a
  {
    hide Mentioned;
    forall u | u in s.agent && u != t ensures s.agent[u] != a {
      assert Mentioned(s.hands[s.agent[u]]) == Some(u);
    }
    forall b | b in r.hands && Mentioned(r.hands[b]).Some? && b != a
      ensures var u := Mentioned(r.hands[b]).value; u in r.agent && r.agent[u] == b
    {
      assert b in (r.hands - {a}) && b in s.hands;
      assert (s.hands - {a})[b] == (r.hands - {a})[b];
      var u := Mentioned(s.hands[b]).value;
      assert s.agent[u] == b;
      assert u in s.agent - {t};
      assert (s.agent - {t})[u] == (r.agent - {t})[u];
    }
    forall u | u in r.agent && u != t ensures r.agent[u] in r.hands && Mentioned(r.hands[r.agent[u]]) == Some(u) {
      assert u in r.agent - {t};
      assert (s.agent - {t})[u] == (r.agent - {t})[u];
      var b := s.agent[u];
      assert b in s.hands - {a};
      assert (s.hands - {a})[b] == (r.hands - {a})[b];
    }
  }

  /** Only task `t` and the hands of `a`, who works on nothing else, change. */
  lemma TasksFrame(s: State, r: State, a: Actor, t: TaskId)
    requires TasksInv(s) && OthersHands(s, r, a)
    requires s.tasks - {t} == r.tasks - {t} && s.agent - {t} == r.agent - {t}
    requires r.hands == s.hands || forall u :: u != t && u in s.agent ==> s.agent[u] != a
    requires forall u :: u != t && u in s.tasks ==> IsRegistered(r, u) == IsRegistered(s, u)
    requires if t in r.tasks then TaskInv(r, t) else t !in r.agent
    ensures TasksInv(r)
  {
    hide ShapeFor, Unlaunched, Launched, Retired, IsRegistered;
    forall u | u in r.tasks && u != t ensures TaskInv(r, u) {
      assert u in r.tasks - {t};
      assert (s.tasks - {t})[u] == (r.tasks - {t})[u];
      assert u in s.agent <==> u in (s.agent - {t});
      assert u in r.agent <==> u in (r.agent - {t});
      if u in r.agent {
        assert (s.agent - {t})[u] == (r.agent - {t})[u];
        var b := s.agent[u];
        if b != a {
          assert b in s.hands - {a};
          assert (s.hands - {a})[b] == (r.hands - {a})[b];
        }
      }
      assert TaskInv(s, u);
    }
    forall u | u in r.agent && u != t ensures u in r.tasks {
      assert u in s.agent - {t};
      assert u in s.tasks - {t};
    }
  }

  predicate SameHolding(s: State, r: State) {
    && (forall a :: a in s.hands && s.hands[a].Holding? ==> a in r.hands && r.hands[a] == s.hands[a])
    && (forall a :: a in r.hands && r.hands[a].Holding? ==> a in s.hands && s.hands[a] == r.hands[a])
  }

  predicate SameOwned(s: State, r: State) {
    s.tasks.Keys == r.tasks.Keys && forall t :: t in s.tasks ==> LeaseOf(r.tasks[t]) == LeaseOf(s.tasks[t])
  }

  lemma PlaceFrame(s: State, r: State)
    requires PlaceInv(s) && s.place == r.place && s.leases == r.leases && s.vault.released <= r.vault.released
    requires SameHolding(s, r) && SameOwned(s, r)
    ensures PlaceInv(r)
  {
    hide LeaseOf;
    forall l: Lease, p: Place | !p.Gone? ensures Claim(r, l, p) == Claim(s, l, p) {}
    forall l | l in r.place ensures Claim(r, l, r.place[l]) { assert Claim(s, l, s.place[l]); }
    forall l, p | Claim(r, l, p) && !p.Gone? ensures IsAt(r, l, p) { assert Claim(s, l, p); }
  }

  /** Lease `l` moves to `q`, the others stay. */
  lemma PlaceMove(s: State, r: State, l: Lease, q: Place)
    requires PlaceInv(s) && r.place == s.place[l := q] && Claim(r, l, q) && s.vault.released <= r.vault.released
    requires forall p: Place :: p != q && !p.Gone? ==> !Claim(r, l, p)
    requires forall m: Lease, p: Place :: m != l && !p.Gone? ==> Claim(r, m, p) == Claim(s, m, p)
    ensures PlaceInv(r)
  {
    forall m | m in r.place ensures Claim(r, m, r.place[m]) {
      if m != l { assert Claim(s, m, s.place[m]); }
    }
    forall m, p | Claim(r, m, p) && !p.Gone? ensures IsAt(r, m, p) {
      if m != l { assert Claim(s, m, p); }
    }
  }

  /** Nothing but the stages of the gate, the calls and the drain differs. */
  predicate SameCore(s: State, r: State) {
    && s.hands == r.hands && s.leases == r.leases && s.releases == r.releases && s.issued == r.issued
    && s.registry == r.registry && s.tasks == r.tasks && s.vault == r.vault && s.place == r.place && s.agent == r.agent
  }

  lemma CoreFrame(s: State, r: State)
    requires NamesInv(s) && TasksInv(s) && HandsInv(s) && DrainInv(s) && PlaceInv(s) && VaultInv(s) && SameCore(s, r)
    requires r.drain == s.drain || !r.drain.Launching?
    ensures NamesInv(r) && TasksInv(r) && HandsInv(r) && DrainInv(r) && PlaceInv(r) && VaultInv(r)
  {
    hide LeaseOf, Mentioned, ShapeFor, Unlaunched, Launched, Retired, Claim, IsAt, PlaceInv;
    forall t | t in r.tasks ensures TaskInv(r, t) { assert TaskInv(s, t); }
    forall t ensures IsRegistered(r, t) == IsRegistered(s, t) {}
    PlaceFrame(s, r);
  }

  /** Work on task `t` leaves the maps and the places of the leases alone. */
  predicate WorksOn(s: State, r: State, t: TaskId) {
    && s.gate == r.gate && s.calls == r.calls && s.sawZero == r.sawZero && s.drained == r.drained
    && s.leases == r.leases && s.releases == r.releases && s.issued == r.issued && s.registry == r.registry
        && s.place == r.place
    && t in s.tasks && t in r.tasks && s.tasks - {t} == r.tasks - {t}
    && s.tasks[t].name == r.tasks[t].name && LeaseOf(s.tasks[t]) == LeaseOf(r.tasks[t])
  }

  lemma WorkNames(s: State, r: State, t: TaskId)
    requires WorksOn(s, r, t) && NamesInv(s)
    ensures NamesInv(r) && s.tasks.Keys == r.tasks.Keys
    ensures forall u :: u in s.tasks ==> IsRegistered(r, u) == IsRegistered(s, u)
  {
    hide LeaseOf;
    forall u ensures u in s.tasks <==> u in r.tasks {
      assert u in s.tasks - {t} <==> u in r.tasks - {t};
    }
    forall u | u in s.tasks && u != t ensures r.tasks[u] == s.tasks[u] {
      assert (s.tasks - {t})[u] == (r.tasks - {t})[u];
    }
  }

  lemma WorkPlaces(s: State, r: State, t: TaskId)
    requires WorksOn(s, r, t) && s.tasks.Keys == r.tasks.Keys && PlaceInv(s) && SameHolding(s, r)
    requires s.vault.released <= r.vault.released
    ensures PlaceInv(r)
  {
    hide LeaseOf, SameHolding, PlaceInv;
    forall u | u in s.tasks ensures LeaseOf(r.tasks[u]) == LeaseOf(s.tasks[u]) {
      if u != t { assert (s.tasks - {t})[u] == (r.tasks - {t})[u]; }
    }
    PlaceFrame(s, r);
  }

  /** Outcomes and answers of a task stay as they are. */
  predicate SameAnswer(k: Task, m: Task) {
    && (k.completion.Finished? || m.completion.Finished? ==> k.completion == m.completion)
    && (k.workers != [] && k.workers[0].Answered? ==> m.workers != [] && m.workers[0] == k.workers[0])
    && (m.workers != [] && m.workers[0].Answered? ==> k.workers != [] && k.workers[0] == m.workers[0])
  }

  lemma SameTasks(s: State, r: State, t: TaskId)
    requires WorksOn(s, r, t)
    ensures forall u :: u in s.tasks <==> u in r.tasks
    ensures forall u :: u in r.tasks && u != t ==> r.tasks[u] == s.tasks[u]
  {
    hide LeaseOf;
    forall u ensures u in s.tasks <==> u in r.tasks { assert u in s.tasks - {t} <==> u in r.tasks - {t}; }
    forall u | u in r.tasks && u != t ensures r.tasks[u] == s.tasks[u] {
      assert (s.tasks - {t})[u] == (r.tasks - {t})[u];
    }
  }

  lemma WorkVault(s: State, r: State, t: TaskId)
    requires WorksOn(s, r, t) && VaultInv(s) && s.vault == r.vault && SameAnswer(s.tasks[t], r.tasks[t])
    ensures VaultInv(r)
  {
    SameTasks(s, r, t);
    hide WorksOn, LeaseOf;
    assert VaultTask(s.vault, s.tasks[t]);
    forall l | r.vault.successes[l] > 0
        ensures l in r.vault.released || exists u :: u in r.tasks && Unrecorded(r.tasks[u], l) {
      if l !in s.vault.released {
        var u :| u in s.tasks && Unrecorded(s.tasks[u], l);
        assert u in r.tasks && Unrecorded(r.tasks[u], l);
      }
    }
  }

  /** The drain's lists differ at most in `t`. */
  lemma WorkDrain(s: State, r: State, t: TaskId)
    requires WorksOn(s, r, t) && NamesInv(s) && DrainInv(s) && s.agent - {t} == r.agent - {t}
    requires r.drain.Launching? ==>
      && s.drain.Launching? && r.drain.pending <= s.drain.pending + {t} && r.drain.waiters <= s.drain.waiters + {t}
      && (t in r.drain.pending ==> t !in r.agent && IsRegistered(s, t) && Unlaunched(r.tasks[t]))
      && (t in r.drain.waiters ==> t !in r.agent && IsRegistered(s, t) && Launched(r.tasks[t]))
    ensures DrainInv(r)
  {
    hide LeaseOf, IsRegistered, NamesInv, Unlaunched, Launched;
    WorkNames(s, r, t);
    if r.drain.Launching? {
      forall u | u != t && u in r.tasks ensures r.tasks[u] == s.tasks[u] && (u in r.agent ==> u in s.agent) {
        assert (s.tasks - {t})[u] == (r.tasks - {t})[u];
        assert u in r.agent ==> u in r.agent - {t};
      }
    }
  }

  /** The hands of `a` change between two kinds that hold no lease. */
  lemma WorkHolding(s: State, r: State, a: Actor)
    requires OthersHands(s, r, a)
    requires a in s.hands ==> !s.hands[a].Holding?
    requires a in r.hands ==> !r.hands[a].Holding?
    ensures SameHolding(s, r)
  {
    forall b | b != a && (b in s.hands || b in r.hands) ensures b in s.hands && b in r.hands
        && r.hands[b] == s.hands[b] {
      assert b in s.hands - {a} <==> b in r.hands - {a};
      assert (s.hands - {a})[b] == (r.hands - {a})[b];
    }
  }

  /** One thread moves on with its task. */
  lemma ActorWork(s: State, r: State, a: Actor, t: TaskId)
    requires Inv(s) && WorksOn(s, r, t) && OthersHands(s, r, a) && s.vault == r.vault
    requires a in s.hands && !s.hands[a].Holding? && (Mentioned(s.hands[a]).None? || Mentioned(s.hands[a]) == Some(t))
    requires a in r.hands && !r.hands[a].Holding?
    requires s.agent - {t} == r.agent - {t} && (t in s.agent ==> s.agent[t] == a)
    requires if t in r.agent then r.agent[t] == a && Mentioned(r.hands[a]) == Some(t) else Mentioned(r.hands[a]).None?
    requires TaskInv(r, t) && SameAnswer(s.tasks[t], r.tasks[t])
    requires (r.drain.Launching? <==> s.drain.Launching?) && (!r.drain.Launching? ==> r.drain == s.drain)
    requires r.drain.Launching? && s.drain.failed ==> r.drain.failed
    requires r.drain.Launching? ==>
      && r.drain.pending <= s.drain.pending + {t} && r.drain.waiters <= s.drain.waiters + {t}
      && (t in r.drain.pending ==> t !in r.agent && IsRegistered(s, t) && Unlaunched(r.tasks[t]))
      && (t in r.drain.waiters ==> t !in r.agent && IsRegistered(s, t) && Launched(r.tasks[t]))
    ensures Inv(r)
  {
    hide LeaseOf, Mentioned, IsRegistered, NamesInv, TasksInv, HandsInv, DrainInv, PlaceInv, TaskInv, Unlaunched,
        Launched,
      WorksOn, SameAnswer, VaultInv;
    WorkNames(s, r, t);
    WorkHolding(s, r, a);
    HandsFrame(s, r, a, t);
    WorkTasks(s, r, a, t);
    WorkDrain(s, r, t);
    WorkPlaces(s, r, t);
    WorkRest(s, r, a, t);
  }

  lemma WorkTasks(s: State, r: State, a: Actor, t: TaskId)
    requires TasksInv(s) && WorksOn(s, r, t) && OthersHands(s, r, a) && s.agent - {t} == r.agent - {t}
    requires r.hands == s.hands || forall u :: u != t && u in s.agent ==> s.agent[u] != a
    requires forall u :: u in s.tasks ==> IsRegistered(r, u) == IsRegistered(s, u)
    requires TaskInv(r, t)
    ensures TasksInv(r)
  {
    hide LeaseOf, IsRegistered, TasksInv, TaskInv;
    TasksFrame(s, r, a, t);
  }

  lemma WorkRest(s: State, r: State, a: Actor, t: TaskId)
    requires GateInv(s) && CallsInv(s) && VaultInv(s) && RegistryInv(s) && DrainedInv(s)
    requires WorksOn(s, r, t) && OthersHands(s, r, a) && s.vault == r.vault && SameAnswer(s.tasks[t], r.tasks[t])
    requires a in s.hands && a in r.hands && !r.hands[a].Holding?
    requires (r.drain.Launching? <==> s.drain.Launching?) && (!r.drain.Launching? ==> r.drain == s.drain)
    requires r.drain.Launching? && s.drain.failed ==> r.drain.failed
    ensures GateInv(r) && CallsInv(r) && VaultInv(r) && RegistryInv(r) && DrainedInv(r)
  {
    hide LeaseOf, SameAnswer, VaultInv;
    WorkVault(s, r, t);
    forall b ensures b in s.hands <==> b in r.hands {
      if b != a { assert b in s.hands - {a} <==> b in r.hands - {a}; }
    }
  }

  // ---------------------------------------------------------------- launching

  /** What the invariant says of the task a thread works on. */
  lemma AgentShape(s: State, a: Actor, t: TaskId)
    requires TasksInv(s) && HandsInv(s) && DrainInv(s) && a in s.hands && Mentioned(s.hands[a]) == Some(t)
    ensures t in s.tasks && t in s.agent && s.agent[t] == a && IsRegistered(s, t) && ShapeFor(s.tasks[t], t, s.hands[a])
    ensures s.drain.Launching? ==> t !in s.drain.pending && t !in s.drain.waiters
  {
    hide Mentioned, ShapeFor, Unlaunched, Launched, Retired;
    assert TaskInv(s, t);
  }

  lemma SpawnKeeps(s: State, a: Actor)
    requires Inv(s) && CanSpawn(s, a)
    ensures Inv(DoSpawn(s, a))
  {
    hide NamesInv, DrainInv, PlaceInv, GateInv, CallsInv, VaultInv, HandsInv, TasksInv, DrainedInv;
    var r, t := DoSpawn(s, a), s.hands[a].task;
    AgentShape(s, a, t);
    ActorWork(s, r, a, t);
  }

  lemma StoreKeeps(s: State, a: Actor)
    requires Inv(s) && CanStore(s, a)
    ensures Inv(DoStore(s, a))
  {
    hide NamesInv, DrainInv, PlaceInv, GateInv, CallsInv, VaultInv, HandsInv, TasksInv, DrainedInv;
    var r, t := DoStore(s, a), s.hands[a].task;
    AgentShape(s, a, t);
    ActorWork(s, r, a, t);
  }

  lemma AttachKeeps(s: State, a: Actor)
    requires Inv(s) && CanAttach(s, a)
    ensures Inv(DoAttach(s, a))
  {
    hide NamesInv, DrainInv, PlaceInv, GateInv, CallsInv, VaultInv, HandsInv, TasksInv, DrainedInv;
    var r, t := DoAttach(s, a), s.hands[a].task;
    AgentShape(s, a, t);
    assert Launched(r.tasks[t]);
    ActorWork(s, r, a, t);
  }

  lemma PickKeeps(s: State, t: TaskId)
    requires Inv(s) && CanPick(s, t)
    ensures Inv(DoPick(s, t))
  {
    hide NamesInv, PlaceInv, GateInv, CallsInv, VaultInv, HandsInv, TasksInv, DrainedInv, LeaseOf;
    ActorWork(s, DoPick(s, t), Drainer, t);
  }

  lemma AwaitKeeps(s: State, t: TaskId)
    requires Inv(s) && CanAwait(s, t)
    ensures Inv(DoAwait(s, t))
  {
    hide NamesInv, PlaceInv, GateInv, CallsInv, VaultInv, HandsInv, TasksInv, DrainedInv, LeaseOf;
    ActorWork(s, DoAwait(s, t), Drainer, t);
  }

  // ---------------------------------------------------------------- the workers

  lemma WorkerShape(s: State, t: TaskId, i: nat)
    requires TasksInv(s) && HasWorker(s, t, i)
    requires match s.tasks[t].workers[i] case Parked => s.tasks[t].attached case Exited => false case _ => true
    ensures Launched(s.tasks[t]) && i == 0 && IsRegistered(s, t)
    ensures t in s.agent ==> s.agent[t] in s.hands && s.hands[s.agent[t]] == Waiting(t)
  {
    assert TaskInv(s, t);
  }

  /** A worker moves on: its task stays launched. */
  lemma WorkerWork(s: State, r: State, t: TaskId)
    requires Inv(s) && WorksOn(s, r, t) && r.hands == s.hands && r.agent == s.agent && r.drain == s.drain
    requires Launched(s.tasks[t]) && Launched(r.tasks[t]) && IsRegistered(s, t)
    requires t in s.agent ==> s.agent[t] in s.hands && s.hands[s.agent[t]] == Waiting(t)
    requires s.vault.released <= r.vault.released && VaultInv(r)
    ensures Inv(r)
  {
    hide LeaseOf, NamesInv, TasksInv, PlaceInv, VaultInv, Mentioned, Launched;
    WorkNames(s, r, t);
    assert TaskInv(r, t);
    WorkTasks(s, r, Drainer, t);
    WorkListed(s, r, t);
    WorkPlaces(s, r, t);
  }

  lemma WorkListed(s: State, r: State, t: TaskId)
    requires NamesInv(s) && DrainInv(s) && WorksOn(s, r, t) && r.agent == s.agent && r.drain == s.drain
    requires Launched(s.tasks[t]) && Launched(r.tasks[t]) && IsRegistered(s, t)
    ensures DrainInv(r)
  {
    hide LeaseOf, NamesInv, IsRegistered;
    WorkDrain(s, r, t);
  }

  lemma TakeKeeps(s: State, t: TaskId, i: nat)
    requires Inv(s) && CanTake(s, t, i)
    ensures Inv(DoTake(s, t, i))
  {
    hide NamesInv, DrainInv, PlaceInv, GateInv, CallsInv, HandsInv, TasksInv, DrainedInv, VaultInv;
    WorkerShape(s, t, i);
    WorkVault(s, DoTake(s, t, i), t);
    WorkerWork(s, DoTake(s, t, i), t);
  }

  /** Nobody else has the lease that a worker holds, so nobody else has an answer about it. */
  lemma OnlyAnswer(s: State, t: TaskId, u: TaskId, l: Lease)
    requires TasksInv(s) && PlaceInv(s) && t in s.tasks && u in s.tasks && LeaseOf(s.tasks[t]) == Some(l)
            && Unrecorded(s.tasks[u], l)
    ensures u == t
  {
    assert TaskInv(s, u);
    assert LeaseOf(s.tasks[u]) == Some(l);
    assert Claim(s, l, Tasked(t)) && Claim(s, l, Tasked(u));
    assert IsAt(s, l, Tasked(t)) && IsAt(s, l, Tasked(u));
  }

  /** A second success is excluded because no other worker has the lease. */
  lemma NotReleasedYet(s: State, t: TaskId, l: Lease)
    requires TasksInv(s) && PlaceInv(s) && VaultInv(s) && t in s.tasks && LeaseOf(s.tasks[t]) == Some(l)
    requires !Unrecorded(s.tasks[t], l) && l !in s.vault.released
    ensures s.vault.successes[l] == 0
  {
    hide LeaseOf, TasksInv, PlaceInv;
    if s.vault.successes[l] > 0 {
      var u :| u in s.tasks && Unrecorded(s.tasks[u], l);
      OnlyAnswer(s, t, u, l);
    }
  }

  lemma AskEffect(s: State, t: TaskId, late: bool, vaultOk: bool)
    requires CanAsk(s, t, 0)
    ensures var r, l := DoAsk(s, t, 0, late, vaultOk), s.tasks[t].workers[0].lease;
            var known := l in s.vault.released;
            var w := Answered(l, !late && (known || vaultOk), !late && !known);
            && r.tasks == s.tasks[t := WithWorker(s.tasks[t], 0, w)] && r.vault.released == s.vault.released
            && r.vault.successes == if w.ok && w.asked then s.vault.successes + multiset{l} else s.vault.successes
  {
    hide WithWorker;
  }

  lemma AskTask(s: State, t: TaskId, late: bool, vaultOk: bool, u: TaskId)
    requires TasksInv(s) && PlaceInv(s) && VaultInv(s) && CanAsk(s, t, 0) && u in s.tasks
    requires LeaseOf(s.tasks[t]) == Some(s.tasks[t].workers[0].lease)
    ensures var r := DoAsk(s, t, 0, late, vaultOk); u in r.tasks && VaultTask(r.vault, r.tasks[u])
  {
    hide LeaseOf, TasksInv, PlaceInv, DoAsk;
    AskEffect(s, t, late, vaultOk);
    var l := s.tasks[t].workers[0].lease;
    assert VaultTask(s.vault, s.tasks[u]) && VaultTask(s.vault, s.tasks[t]);
    if l !in s.vault.released { NotReleasedYet(s, t, l); }
    if Unrecorded(s.tasks[u], l) { OnlyAnswer(s, t, u, l); }
  }

  lemma AskSuccesses(s: State, t: TaskId, late: bool, vaultOk: bool, m: Lease)
    requires VaultInv(s) && CanAsk(s, t, 0)
    ensures var r := DoAsk(s, t, 0, late, vaultOk);
            r.vault.successes[m] > 0 ==> m in r.vault.released || exists u :: u in r.tasks && Unrecorded(r.tasks[u], m)
  {
    hide DoAsk, VaultTask;
    AskEffect(s, t, late, vaultOk);
    var r := DoAsk(s, t, 0, late, vaultOk);
    if r.vault.successes[m] > 0 && m !in s.vault.released {
      if s.vault.successes[m] > 0 {
        var u :| u in s.tasks && Unrecorded(s.tasks[u], m);
        assert u in r.tasks && Unrecorded(r.tasks[u], m);
      } else {
        assert t in r.tasks && Unrecorded(r.tasks[t], m);
      }
    }
  }

  lemma AskVault(s: State, t: TaskId, late: bool, vaultOk: bool)
    requires TasksInv(s) && PlaceInv(s) && VaultInv(s) && CanAsk(s, t, 0)
    requires LeaseOf(s.tasks[t]) == Some(s.tasks[t].workers[0].lease)
    ensures VaultInv(DoAsk(s, t, 0, late, vaultOk))
  {
    hide LeaseOf, TasksInv, PlaceInv, VaultTask, DoAsk, Unrecorded;
    AskEffect(s, t, late, vaultOk);
    var r, l := DoAsk(s, t, 0, late, vaultOk), s.tasks[t].workers[0].lease;
    forall u | u in r.tasks ensures VaultTask(r.vault, r.tasks[u]) { AskTask(s, t, late, vaultOk, u); }
    forall m ensures r.vault.successes[m] > 0 ==>
        m in r.vault.released || exists u :: u in r.tasks && Unrecorded(r.tasks[u], m) {
      AskSuccesses(s, t, late, vaultOk, m);
    }
    forall m | m in r.vault.released ensures r.vault.successes[m] == 1 { assert s.vault.successes[m] == 1; }
  }

  lemma AskKeeps(s: State, t: TaskId, i: nat, late: bool, vaultOk: bool)
    requires Inv(s) && CanAsk(s, t, i)
    ensures Inv(DoAsk(s, t, i, late, vaultOk))
  {
    hide NamesInv, DrainInv, PlaceInv, GateInv, CallsInv, HandsInv, TasksInv, DrainedInv, VaultInv;
    WorkerShape(s, t, i);
    AskVault(s, t, late, vaultOk);
    WorkerWork(s, DoAsk(s, t, i, late, vaultOk), t);
  }

  lemma FinishVault(s: State, t: TaskId)
    requires TasksInv(s) && PlaceInv(s) && VaultInv(s) && CanFinish(s, t, 0)
    requires LeaseOf(s.tasks[t]) == Some(s.tasks[t].workers[0].lease) && WorksOn(s, DoFinish(s, t, 0), t)
    ensures VaultInv(DoFinish(s, t, 0))
  {
    var r, w := DoFinish(s, t, 0), s.tasks[t].workers[0];
    SameTasks(s, r, t);
    hide WorksOn, LeaseOf, TasksInv, PlaceInv;
    assert VaultTask(s.vault, s.tasks[t]);
    forall u | u in r.tasks ensures VaultTask(r.vault, r.tasks[u]) {
      assert VaultTask(s.vault, s.tasks[u]);
      if Unrecorded(s.tasks[u], w.lease) { OnlyAnswer(s, t, u, w.lease); }
    }
    forall m | r.vault.successes[m] > 0
        ensures m in r.vault.released || exists u :: u in r.tasks && Unrecorded(r.tasks[u], m) {
      if m !in r.vault.released {
        var u :| u in s.tasks && Unrecorded(s.tasks[u], m);
        assert u in r.tasks && Unrecorded(r.tasks[u], m);
      }
    }
  }

  lemma FinishKeeps(s: State, t: TaskId, i: nat)
    requires Inv(s) && CanFinish(s, t, i)
    ensures Inv(DoFinish(s, t, i))
  {
    hide NamesInv, DrainInv, PlaceInv, GateInv, CallsInv, HandsInv, TasksInv, DrainedInv, VaultInv;
    WorkerShape(s, t, i);
    FinishVault(s, t);
    WorkerWork(s, DoFinish(s, t, i), t);
  }

  lemma ExitKeeps(s: State, t: TaskId, i: nat)
    requires Inv(s) && CanExit(s, t, i)
    ensures Inv(DoExit(s, t, i))
  {
    hide NamesInv, DrainInv, PlaceInv, GateInv, CallsInv, HandsInv, TasksInv, DrainedInv, VaultInv;
    WorkerShape(s, t, i);
    WorkVault(s, DoExit(s, t, i), t);
    WorkerWork(s, DoExit(s, t, i), t);
  }
}
