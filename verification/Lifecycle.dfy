/**
 * The credential and operation lifecycle as a state machine: any number of callers with permits, release
 * workers and drains, interleaved at the granularity of the source's locks.
 */
module Lifecycle {
  import opened Text

  type Lease = nat
  type Permit = nat
  type TaskId = nat

  /** `mcp-http-session-N`, issued by the registry, and `mcp-http-detached-credential-N`. */
  datatype Name = SessionName(n: nat) | DetachedName(n: nat)

  datatype Actor = Caller(c: nat) | Drainer

  datatype Completion = Pending(lease: Lease) | Running | Finished(lease: Lease, ok: bool)

  /**
   * A worker thread: waiting at its start gate, owning the lease, with an answer that it has not recorded yet, done
   * writing its outcome, ended. `asked` says that the answer is the vault's.
   */
  datatype Worker = Parked | Took(lease: Lease) | Answered(lease: Lease, ok: bool, asked: bool) | Wrote | Exited

  /** `CredentialReleaseTask`; `workers` are the threads ever spawned for it, `handle` the one it joins. */
  datatype Task = Task(name: Name, completion: Completion, workers: seq<Worker>, handle: Option<nat>, attached: bool)

  /** Where a thread stands inside an operation. */
  datatype Hands =
    | Idle
    | Holding(lease: Lease)
    | Prepared(task: TaskId)
    | Spawned(task: TaskId, worker: nat)
    | Stored(task: TaskId)
    | Waiting(task: TaskId)

  datatype Drain = NoDrain | Entered | Closing | Preparing | Launching(pending: set<TaskId>, waiters: set<TaskId>,
      failed: bool)

  /** `admitting` holds the gate lock after it has read an open admission flag. */
  datatype Gate = Gate(closed: bool, admitting: Option<Permit>, active: nat, permits: set<Permit>)

  /** Leases whose `released` flag is set, and every successful release of a vault session. */
  datatype Vault = Vault(released: set<Lease>, successes: multiset<Lease>)

  datatype Place = Held(actor: Actor) | Mapped(name: Name) | Tasked(task: TaskId) | Gone | Dropped

  /**
   * `issued` are the names the registry has given out, `registry` those of the sessions it still has. History:
   * `sawZero` and `drained` remember that a drain saw no active operation and that one returned Ok, `place` follows
   * each lease, `agent` is the thread working on a task.
   */
  datatype State = State(
    gate: Gate, calls: map<nat, Permit>, hands: map<Actor, Hands>,
    leases: map<Name, Lease>, releases: map<Name, TaskId>, issued: set<Name>, registry: set<Name>,
        tasks: map<TaskId, Task>,
    vault: Vault, drain: Drain,
    sawZero: bool, drained: bool, place: map<Lease, Place>, agent: map<TaskId, Actor>)

  const START := State(
    Gate(false, None, 0, {}), map[], map[], map[], map[], {}, {}, map[], Vault({}, multiset{}), NoDrain, false, false,
        map[], map[])

  // ---------------------------------------------------------------- the operation gate

  predicate CanLock(s: State, p: Permit) { s.gate.admitting.None? && !s.gate.closed && p !in s.gate.permits }

  /** `begin_operation` has the gate lock and reads the flag for the second time. */
  function DoLock(s: State, p: Permit): State { s.(gate := s.gate.(admitting := Some(p))) }

  predicate CanAdd(s: State) { s.gate.admitting.Some? }

  function DoAdd(s: State): State
    requires CanAdd(s)
  {
    s.(gate := if s.gate.active == USIZE_MAX then s.gate.(admitting := None)
               else Gate(s.gate.closed, None, s.gate.active + 1, s.gate.permits + {s.gate.admitting.value}))
  }

  predicate CanDrop(s: State, p: Permit) {
    s.gate.admitting.None? && p in s.gate.permits && forall c :: c in s.calls ==> s.calls[c] != p
  }

  function SaturatingDecrement(n: nat): nat { if n == 0 then 0 else n - 1 }

  function DoDrop(s: State, p: Permit): State {
    s.(gate := s.gate.(active := SaturatingDecrement(s.gate.active), permits := s.gate.permits - {p}))
  }

  // ---------------------------------------------------------------- calls that hold a permit

  predicate CanCall(s: State, c: nat, p: Permit, lease: Option<Lease>) {
    && p in s.gate.permits && c !in s.calls && Caller(c) !in s.hands
    && (lease.Some? ==> lease.value !in s.place && lease.value !in s.vault.released)
  }

  /** A call begins, with or without a lease that it hands over. */
  function DoCall(s: State, c: nat, p: Permit, lease: Option<Lease>): State {
    var h := if lease.Some? then Holding(lease.value) else Idle;
    var place := if lease.Some? then s.place[lease.value := Held(Caller(c))] else s.place;
    s.(calls := s.calls[c := p], hands := s.hands[Caller(c) := h], place := place)
  }

  function WithoutCall(s: State, c: nat): State {
    s.(calls := s.calls - {c}, hands := s.hands - {Caller(c)})
  }

  predicate CanReturn(s: State, c: nat) { Caller(c) in s.hands && s.hands[Caller(c)].Idle? }

  predicate Holds(s: State, c: nat) { Caller(c) in s.hands && s.hands[Caller(c)].Holding? }

  predicate CanRegister(s: State, c: nat, n: nat) { Holds(s, c) && SessionName(n) !in s.issued }

  /** `register_starting_session`; on a collision the lease stays with the caller, who then detaches it. */
  function DoRegister(s: State, c: nat, n: nat): State
    requires CanRegister(s, c, n)
  {
    var name, lease := SessionName(n), s.hands[Caller(c)].lease;
    var t := s.(issued := s.issued + {name}, registry := s.registry + {name});
    if name in s.leases then t
    else WithoutCall(t, c).(leases := s.leases[name := lease], place := s.place[lease := Mapped(name)])
  }

  /** `prepare_credential_release_owner` */
  function WithTask(s: State, name: Name, t: TaskId, lease: Lease): State {
    s.(releases := s.releases[name := t], tasks := s.tasks[t := Task(name, Pending(lease), [], None, false)],
       place := s.place[lease := Tasked(t)])
  }

  predicate CanDetach(s: State, c: nat, n: nat, t: TaskId) {
    Holds(s, c) && DetachedName(n) !in s.leases && DetachedName(n) !in s.releases && t !in s.tasks
  }

  /** `prepare_detached_credential_release` */
  function DoDetach(s: State, c: nat, n: nat, t: TaskId): State
    requires CanDetach(s, c, n, t)
  {
    WithTask(s, DetachedName(n), t, s.hands[Caller(c)].lease)
    .(hands := s.hands[Caller(c) := Prepared(t)], agent := s.agent[t := Caller(c)])
  }

  predicate CanShutdown(s: State, c: nat, name: Name, t: TaskId) {
    Caller(c) in s.hands && s.hands[Caller(c)].Idle? && name in s.registry && name in s.leases && t !in s.tasks
  }

  /** `prepare_credential_release`: the lease leaves the map and enters a task. */
  function Retake(s: State, name: Name, t: TaskId): State
    requires name in s.leases
  {
    WithTask(s.(leases := s.leases - {name}), name, t, s.leases[name])
  }

  /** `shutdown_session`, when the registry could shut the session down. */
  function DoShutdown(s: State, c: nat, name: Name, t: TaskId): State
    requires CanShutdown(s, c, name, t)
  {
    Retake(s, name, t)
    .(hands := s.hands[Caller(c) := Prepared(t)], agent := s.agent[t := Caller(c)], registry := s.registry - {name})
  }

  // ---------------------------------------------------------------- launching, by a caller or by a drain

  /** A thread leaves the task it was working on; a call then returns, a drain goes on. */
  function Leave(s: State, a: Actor, t: TaskId, failed: bool): State {
    var r := s.(agent := s.agent - {t});
    if a.Caller? then WithoutCall(r, a.c)
    else r.(hands := s.hands[a := Idle],
            drain := if s.drain.Launching? then s.drain.(failed := s.drain.failed || failed) else s.drain)
  }

  predicate CanSpawn(s: State, a: Actor) { a in s.hands && s.hands[a].Prepared? && s.hands[a].task in s.tasks }

  function DoSpawn(s: State, a: Actor): State
    requires CanSpawn(s, a)
  {
    var t := s.hands[a].task;
    var k := s.tasks[t];
    s.(tasks := s.tasks[t := k.(workers := k.workers + [Parked])], hands := s.hands[a := Spawned(t, |k.workers|)])
  }

  function DoSpawnFails(s: State, a: Actor): State
    requires CanSpawn(s, a)
  {
    Leave(s, a, s.hands[a].task, true)
  }

  predicate CanStore(s: State, a: Actor) { a in s.hands && s.hands[a].Spawned? && s.hands[a].task in s.tasks }

  function DoStore(s: State, a: Actor): State
    requires CanStore(s, a)
  {
    var t := s.hands[a].task;
    s.(tasks := s.tasks[t := s.tasks[t].(handle := Some(s.hands[a].worker))], hands := s.hands[a := Stored(t)])
  }

  predicate CanAttach(s: State, a: Actor) {
    a in s.hands && s.hands[a].Stored? && s.hands[a].task in s.tasks && (a.Drainer? ==> s.drain.Launching?)
  }

  /** The start gate opens; a caller goes on to wait, a drain remembers the waiter. */
  function DoAttach(s: State, a: Actor): State
    requires CanAttach(s, a)
  {
    var t := s.hands[a].task;
    var r := s.(tasks := s.tasks[t := s.tasks[t].(attached := true)]);
    if a.Caller? then r.(hands := s.hands[a := Waiting(t)])
    else Leave(r, a, t, false).(drain := s.drain.(waiters := s.drain.waiters + {t}))
  }

  // ---------------------------------------------------------------- the workers

  predicate HasWorker(s: State, t: TaskId, i: nat) { t in s.tasks && i < |s.tasks[t].workers| }

  function WithWorker(k: Task, i: nat, w: Worker): Task
    requires i < |k.workers|
  {
    k.(workers := k.workers[i := w])
  }

  predicate CanTake(s: State, t: TaskId, i: nat) {
    HasWorker(s, t, i) && s.tasks[t].attached && s.tasks[t].workers[i].Parked?
  }

  /** Pending becomes Running in the worker's hands; a worker that finds anything else ends. */
  function DoTake(s: State, t: TaskId, i: nat): State
    requires CanTake(s, t, i)
  {
    var k := s.tasks[t];
    var after := if k.completion.Pending? then WithWorker(k, i, Took(k.completion.lease)).(completion := Running)
                 else WithWorker(k, i, Exited);
    s.(tasks := s.tasks[t := after])
  }

  predicate CanAsk(s: State, t: TaskId, i: nat) { HasWorker(s, t, i) && s.tasks[t].workers[i].Took? }

  /** The worker is `late` and does not try, finds the lease released, or calls the vault. */
  function DoAsk(s: State, t: TaskId, i: nat, late: bool, vaultOk: bool): State
    requires CanAsk(s, t, i)
  {
    var k := s.tasks[t];
    var lease := k.workers[i].lease;
    var known := lease in s.vault.released;
    var ok := !late && (known || vaultOk);
    var asked := !late && !known;
    s.(vault := if ok && asked then s.vault.(successes := s.vault.successes + multiset{lease}) else s.vault,
       tasks := s.tasks[t := WithWorker(k, i, Answered(lease, ok, asked))])
  }

  predicate CanFinish(s: State, t: TaskId, i: nat) { HasWorker(s, t, i) && s.tasks[t].workers[i].Answered? }

  /** The lease records that it is released, and the worker writes its outcome. */
  function DoFinish(s: State, t: TaskId, i: nat): State
    requires CanFinish(s, t, i)
  {
    var k := s.tasks[t];
    var w := k.workers[i];
    s.(vault := if w.ok then s.vault.(released := s.vault.released + {w.lease}) else s.vault,
       tasks := s.tasks[t := WithWorker(k, i, Wrote).(completion := Finished(w.lease, w.ok))])
  }

  predicate CanExit(s: State, t: TaskId, i: nat) { HasWorker(s, t, i) && s.tasks[t].workers[i].Wrote? }

  function DoExit(s: State, t: TaskId, i: nat): State
    requires CanExit(s, t, i)
  {
    s.(tasks := s.tasks[t := WithWorker(s.tasks[t], i, Exited)])
  }

  // ---------------------------------------------------------------- completion

  predicate Waits(s: State, a: Actor) { a in s.hands && s.hands[a].Waiting? && s.hands[a].task in s.tasks }

  /** The task is the registered one and its worker has ended. */
  predicate Joinable(s: State, t: TaskId)
    requires t in s.tasks
  {
    var k := s.tasks[t];
    k.handle.Some? && k.handle.value < |k.workers| && k.workers[k.handle.value].Exited?
  }

  predicate CanComplete(s: State, a: Actor) {
    Waits(s, a) && var t := s.hands[a].task; (IsRegistered(s, t) ==> Joinable(s, t))
  }

  predicate IsRegistered(s: State, t: TaskId) {
    t in s.tasks && s.tasks[t].name in s.releases && s.releases[s.tasks[t].name] == t
  }

  /** `complete_credential_release` under the lifecycle lock. */
  function DoComplete(s: State, a: Actor, joinOk: bool): State
    requires CanComplete(s, a)
  {
    var t := s.hands[a].task;
    Leave(Settle(s, t, joinOk), a, t, SettleFails(s, t, joinOk))
  }

  /** The registered task is taken out and joined; its lease is let go or put back. */
  function Settle(s: State, t: TaskId, joinOk: bool): State
    requires t in s.tasks
  {
    var k := s.tasks[t];
    if !IsRegistered(s, t) then s
    else if !k.completion.Finished? then WithoutTask(s, t, k.(handle := None))
    else if k.completion.ok && joinOk then Forget(WithoutTask(s, t, Emptied(k)), k.completion.lease)
    else GiveBack(WithoutTask(s, t, Emptied(k)), k.name, k.completion.lease)
  }

  /** The task as it is after its worker has been joined and its lease taken out. */
  function Emptied(k: Task): Task { k.(handle := None, completion := Running) }

  /** The task leaves the map of releases as `k`. */
  function WithoutTask(s: State, t: TaskId, k: Task): State {
    s.(releases := s.releases - {k.name}, tasks := s.tasks[t := k])
  }

  predicate SettleFails(s: State, t: TaskId, joinOk: bool)
    requires t in s.tasks
  {
    var k := s.tasks[t];
    if k.name !in s.releases then false
    else if s.releases[k.name] != t || !k.completion.Finished? then true
    else !k.completion.ok || !joinOk
  }

  /** A lease goes out of scope; unless it is released its session goes to the finalizer. */
  function Forget(s: State, lease: Lease): State {
    s.(place := s.place[lease := if lease in s.vault.released then Gone else Dropped])
  }

  function GiveBack(s: State, name: Name, lease: Lease): State {
    var place := if name in s.leases then s.place[s.leases[name] := Dropped] else s.place;
    s.(leases := s.leases[name := lease], place := place[lease := Mapped(name)])
  }

  /** A deadline or a poisoned lock ends the wait. */
  function DoGiveUp(s: State, a: Actor): State
    requires Waits(s, a)
  {
    Leave(s, a, s.hands[a].task, true)
  }

  // ---------------------------------------------------------------- drain

  predicate CanEnter(s: State) { s.drain.NoDrain? && Drainer !in s.hands }
  function DoEnter(s: State): State { s.(drain := Entered) }

  predicate CanClose(s: State) { s.drain.Entered? }
  function DoClose(s: State): State { s.(gate := s.gate.(closed := true), drain := Closing) }

  predicate CanSeeZero(s: State) { s.drain.Closing? && s.gate.admitting.None? && s.gate.active == 0 }
  function DoSeeZero(s: State): State { s.(drain := Preparing, sawZero := true) }

  predicate CanAbort(s: State) { s.drain.Entered? || s.drain.Closing? || s.drain.Preparing? }
  function DoAbort(s: State): State { s.(drain := NoDrain) }

  predicate CanLetGo(s: State, name: Name) { s.drain.Preparing? && name in s.registry }

  /** The registry's own drain has shut a session down. */
  function DoLetGo(s: State, name: Name): State { s.(registry := s.registry - {name}) }

  predicate CanPrepare(s: State, name: Name, t: TaskId) {
    s.drain.Preparing? && name in s.leases && name !in s.registry && t !in s.tasks
  }

  /** `prepare_completed_credential_releases`, for one session that the registry no longer has. */
  function DoPrepare(s: State, name: Name, t: TaskId): State
    requires CanPrepare(s, name, t)
  {
    Retake(s, name, t)
  }

  predicate CanCollect(s: State) { s.drain.Preparing? }

  /**
   * `credential_release_work`: the tasks without and with a worker handle. The registry's drain failed if it still has
   * a session.
   */
  function DoCollect(s: State): State
    requires CanCollect(s)
  {
    var known := set t | t in s.tasks && IsRegistered(s, t);
    var waiting := set t | t in known && s.tasks[t].handle.None?;
    s.(hands := s.hands[Drainer := Idle],
       drain := Launching(waiting, known - waiting, s.registry != {}))
  }

  predicate DrainFree(s: State) { s.drain.Launching? && Drainer in s.hands && s.hands[Drainer].Idle? }

  predicate CanPick(s: State, t: TaskId) { DrainFree(s) && t in s.drain.pending }
  function DoPick(s: State, t: TaskId): State
    requires CanPick(s, t)
  {
    s.(drain := s.drain.(pending := s.drain.pending - {t}), hands := s.hands[Drainer := Prepared(t)],
        agent := s.agent[t := Drainer])
  }

  predicate CanAwait(s: State, t: TaskId) { DrainFree(s) && t in s.drain.waiters }
  function DoAwait(s: State, t: TaskId): State
    requires CanAwait(s, t)
  {
    s.(drain := s.drain.(waiters := s.drain.waiters - {t}), hands := s.hands[Drainer := Waiting(t)],
        agent := s.agent[t := Drainer])
  }

  /**
   * The drain ends; it answers Ok only if the registry's drain and every release succeeded and it finds nothing left.
   */
  predicate CanEnd(s: State, ok: bool) {
    DrainFree(s) && (ok ==> !s.drain.failed && s.gate.active == 0 && |s.leases| == 0 && |s.releases| == 0)
  }
  function DoEnd(s: State, ok: bool): State {
    s.(drain := NoDrain, hands := s.hands - {Drainer}, drained := s.drained || ok)
  }

  // ---------------------------------------------------------------- runs

  datatype Step =
    | Lock(p: Permit) | Add | Drop(p: Permit)
    | Call(c: nat, p: Permit, given: Option<Lease>) | Return(c: nat)
    | Register(c: nat, n: nat) | Detach(c: nat, n: nat, t: TaskId) | Shutdown(c: nat, name: Name, t: TaskId)
    | Spawn(a: Actor) | SpawnFails(a: Actor) | Store(a: Actor) | Attach(a: Actor)
    | Take(t: TaskId, i: nat) | Ask(t: TaskId, i: nat, late: bool, vaultOk: bool) | Finish(t: TaskId, i: nat)
        | Exit(t: TaskId, i: nat)
    | Complete(a: Actor, joinOk: bool) | GiveUp(a: Actor)
    | Enter | Close | SeeZero | Abort | LetGo(name: Name) | Prepare(name: Name, t: TaskId) | Collect
    | Pick(t: TaskId) | Await(t: TaskId) | End(ok: bool)

  predicate Can(s: State, step: Step) {
    match step
    case Lock(p) => CanLock(s, p)
    case Add => CanAdd(s)
    case Drop(p) => CanDrop(s, p)
    case Call(c, p, l) => CanCall(s, c, p, l)
    case Return(c) => CanReturn(s, c)
    case Register(c, n) => CanRegister(s, c, n)
    case Detach(c, n, t) => CanDetach(s, c, n, t)
    case Shutdown(c, name, t) => CanShutdown(s, c, name, t)
    case Spawn(a) => CanSpawn(s, a)
    case SpawnFails(a) => CanSpawn(s, a)
    case Store(a) => CanStore(s, a)
    case Attach(a) => CanAttach(s, a)
    case Take(t, i) => CanTake(s, t, i)
    case Ask(t, i, _, _) => CanAsk(s, t, i)
    case Finish(t, i) => CanFinish(s, t, i)
    case Exit(t, i) => CanExit(s, t, i)
    case Complete(a, _) => CanComplete(s, a)
    case GiveUp(a) => Waits(s, a)
    case Enter => CanEnter(s)
    case Close => CanClose(s)
    case SeeZero => CanSeeZero(s)
    case Abort => CanAbort(s)
    case LetGo(name) => CanLetGo(s, name)
    case Prepare(name, t) => CanPrepare(s, name, t)
    case Collect => CanCollect(s)
    case Pick(t) => CanPick(s, t)
    case Await(t) => CanAwait(s, t)
    case End(ok) => CanEnd(s, ok)
  }

  function Do(s: State, step: Step): State
    requires Can(s, step)
  {
    match step
    case Lock(p) => DoLock(s, p)
    case Add => DoAdd(s)
    case Drop(p) => DoDrop(s, p)
    case Call(c, p, l) => DoCall(s, c, p, l)
    case Return(c) => WithoutCall(s, c)
    case Register(c, n) => DoRegister(s, c, n)
    case Detach(c, n, t) => DoDetach(s, c, n, t)
    case Shutdown(c, name, t) => DoShutdown(s, c, name, t)
    case Spawn(a) => DoSpawn(s, a)
    case SpawnFails(a) => DoSpawnFails(s, a)
    case Store(a) => DoStore(s, a)
    case Attach(a) => DoAttach(s, a)
    case Take(t, i) => DoTake(s, t, i)
    case Ask(t, i, late, vaultOk) => DoAsk(s, t, i, late, vaultOk)
    case Finish(t, i) => DoFinish(s, t, i)
    case Exit(t, i) => DoExit(s, t, i)
    case Complete(a, joinOk) => DoComplete(s, a, joinOk)
    case GiveUp(a) => DoGiveUp(s, a)
    case Enter => DoEnter(s)
    case Close => DoClose(s)
    case SeeZero => DoSeeZero(s)
    case Abort => DoAbort(s)
    case LetGo(name) => DoLetGo(s, name)
    case Prepare(name, t) => DoPrepare(s, name, t)
    case Collect => DoCollect(s)
    case Pick(t) => DoPick(s, t)
    case Await(t) => DoAwait(s, t)
    case End(ok) => DoEnd(s, ok)
  }

  /** A step that is not possible is not taken. */
  function Next(s: State, step: Step): State { if Can(s, step) then Do(s, step) else s }

  function After(s: State, steps: seq<Step>): State {
    if steps == [] then s else Next(After(s, steps[..|steps| - 1]), steps[|steps| - 1])
  }
}
