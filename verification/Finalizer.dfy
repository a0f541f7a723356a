/**
 * The background finalizer of credential sessions, as a state machine: callers that defer sessions, guards,
 * retry commands, and one finalizer thread whose locked counter updates interleave with theirs.
 */
module Finalizer {
  import opened Text

  datatype Session = Session(id: nat, scope: nat)

  /** A deferred session with the epoch of its last attempt. History: the epochs of all its attempts. */
  datatype Task = Task(session: Session, last: Option<nat>, attempts: seq<nat>)

  datatype Progress = Progress(outstanding: nat, pending: nat, running: nat, quarantined: nat)

  datatype Authorization = Authorization(epoch: nat, deadline: Option<int>)

  datatype Command = Enqueue(task: Task) | Retry(scope: nat, deadline: int)

  /** How a joined worker ended; a panic quarantines its session. */
  datatype Outcome = Released | Failed | Panicked

  /** What the finalizer thread has in hand between its local change and its locked counter update. */
  datatype Hand = Nothing | Starting(task: Task) | Ended(task: Task, outcome: Outcome)

  /**
   * `alive` says that the finalizer thread runs: sends to it succeed as long as it does. `sending` are sessions counted
   * by their callers and not yet in the channel, `leaked` those whose send failed. History: `given` and `released`
   * sessions, `retries` applied per scope.
   */
  datatype State = State(
    alive: bool, progress: map<nat, Progress>, sending: seq<Task>, channel: seq<Command>, guards: seq<nat>,
    pending: seq<Task>, workers: seq<Task>, authorizations: map<nat, Authorization>, hand: Hand,
    quarantined: seq<Task>, leaked: seq<Task>, released: seq<Task>, given: seq<Task>, retries: map<nat, nat>)

  const START := State(true, map[], [], [], [], [], [], map[], Nothing, [], [], [], [], map[])
  const MAX_WORKERS := 4

  function At<T>(m: map<nat, T>, k: nat, default: T): T { if k in m then m[k] else default }

  function SaturatingAdd(n: nat): nat { if n >= USIZE_MAX then USIZE_MAX else n + 1 }
  function SaturatingSub(n: nat): nat { if n == 0 then 0 else n - 1 }

  const ZERO := Progress(0, 0, 0, 0)

  function ProgressAt(s: State, scope: nat): Progress { At(s.progress, scope, ZERO) }

  function AuthorizationAt(s: State, scope: nat): Authorization { At(s.authorizations, scope, Authorization(0, None)) }

  /** `update_credential_finalizer_progress` */
  function Updated(s: State, scope: nat, p: Progress): State { s.(progress := s.progress[scope := p]) }

  function Without<T>(ts: seq<T>, i: nat): seq<T>
    requires i < |ts|
  {
    ts[..i] + ts[i + 1..]
  }

  // ---------------------------------------------------------------- callers

  function Added(p: Progress): Progress {
    p.(outstanding := SaturatingAdd(p.outstanding), pending := SaturatingAdd(p.pending))
  }

  /** No process holds 2^64 sessions of one scope. */
  predicate Room(s: State, scope: nat) { ProgressAt(s, scope).outstanding < USIZE_MAX }

  /** `defer_credential_release` counts the session before it sends it. */
  function DoDefer(s: State, x: Session): State {
    var t := Task(x, None, []);
    Updated(s, x.scope, Added(ProgressAt(s, x.scope))).(sending := s.sending + [t], given := s.given + [t])
  }

  predicate CanSend(s: State, i: nat) { s.alive && i < |s.sending| }

  function DoSend(s: State, i: nat): State
    requires CanSend(s, i)
  {
    s.(sending := Without(s.sending, i), channel := s.channel + [Enqueue(s.sending[i])])
  }

  predicate CanLose(s: State, i: nat) { !s.alive && i < |s.sending| }

  /** The thread is gone: the session is leaked and stays counted. */
  function DoSendFails(s: State, i: nat): State
    requires CanLose(s, i)
  {
    s.(sending := Without(s.sending, i), leaked := s.leaked + [s.sending[i]])
  }

  function DoRetry(s: State, scope: nat, deadline: int): State { s.(channel := s.channel + [Retry(scope, deadline)]) }

  function Tracked(p: Progress): Progress {
    p.(outstanding := SaturatingAdd(p.outstanding), running := SaturatingAdd(p.running))
  }

  function Untracked(p: Progress): Progress {
    p.(outstanding := SaturatingSub(p.outstanding), running := SaturatingSub(p.running))
  }

  /** `track_running_credential_finalizer_owner` and the drop of its guard. */
  function DoTrack(s: State, scope: nat): State {
    Updated(s, scope, Tracked(ProgressAt(s, scope))).(guards := s.guards + [scope])
  }

  predicate CanUntrack(s: State, i: nat) { i < |s.guards| }

  function DoUntrack(s: State, i: nat): State
    requires CanUntrack(s, i)
  {
    Updated(s, s.guards[i], Untracked(ProgressAt(s, s.guards[i]))).(guards := Without(s.guards, i))
  }

  // ---------------------------------------------------------------- the finalizer thread

  /** The thread dies; what it has in hand stays there, and its workers are never joined. */
  function DoDie(s: State): State { s.(alive := false) }

  predicate CanReceive(s: State) { s.alive && s.hand.Nothing? && s.channel != [] }

  /** `apply_credential_finalizer_command` */
  function DoReceive(s: State): State
    requires CanReceive(s)
  {
    var r := s.(channel := s.channel[1..]);
    match s.channel[0]
    case Enqueue(t) => r.(pending := s.pending + [t])
    case Retry(scope, deadline) =>
      r.(authorizations := s.authorizations[scope := Authorization(SaturatingAdd(AuthorizationAt(s, scope).epoch),
          Some(deadline))],
         retries := s.retries[scope := At(s.retries, scope, 0) + 1])
  }

  /** `Vec::swap_remove` */
  function SwapRemove<T>(ts: seq<T>, i: nat): (r: seq<T>)
    requires i < |ts|
    ensures |r| == |ts| - 1
  {
    var last := |ts| - 1;
    if i == last then ts[..last] else ts[..last][i := ts[last]]
  }

  predicate CanReap(s: State, i: nat) { s.alive && s.hand.Nothing? && i < |s.workers| }

  /** A finished worker is joined. */
  function DoReap(s: State, i: nat, outcome: Outcome): State
    requires CanReap(s, i)
  {
    s.(workers := SwapRemove(s.workers, i), hand := Ended(s.workers[i], outcome))
  }

  /** A first attempt is free; another needs a newer epoch whose deadline has not passed. */
  predicate Authorized(t: Task, a: Authorization, now: int) {
    t.last.None? || (t.last.value < a.epoch && a.deadline.Some? && now < a.deadline.value)
  }

  predicate CanStart(s: State) { s.alive && s.hand.Nothing? && s.pending != [] }

  /** One turn of the queue pass: back into the queue, or spawned, or back because the spawn failed. */
  function DoStart(s: State, now: int, spawns: bool): State
    requires CanStart(s)
  {
    var t, rest := s.pending[0], s.pending[1..];
    var a := AuthorizationAt(s, t.session.scope);
    if |s.workers| >= MAX_WORKERS || !Authorized(t, a, now) then s.(pending := rest + [t])
    else if spawns then s.(pending := rest, hand := Starting(Attempt(t, a.epoch)))
    else s.(pending := rest + [t.(last := Some(a.epoch))])
  }

  function Attempt(t: Task, epoch: nat): Task { t.(last := Some(epoch), attempts := t.attempts + [epoch]) }

  lemma AttemptSession(t: Task, epoch: nat)
    ensures Attempt(t, epoch).session == t.session
  {
  }

  predicate CanUpdate(s: State) { s.alive && !s.hand.Nothing? }

  function HandScope(s: State): nat
    requires CanUpdate(s)
  {
    s.hand.task.session.scope
  }

  function Settled(p: Progress, h: Hand): Progress {
    match h
    case Nothing => p
    case Starting(_) => p.(pending := SaturatingSub(p.pending), running := SaturatingAdd(p.running))
    case Ended(_, Released) => p.(running := SaturatingSub(p.running), outstanding := SaturatingSub(p.outstanding))
    case Ended(_, Failed) => p.(running := SaturatingSub(p.running), pending := SaturatingAdd(p.pending))
    case Ended(_, Panicked) => p.(running := SaturatingSub(p.running), quarantined := SaturatingAdd(p.quarantined))
  }

  /** The locked counter update that goes with what is in hand. */
  function DoUpdate(s: State): State
    requires CanUpdate(s)
  {
    var r := Updated(s, HandScope(s), Settled(ProgressAt(s, HandScope(s)), s.hand)).(hand := Nothing);
    match s.hand
    case Starting(t) => r.(workers := s.workers + [t])
    case Ended(t, Released) => r.(released := s.released + [t])
    case Ended(t, Failed) => r.(pending := s.pending + [t])
    case Ended(t, Panicked) => r.(quarantined := s.quarantined + [t])
  }

  // ---------------------------------------------------------------- runs

  datatype Step =
    | Defer(x: Session) | Send(i: nat) | SendFails(i: nat) | AskRetry(scope: nat, deadline: int)
    | Track(scope: nat) | Untrack(i: nat)
    | Die | Receive | Reap(i: nat, outcome: Outcome) | Start(now: int, spawns: bool) | Update

  predicate Can(s: State, step: Step) {
    match step
    case Defer(x) => Room(s, x.scope)
    case Send(i) => CanSend(s, i)
    case SendFails(i) => CanLose(s, i)
    case AskRetry(_, _) => s.alive
    case Track(scope) => Room(s, scope)
    case Untrack(i) => CanUntrack(s, i)
    case Die => s.alive
    case Receive => CanReceive(s)
    case Reap(i, _) => CanReap(s, i)
    case Start(_, _) => CanStart(s)
    case Update => CanUpdate(s)
  }

  function Do(s: State, step: Step): State
    requires Can(s, step)
  {
    match step
    case Defer(x) => DoDefer(s, x)
    case Send(i) => DoSend(s, i)
    case SendFails(i) => DoSendFails(s, i)
    case AskRetry(scope, deadline) => DoRetry(s, scope, deadline)
    case Track(scope) => DoTrack(s, scope)
    case Untrack(i) => DoUntrack(s, i)
    case Die => DoDie(s)
    case Receive => DoReceive(s)
    case Reap(i, outcome) => DoReap(s, i, outcome)
    case Start(now, spawns) => DoStart(s, now, spawns)
    case Update => DoUpdate(s)
  }

  /** A step that is not possible is not taken. */
  function Next(s: State, step: Step): State { if Can(s, step) then Do(s, step) else s }

  function After(s: State, steps: seq<Step>): State {
    if steps == [] then s else Next(After(s, steps[..|steps| - 1]), steps[|steps| - 1])
  }
}
