/**
 * Admission as one acquire: a session with a record is resumed past all checks; any other passes circuit, concurrency
 * and rate before its record is stored. What the sessions do later is part of the runs.
 */
module Admission {
  import opened Text
  import opened Numbers
  import opened RateLimit
  import opened CircuitBreaker
  import CB = CircuitBreaker

  /** What an adapter's requests ask for. */
  datatype Request = Request(circuit: Option<Config>, maxConcurrency: Option<nat>, rate: Option<Limit>)

  /** An execution that was admitted: whether as the probe, and how often it may still be restarted. */
  datatype Slot = Slot(adapter: string, probe: bool, restarts: nat)

  /**
   * The record of a session. A pending one waits for its due time; `holder` is the probe flag of the slot that waits
   * with it, if the invocation that failed is still there.
   */
  datatype Session =
    | Active(slot: Slot)
    | Pending(adapter: string, restarts: nat, due: nat, holder: Option<bool>)
    | Ended(adapter: string)

  datatype State = State(circuits: map<string, Circuit>, windows: map<string, Window>, sessions: map<nat, Session>)

  datatype Verdict = CircuitOpen | TooMany | TooFast | NotStored | Started(probe: bool) | Resumed | NotResumed

  /**
   * An acquire, with the active executions that the process table counts, whether the record could be stored, and
   * whether the session holds its one reservation; an outcome of an execution, after which it ends or is pending until
   * `due`; the restart by the slot that waited; and a session that another process left pending.
   */
  datatype Event =
    | Acquire(adapter: string, id: nat, now: nat, active: nat, stored: bool, reserved: bool, restarts: nat)
    | Finish(id: nat, completed: bool, again: bool, due: nat, now: nat)
    | Restart(id: nat, stored: bool, now: nat)
    | Recover(id: nat, adapter: string, restarts: nat, due: nat, now: nat)

  type Requests = string -> Request

  function AdapterOf(k: Session): string { if k.Active? then k.slot.adapter else k.adapter }

  // ---------------------------------------------------------------- one acquire

  predicate Crowded(r: Request, active: nat) { r.maxConcurrency.Some? && active >= r.maxConcurrency.value }

  /** `prepare_for_restart` accepts an inactive pending record that is due. */
  predicate IsDue(k: Session, now: nat) { k.Pending? && k.due <= now }

  /** An acquire for a session that has a record: no circuit, no concurrency, no rate, and never as the probe. */
  function Resume(s: State, e: Event): (State, Verdict)
    requires e.Acquire? && e.id in s.sessions
  {
    var k := s.sessions[e.id];
    if AdapterOf(k) == e.adapter && IsDue(k, e.now) && e.reserved && e.stored
    then (s.(sessions := s.sessions[e.id := Active(Slot(e.adapter, false, k.restarts))]), Resumed)
    else (s, NotResumed)
  }

  /** An acquire for a session without a record, in the order of the code's checks. */
  function Fresh(s: State, e: Event, r: Request): (State, Verdict)
    requires e.Acquire?
  {
    var (circuits, permit) := AdmitCircuit(s.circuits, e.adapter, r.circuit, e.now);
    var s1 := s.(circuits := circuits);
    if permit.Open? then (s1, CircuitOpen)
    else if Crowded(r, e.active) then (s1, TooMany)
    else
      var (windows, d) := Admit(s.windows, e.adapter, r.rate, e.now);
      var s2 := s1.(windows := windows);
      if d.Refused? then (s2, TooFast)
      else if !e.stored then (s2, NotStored)
      else
        var slot := Slot(e.adapter, permit.Probe?, e.restarts);
        (s2.(sessions := s.sessions[e.id := Active(slot)]), Started(permit.Probe?))
  }

  function Acquired(s: State, e: Event, r: Request): (State, Verdict)
    requires e.Acquire?
  {
    if e.id in s.sessions then Resume(s, e) else Fresh(s, e, r)
  }

  class ProviderSupervisor {
    const breaker: Breaker
    const limiter: RateLimiter
    var sessions: map<nat, Session>

    function View(): State
      reads this, breaker, limiter
    {
      State(breaker.circuits, limiter.windows, sessions)
    }

    /** A new supervisor finds the records that earlier processes left. */
    constructor (recovered: map<nat, Session>)
      ensures fresh(breaker) && fresh(limiter)
      ensures View() == State(map[], map[], recovered)
    {
      var b := new Breaker();
      var l := new RateLimiter();
      breaker, limiter, sessions := b, l, recovered;
    }

    /** `acquire` */
    method AcquireSlot(e: Event, r: Request) returns (v: Verdict)
      requires e.Acquire?
      modifies this, breaker, limiter
      ensures (View(), v) == Acquired(old(View()), e, r)
    {
      hide AdmitCircuit, Admit;
      if e.id in sessions {
        var existing := sessions[e.id];
        if AdapterOf(existing) != e.adapter { return NotResumed; }
        if !existing.Pending? || e.now < existing.due { return NotResumed; }
        if !e.reserved || !e.stored { return NotResumed; }
        sessions := sessions[e.id := Active(Slot(e.adapter, false, existing.restarts))];
        return Resumed;
      }
      var permit := breaker.Admit(e.adapter, r.circuit, e.now);
      if permit.Open? { return CircuitOpen; }
      if Crowded(r, e.active) { return TooMany; }
      var d := limiter.AdmitRateLimit(e.adapter, r.rate, e.now);
      if d.Refused? { return TooFast; }
      if !e.stored { return NotStored; }
      sessions := sessions[e.id := Active(Slot(e.adapter, permit.Probe?, e.restarts))];
      return Started(permit.Probe?);
    }

    /** `complete`, and `schedule_restart` if the execution is to be restarted. */
    method CompleteSlot(id: nat, completed: bool, again: bool, due: nat, now: nat)
      requires CanFinish(View(), id, completed, again)
      modifies this`sessions, breaker
      ensures View() == Finished(old(View()), id, completed, again, due, now)
    {
      hide Record;
      var slot := sessions[id].slot;
      breaker.RecordOutcome(slot.adapter, completed, slot.probe, now);
      if again {
        sessions := sessions[id := Pending(slot.adapter, slot.restarts - 1, due, Some(slot.probe))];
      } else {
        sessions := sessions[id := Ended(slot.adapter)];
      }
    }

    /** `prepare_restart`, by the slot that waited; if it fails, the invocation returns and the record stays pending. */
    method PrepareRestart(id: nat, stored: bool, now: nat) returns (ok: bool)
      requires CanRestart(View(), id)
      modifies this`sessions
      ensures View() == Restarted(old(View()), id, stored, now)
      ensures ok <==> sessions[id].Active?
    {
      var k := sessions[id];
      ok := k.due <= now && stored;
      if ok {
        sessions := sessions[id := Active(Slot(k.adapter, k.holder.value, k.restarts))];
      } else {
        sessions := sessions[id := k.(holder := None)];
      }
    }
  }

  predicate CanFinish(s: State, id: nat, completed: bool, again: bool) {
    id in s.sessions && s.sessions[id].Active? && (again ==> !completed && s.sessions[id].slot.restarts > 0)
  }

  /** The outcome goes to the circuit of the slot's adapter, with the slot's own probe flag. */
  function Finished(s: State, id: nat, completed: bool, again: bool, due: nat, now: nat): State
    requires CanFinish(s, id, completed, again)
  {
    var k := s.sessions[id].slot;
    var left := if again then Pending(k.adapter, k.restarts - 1, due, Some(k.probe)) else Ended(k.adapter);
    s.(circuits := Record(s.circuits, k.adapter, completed, k.probe, now), sessions := s.sessions[id := left])
  }

  predicate CanRestart(s: State, id: nat) { id in s.sessions && s.sessions[id].Pending? && s.sessions[id].holder.Some? }

  function Restarted(s: State, id: nat, stored: bool, now: nat): State
    requires CanRestart(s, id)
  {
    var k := s.sessions[id];
    var left := if k.due <= now && stored then Active(Slot(k.adapter, k.holder.value, k.restarts))
        else k.(holder := None);
    s.(sessions := s.sessions[id := left])
  }

  // ---------------------------------------------------------------- runs

  predicate Can(s: State, e: Event) {
    match e
    case Acquire(_, _, _, _, _, _, _) => true
    case Finish(id, completed, again, _, _) => CanFinish(s, id, completed, again)
    case Restart(id, _, _) => CanRestart(s, id)
    case Recover(id, _, _, _, _) => id !in s.sessions
  }

  /** An event that is not possible does not happen. */
  function Next(s: State, e: Event, requests: Requests): State {
    if !Can(s, e) then s
    else match e
         case Acquire(a, _, _, _, _, _, _) => Acquired(s, e, requests(a)).0
         case Finish(id, completed, again, due, now) => Finished(s, id, completed, again, due, now)
         case Restart(id, stored, now) => Restarted(s, id, stored, now)
         case Recover(id, a, restarts, due, _) => s.(sessions := s.sessions[id := Pending(a, restarts, due, None)])
  }

  function After(s: State, events: seq<Event>, requests: Requests): State {
    if events == [] then s else Next(After(s, events[..|events| - 1], requests), events[|events| - 1], requests)
  }

  predicate OrderedFrom(events: seq<Event>, now: nat) {
    && (forall e :: e in events ==> now <= e.now)
    && (forall i, j :: 0 <= i < j < |events| ==> events[i].now <= events[j].now)
  }

  /** What the circuit answers a fresh acquire at `now`. */
  function PermitAt(s: State, a: string, now: nat, requests: Requests): Permit {
    AdmitCircuit(s.circuits, a, requests(a).circuit, now).1
  }

  lemma AfterPush(s: State, events: seq<Event>, e: Event, requests: Requests)
    ensures After(s, events + [e], requests) == Next(After(s, events, requests), e, requests)
  {
    assert (events + [e])[..|events|] == events;
  }

  lemma AfterNothing(s: State, requests: Requests)
    ensures After(s, [], requests) == s
  {
  }

  // ---------------------------------------------------------------- open means no fresh start

  /** The event is a success of the adapter. */
  predicate IsSuccess(s: State, e: Event, a: string) {
    e.Finish? && e.completed && CanFinish(s, e.id, e.completed, e.again) && s.sessions[e.id].slot.adapter == a
  }

  /** No event of the run is a success of the adapter. */
  predicate Unsuccessful(s: State, events: seq<Event>, a: string, requests: Requests) {
    forall i :: 0 <= i < |events| ==> !IsSuccess(After(s, events[..i], requests), events[i], a)
  }

  lemma OpenStep(s: State, e: Event, a: string, t: nat, requests: Requests)
    requires OpenSince(s.circuits, a, t) && t <= e.now && !IsSuccess(s, e, a)
    ensures OpenSince(Next(s, e, requests).circuits, a, t)
  {
    hide Admit, Crowded;
  }

  lemma {:induction false} OpenRun(s: State, events: seq<Event>, a: string, t: nat, requests: Requests)
    requires OpenSince(s.circuits, a, t) && OrderedFrom(events, t) && Unsuccessful(s, events, a, requests)
    ensures OpenSince(After(s, events, requests).circuits, a, t)
  {
    hide Next, OpenSince, IsSuccess;
    if events != [] {
      var front, e := events[..|events| - 1], events[|events| - 1];
      assert forall i :: 0 <= i < |front| ==> front[..i] == events[..i];
      assert e in events;
      OpenRun(s, front, a, t, requests);
      OpenStep(After(s, front, requests), e, a, t, requests);
    }
  }

  /**
   * From a circuit opened at `t`, whatever happens except a success of the adapter, an acquire in the recovery window
   * starts nothing: a fresh one is refused by the circuit, and only a session that was pending is resumed.
   */
  lemma NoFreshStartWhileOpen(s: State, events: seq<Event>, e: Event, t: nat, requests: Requests)
    requires e.Acquire? && requests(e.adapter).circuit.Some?
    requires OpenSince(s.circuits, e.adapter, t) && OrderedFrom(events, t)
            && Unsuccessful(s, events, e.adapter, requests)
    requires t <= e.now < t + requests(e.adapter).circuit.value.recoveryMs
    ensures var u := After(s, events, requests);
            var v := Acquired(u, e, requests(e.adapter)).1;
            if e.id !in u.sessions then v == CircuitOpen
            else v == NotResumed || (v == Resumed && u.sessions[e.id].Pending?)
  {
    hide After;
    OpenRun(s, events, e.adapter, t, requests);
  }

  // ---------------------------------------------------------------- the circuits as a history

  /** The configurations, where an adapter has one. */
  function ConfigOf(requests: Requests): CB.Configs {
    (a: string) => if requests(a).circuit.Some? then requests(a).circuit.value else Config(0, 0)
  }

  /** What the circuits see of an event: fresh acquires and outcomes, but no resumption, restart or recovery. */
  function Seen(s: State, e: Event, requests: Requests): seq<CB.Event> {
    if e.Acquire? && e.id !in s.sessions && requests(e.adapter).circuit.Some? then [CB.Acquire(e.adapter, e.now)]
    else if e.Finish? && Can(s, e) then
      [CB.Finish(s.sessions[e.id].slot.adapter, e.completed, s.sessions[e.id].slot.probe, e.now)]
    else []
  }

  function History(s: State, events: seq<Event>, requests: Requests): seq<CB.Event> {
    if events == [] then []
    else
      var n := |events| - 1;
      History(s, events[..n], requests) + Seen(After(s, events[..n], requests), events[n], requests)
  }

  lemma SeenStep(s: State, e: Event, requests: Requests)
    ensures Next(s, e, requests).circuits == CB.After(s.circuits, Seen(s, e, requests), ConfigOf(requests))
  {
    hide Admit, Crowded, RateLimit.Admit;
    var seen := Seen(s, e, requests);
    if seen != [] { assert seen[..0] == [] && CB.After(s.circuits, [], ConfigOf(requests)) == s.circuits; }
  }

  lemma {:induction false} AfterBoth(
    circuits: map<string, Circuit>, a: seq<CB.Event>, b: seq<CB.Event>, configs: CB.Configs)
    ensures CB.After(circuits, a + b, configs) == CB.After(CB.After(circuits, a, configs), b, configs)
  {
    hide CB.Step;
    if b == [] {
      assert a + b == a;
    } else {
      var n := |b| - 1;
      assert (a + b)[..|a + b| - 1] == a + b[..n] && (a + b)[|a + b| - 1] == b[n];
      AfterBoth(circuits, a, b[..n], configs);
    }
  }

  /** Over any run the circuits are those of what they have seen. */
  lemma {:induction false} CircuitsAreHistory(s: State, events: seq<Event>, requests: Requests)
    ensures After(s, events, requests).circuits ==
            CB.After(s.circuits, History(s, events, requests), ConfigOf(requests))
  {
    hide Next, Seen, CB.Step;
    if events != [] {
      var n := |events| - 1;
      CircuitsAreHistory(s, events[..n], requests);
      var r := After(s, events[..n], requests);
      SeenStep(r, events[n], requests);
      AfterBoth(s.circuits, History(s, events[..n], requests), Seen(r, events[n], requests), ConfigOf(requests));
    }
  }

  /** A run of a supervisor that began without circuits, up to where an acquire comes. */
  predicate FreshAt(
    sessions: map<nat, Session>, windows: map<string, Window>, events: seq<Event>, e: Event, requests: Requests)
  {
    && e.Acquire? && requests(e.adapter).circuit.Some?
    && e.id !in After(State(map[], windows, sessions), events, requests).sessions
  }

  /** There is a limit, and as many executions run. */
  predicate Full(r: Request, active: nat) { match r.maxConcurrency case None => false case Some(n) => n <= active }

  /**
   * What a fresh acquire is answered after any run, from the history of the adapter alone. It is started behind a
   * closed circuit if and only if there was no opening failure since the last success, and as the probe if and only if
   * there was, its recovery window is over and no probe is out; in both cases only if concurrency, rate and storage let
   * it. Else it is told the first of these that refuses, and only a call that came to the rate limit counts in a
   * window.
   */
  lemma FreshAcquireExactly(
    sessions: map<nat, Session>, windows: map<string, Window>, events: seq<Event>, e: Event, requests: Requests)
    requires FreshAt(sessions, windows, events, e, requests)
    ensures var s := State(map[], windows, sessions);
            var u, h := After(s, events, requests), History(s, events, requests);
            var configs, a := ConfigOf(requests), e.adapter;
            var (t, v) := Acquired(u, e, requests(a));
            var closed := forall i: nat :: !StillOpen(h, configs, a, i);
            var probe := (forall i: nat :: !ProbeWaits(h, configs, a, i))
              && exists i: nat :: StillOpen(h, configs, a, i) && Elapsed(e.now, h[i].now) >= configs(a).recoveryMs;
            && (v == Started(false) <==> closed && !RefusedLater(u, e, requests(a)))
            && (v == Started(true) <==> probe && !RefusedLater(u, e, requests(a)))
            && (v == CircuitOpen <==> !closed && !probe)
            && (v == TooMany <==> (closed || probe) && Full(requests(a), e.active))
            && (v == TooFast <==>
                && (closed || probe) && !Full(requests(a), e.active)
                && Admit(u.windows, a, requests(a).rate, e.now).1.Refused?)
            && t.windows ==
               (if v in {CircuitOpen, TooMany} then u.windows else Admit(u.windows, a, requests(a).rate, e.now).0)
            && (v.Started? ==> t.sessions == u.sessions[e.id := Active(Slot(a, v.probe, e.restarts))])
            && (!v.Started? ==> t.sessions == u.sessions)
  {
    hide After, CB.After, History, StillOpen, ProbeWaits, RateLimit.Admit;
    var s := State(map[], windows, sessions);
    CircuitsAreHistory(s, events, requests);
    PermitExactly(History(s, events, requests), ConfigOf(requests), e.adapter, e.now);
  }

  /**
   * Right after an outcome that was a success, the circuit lets every fresh acquire of the adapter pass, at every time.
   */
  lemma SuccessLetsIn(s: State, e: Event, now: nat, requests: Requests)
    requires e.Finish? && e.completed && Can(s, e)
    ensures PermitAt(Next(s, e, requests), s.sessions[e.id].slot.adapter, now, requests).Closed?
  {
  }

  // ---------------------------------------------------------------- sessions with a record

  /**
   * An acquire for a session that has a record resumes it if and only if it is pending for that adapter, due, reserved
   * and stored: never as the probe, with the restarts it had left, and with circuits and windows untouched. Else it
   * changes nothing.
   */
  lemma ResumedExactly(s: State, e: Event, r: Request)
    requires e.Acquire? && e.id in s.sessions
    ensures var (t, v) := Acquired(s, e, r);
            var k := s.sessions[e.id];
            && (v == Resumed <==> k.Pending? && k.adapter == e.adapter && k.due <= e.now && e.reserved && e.stored)
            && (v == Resumed ==> t == s.(sessions := s.sessions[e.id := Active(Slot(e.adapter, false, k.restarts))]))
            && (v != Resumed ==> v == NotResumed && t == s)
  {
  }

  /**
   * A failed execution that is to be restarted, and its restart by the slot that waited: once it is due and stored it
   * runs again, with the same probe flag and one restart fewer. Else it is left pending without a slot, so that only an
   * acquire can resume it.
   */
  lemma RestartCycle(s: State, id: nat, due: nat, now: nat, stored: bool, later: nat, requests: Requests)
    requires CanFinish(s, id, false, true)
    ensures var slot := s.sessions[id].slot;
            var waits := Next(s, Event.Finish(id, false, true, due, now), requests);
            var t := Next(waits, Event.Restart(id, stored, later), requests);
            && waits.sessions == s.sessions[id := Pending(slot.adapter, slot.restarts - 1, due, Some(slot.probe))]
            && t.sessions == s.sessions[id :=
                 if due <= later && stored then Active(Slot(slot.adapter, slot.probe, slot.restarts - 1))
                 else Pending(slot.adapter, slot.restarts - 1, due, None)]
            && t.circuits == waits.circuits && t.windows == s.windows
  {
    hide Record;
  }

  /** How many outcomes the session can still have. */
  function OutcomesLeft(k: Session): nat { if k.Ended? then 0 else RestartsOf(k) + 1 }

  /** The outcomes of the session in the run. */
  function Outcomes(s: State, events: seq<Event>, id: nat, requests: Requests): nat {
    if events == [] then 0
    else
      var n := |events| - 1;
      Outcomes(s, events[..n], id, requests)
      + if events[n].Finish? && events[n].id == id && Can(After(s, events[..n], requests), events[n]) then 1 else 0
  }

  lemma OutcomeStep(s: State, e: Event, id: nat, requests: Requests)
    requires id in s.sessions
    ensures var t := Next(s, e, requests);
            && id in t.sessions && AdapterOf(t.sessions[id]) == AdapterOf(s.sessions[id])
            && OutcomesLeft(t.sessions[id]) + (if e.Finish? && e.id == id && Can(s, e) then 1 else 0)
               <= OutcomesLeft(s.sessions[id])
  {
    hide AdmitCircuit, Admit, Crowded, RateLimit.Admit, Record;
  }

  /**
   * Over any run, resumptions and restarts included, a session has at most one outcome more than restarts were left.
   */
  lemma {:induction false} OutcomesAreBounded(s: State, events: seq<Event>, id: nat, requests: Requests)
    requires id in s.sessions
    ensures var t := After(s, events, requests);
            && id in t.sessions && AdapterOf(t.sessions[id]) == AdapterOf(s.sessions[id])
            && Outcomes(s, events, id, requests) + OutcomesLeft(t.sessions[id]) <= OutcomesLeft(s.sessions[id])
  {
    hide Next, Can;
    if events != [] {
      var n := |events| - 1;
      OutcomesAreBounded(s, events[..n], id, requests);
      OutcomeStep(After(s, events[..n], requests), events[n], id, requests);
    }
  }

  // ---------------------------------------------------------------- concurrency

  /** The executions of the adapter that the process table counts. */
  function ActiveOf(s: State, a: string): set<nat> {
    set id | id in s.sessions && s.sessions[id].Active? && s.sessions[id].slot.adapter == a
  }

  /** If the count that an acquire reads is the true one, a fresh start leaves at most the limit active. */
  lemma FreshStartsWithinLimit(s: State, e: Event, r: Request)
    requires e.Acquire? && e.id !in s.sessions && e.active == |ActiveOf(s, e.adapter)| && r.maxConcurrency.Some?
    ensures var (t, v) := Acquired(s, e, r);
            && (v.Started? ==>
                && |ActiveOf(t, e.adapter)| <= r.maxConcurrency.value
                && ActiveOf(t, e.adapter) == ActiveOf(s, e.adapter) + {e.id})
            && (v == TooMany ==> |ActiveOf(s, e.adapter)| >= r.maxConcurrency.value && t.sessions == s.sessions)
  {
    hide AdmitCircuit, RateLimit.Admit;
    var (t, v) := Acquired(s, e, r);
    if v.Started? { assert ActiveOf(t, e.adapter) == ActiveOf(s, e.adapter) + {e.id}; }
  }

  // ---------------------------------------------------------------- permits that are burnt

  /** The circuit comes to wait for a probe that nobody carries out. */
  predicate Burns(s: State, e: Event, requests: Requests)
    requires e.Acquire?
  {
    var t := Acquired(s, e, requests(e.adapter)).0;
    !ProbeIsOut(s.circuits, e.adapter) && ProbeIsOut(t.circuits, e.adapter) && e.id !in t.sessions
  }

  /** The checks behind the circuit refuse. */
  predicate RefusedLater(s: State, e: Event, r: Request)
    requires e.Acquire?
  {
    Crowded(r, e.active) || Admit(s.windows, e.adapter, r.rate, e.now).1.Refused? || !e.stored
  }

  /**
   * A permit is burnt if and only if the acquire is a fresh one, the circuit grants it the probe, and the concurrency,
   * rate or storage step refuses.
   */
  lemma BurntExactly(s: State, e: Event, requests: Requests)
    requires e.Acquire?
    ensures Burns(s, e, requests) <==>
      && e.id !in s.sessions && PermitAt(s, e.adapter, e.now, requests).Probe?
      && RefusedLater(s, e, requests(e.adapter))
  {
    hide Admit;
  }

  // ---------------------------------------------------------------- the next permit

  /** The execution `p` is not ended by these events. */
  predicate Spares(events: seq<Event>, p: nat) { forall e :: e in events && e.Finish? && e.id == p ==> e.again }

  /** No other process leaves sessions of the adapter pending, unless that is to be expected. */
  predicate Expected(events: seq<Event>, a: string, arriving: bool) {
    forall e :: e in events && e.Recover? && e.adapter == a ==> arriving
  }

  /** From `s` at `now`, a further probe permit can come while `p`, if it is out, stays out. */
  ghost predicate AnotherPermit(s: State, p: nat, a: string, now: nat, arriving: bool, requests: Requests) {
    exists events: seq<Event>, u: nat ::
      && OrderedFrom(events, now) && Spares(events, p) && Expected(events, a, arriving)
      && (forall e :: e in events ==> e.now <= u) && now <= u
      && PermitAt(After(s, events, requests), a, u, requests).Probe?
  }

  function RestartsOf(k: Session): nat
    requires !k.Ended?
  {
    if k.Active? then k.slot.restarts else k.restarts
  }

  /** An execution of the adapter, out or pending. */
  predicate Unfinished(s: State, a: string, q: nat) {
    q in s.sessions && !s.sessions[q].Ended? && AdapterOf(s.sessions[q]) == a
  }

  /** One that can report an outcome without `p` being ended. */
  predicate Reports(s: State, p: nat, a: string, q: nat) {
    Unfinished(s, a, q) && (q != p || RestartsOf(s.sessions[q]) > 0)
  }

  /** Nobody but `p` is unfinished for the adapter, and `p` has no restart left. */
  ghost predicate Silent(s: State, p: nat, a: string) {
    forall q :: Unfinished(s, a, q) ==> q == p && RestartsOf(s.sessions[q]) == 0
  }

  lemma SilentStep(s: State, e: Event, p: nat, a: string, requests: Requests)
    requires requests(a).circuit.Some? && ProbeIsOut(s.circuits, a) && Silent(s, p, a)
    requires (e.Finish? && e.id == p ==> e.again) && !(e.Recover? && e.adapter == a)
    ensures ProbeIsOut(Next(s, e, requests).circuits, a) && Silent(Next(s, e, requests), p, a)
  {
    hide Admit, Crowded;
    var t := Next(s, e, requests);
    if e.Finish? && Can(s, e) { assert Unfinished(s, s.sessions[e.id].slot.adapter, e.id); }
    forall q | Unfinished(t, a, q) ensures q == p && RestartsOf(t.sessions[q]) == 0 {
      assert Unfinished(s, a, q) && RestartsOf(t.sessions[q]) == RestartsOf(s.sessions[q]);
    }
  }

  lemma {:induction false} SilentRun(s: State, events: seq<Event>, p: nat, a: string, requests: Requests)
    requires requests(a).circuit.Some? && ProbeIsOut(s.circuits, a) && Silent(s, p, a)
    requires Spares(events, p) && Expected(events, a, false)
    ensures ProbeIsOut(After(s, events, requests).circuits, a)
    ensures Silent(After(s, events, requests), p, a)
  {
    hide Next, ProbeIsOut, Silent;
    if events != [] {
      var front, e := events[..|events| - 1], events[|events| - 1];
      assert e in events;
      SilentRun(s, front, p, a, requests);
      SilentStep(After(s, front, requests), e, p, a, requests);
    }
  }

  lemma OutIsRefused(s: State, a: string, u: nat, requests: Requests)
    requires requests(a).circuit.Some? && ProbeIsOut(s.circuits, a)
    ensures PermitAt(s, a, u, requests).Open?
  {
  }

  /** A failure of the adapter and the recovery window bring the next permit. */
  lemma FailureFrees(s: State, a: string, q: nat, again: bool, now: nat, requests: Requests)
    requires requests(a).circuit.Some? && ProbeIsOut(s.circuits, a) && CanFinish(s, q, false, again)
    requires s.sessions[q].slot.adapter == a
    ensures var t := Next(s, Event.Finish(q, false, again, now, now), requests);
            exists u: nat :: now <= u && PermitAt(t, a, u, requests).Probe?
  {
    var t := Next(s, Event.Finish(q, false, again, now, now), requests);
    var u := t.circuits[a].openedAt.value + now + requests(a).circuit.value.recoveryMs;
    assert PermitAt(t, a, u, requests).Probe?;
  }

  /** The due time of a pending session, and its resumption past the circuit. */
  function Wake(s: State, a: string, q: nat, now: nat): Event
    requires Unfinished(s, a, q)
  {
    var k := s.sessions[q];
    Event.Acquire(a, q, if k.Pending? && k.due > now then k.due else now, 0, true, true, 0)
  }

  lemma WakeMakesActive(s: State, a: string, q: nat, now: nat, requests: Requests)
    requires Unfinished(s, a, q) && ProbeIsOut(s.circuits, a)
    ensures var t := Next(s, Wake(s, a, q, now), requests);
            && ProbeIsOut(t.circuits, a) && q in t.sessions && t.sessions[q].Active? && t.sessions[q].slot.adapter == a
            && t.sessions[q].slot.restarts == RestartsOf(s.sessions[q])
  {
    hide Fresh;
  }

  /** An outcome reported by another execution, or by `p` before a restart, brings the next permit. */
  lemma ReportFrees(s: State, p: nat, a: string, q: nat, now: nat, requests: Requests)
    requires requests(a).circuit.Some? && ProbeIsOut(s.circuits, a) && Reports(s, p, a, q)
    ensures AnotherPermit(s, p, a, now, false, requests)
  {
    hide After, PermitAt, ProbeIsOut, Next;
    var wake := Wake(s, a, q, now);
    var t := Next(s, wake, requests);
    WakeMakesActive(s, a, q, now, requests);
    var e := Event.Finish(q, false, q == p, wake.now, wake.now);
    FailureFrees(t, a, q, q == p, wake.now, requests);
    var u: nat :| wake.now <= u && PermitAt(Next(t, e, requests), a, u, requests).Probe?;
    var events := [wake, e];
    AfterNothing(s, requests);
    AfterPush(s, [], wake, requests);
    AfterPush(s, [wake], e, requests);
    assert [] + [wake] == [wake] && [wake] + [e] == events;
    assert OrderedFrom(events, now) && Spares(events, p) && Expected(events, a, false);
  }

  lemma {:induction false} Above(ids: set<nat>) returns (b: nat)
    ensures forall i :: i in ids ==> i < b
    decreases |ids|
  {
    if ids == {} {
      b := 0;
    } else {
      var i :| i in ids;
      var c := Above(ids - {i});
      b := if i < c then c else i + 1;
      assert forall j :: j in ids ==> j == i || j in ids - {i};
    }
  }

  /** So does a session that another process leaves pending. */
  lemma ArrivalFrees(s: State, p: nat, a: string, now: nat, requests: Requests)
    requires requests(a).circuit.Some? && ProbeIsOut(s.circuits, a)
    ensures AnotherPermit(s, p, a, now, true, requests)
  {
    hide After, PermitAt, ProbeIsOut;
    var b := Above(s.sessions.Keys + {p});
    var arrival := Recover(b, a, 0, now, now);
    var t := Next(s, arrival, requests);
    assert Reports(t, p, a, b);
    ReportFrees(t, p, a, b, now, requests);
    var events: seq<Event>, u: nat :|
      && OrderedFrom(events, now) && Spares(events, p) && Expected(events, a, false)
      && (forall e :: e in events ==> e.now <= u) && now <= u
      && PermitAt(After(t, events, requests), a, u, requests).Probe?;
    AfterFirst(s, arrival, events, requests);
    assert OrderedFrom([arrival] + events, now);
  }

  lemma {:induction false} AfterFirst(s: State, e: Event, rest: seq<Event>, requests: Requests)
    ensures After(s, [e] + rest, requests) == After(Next(s, e, requests), rest, requests)
  {
    hide Next;
    if rest == [] {
      AfterNothing(s, requests);
      AfterPush(s, [], e, requests);
      assert [] + [e] == [e] + rest;
    } else {
      var front, last := rest[..|rest| - 1], rest[|rest| - 1];
      AfterFirst(s, e, front, requests);
      AfterPush(s, [e] + front, last, requests);
      assert [e] + front + [last] == [e] + rest;
    }
  }

  /**
   * While a probe is out, whether `p` still carries it or its permit was burnt, a further probe permit can be granted
   * before `p` ends if and only if another process may leave a session of the adapter pending, or some execution of the
   * adapter that is out or pending can report an outcome: another one, or `p` itself before a restart.
   */
  lemma AnotherPermitExactly(s: State, p: nat, a: string, now: nat, arriving: bool, requests: Requests)
    requires requests(a).circuit.Some? && ProbeIsOut(s.circuits, a)
    ensures AnotherPermit(s, p, a, now, arriving, requests) <==> arriving || exists q :: Reports(s, p, a, q)
  {
    hide After, ProbeIsOut, PermitAt;
    if arriving {
      ArrivalFrees(s, p, a, now, requests);
    } else if q :| Reports(s, p, a, q) {
      ReportFrees(s, p, a, q, now, requests);
    } else {
      assert Silent(s, p, a) by { NobodyReports(s, p, a); }
      forall events, u | Spares(events, p) && Expected(events, a, false)
        ensures !PermitAt(After(s, events, requests), a, u, requests).Probe?
      {
        SilentRun(s, events, p, a, requests);
        OutIsRefused(After(s, events, requests), a, u, requests);
      }
    }
  }

  lemma NobodyReports(s: State, p: nat, a: string)
    requires forall q :: !Reports(s, p, a, q)
    ensures Silent(s, p, a)
  {
    forall q | Unfinished(s, a, q) ensures q == p && RestartsOf(s.sessions[q]) == 0 { assert !Reports(s, p, a, q); }
  }

  /**
   * "Only one half-open probe" holds of a granted probe exactly if its adapter had no other execution out or pending
   * when it was granted, none is left pending by another process, and the probe may not be restarted.
   */
  lemma SecondProbeExactly(s: State, e: Event, arriving: bool, requests: Requests)
    requires e.Acquire? && requests(e.adapter).circuit.Some? && Acquired(s, e, requests(e.adapter)).1 == Started(true)
    ensures AnotherPermit(Next(s, e, requests), e.id, e.adapter, e.now, arriving, requests)
        <==> arriving || e.restarts > 0 || exists q :: Unfinished(s, e.adapter, q)
  {
    hide AnotherPermit, Admit, Crowded;
    var t := Next(s, e, requests);
    AnotherPermitExactly(t, e.id, e.adapter, e.now, arriving, requests);
    assert t.sessions == s.sessions[e.id := Active(Slot(e.adapter, true, e.restarts))];
    if e.restarts > 0 { assert Reports(t, e.id, e.adapter, e.id); }
    if q :| Unfinished(s, e.adapter, q) { assert Reports(t, e.id, e.adapter, q); }
    if q :| Reports(t, e.id, e.adapter, q) { assert q == e.id || Unfinished(s, e.adapter, q); }
  }

  /**
   * A burnt permit shuts fresh acquires of the adapter out at every later time, if and only if none of its executions
   * is out or pending and none is left pending by another process.
   */
  lemma BurntShutsOutExactly(s: State, e: Event, arriving: bool, requests: Requests)
    requires e.Acquire? && requests(e.adapter).circuit.Some? && Burns(s, e, requests)
    ensures AnotherPermit(Next(s, e, requests), e.id, e.adapter, e.now, arriving, requests)
        <==> arriving || exists q :: Unfinished(s, e.adapter, q)
  {
    hide AnotherPermit, Admit, Crowded;
    var t := Next(s, e, requests);
    AnotherPermitExactly(t, e.id, e.adapter, e.now, arriving, requests);
    assert t.sessions == s.sessions && e.id !in s.sessions;
    if q :| Unfinished(s, e.adapter, q) { assert Reports(t, e.id, e.adapter, q); }
    if q :| Reports(t, e.id, e.adapter, q) { assert Unfinished(s, e.adapter, q); }
  }

  // ---------------------------------------------------------------- two probes

  /** A threshold of one failure and a recovery window of ten; nothing else is limited. */
  function OneStrike(a: string): Request { Request(Some(Config(1, 10)), None, None) }

  function Ask(id: nat, now: nat): Event { Event.Acquire("a", id, now, 0, true, true, 0) }
  function Fail(id: nat, now: nat): Event { Event.Finish(id, false, false, now, now) }
  function Running(probe: bool): Session { Active(Slot("a", probe, 0)) }
  function Only(c: Circuit, sessions: map<nat, Session>): State { State(map["a" := c], map[], sessions) }

  /** Two executions start; one fails and opens the circuit; a probe starts; the other fails; another probe starts. */
  const OVERLAP := [Ask(1, 0), Ask(2, 0), Fail(1, 1), Ask(3, 11), Fail(2, 12), Ask(4, 22)]

  lemma OverlapStarts()
    ensures var s2 := Only(Circuit(0, None, false, 1), map[1 := Running(false), 2 := Running(false)]);
            After(State(map[], map[], map[]), [Ask(1, 0), Ask(2, 0)], OneStrike) == s2
  {
    var s1 := Only(Circuit(0, None, false, 1), map[1 := Running(false)]);
    assert Next(State(map[], map[], map[]), Ask(1, 0), OneStrike) == s1;
    hide After;
    AfterNothing(State(map[], map[], map[]), OneStrike);
    AfterPush(State(map[], map[], map[]), [], Ask(1, 0), OneStrike);
    AfterPush(State(map[], map[], map[]), [Ask(1, 0)], Ask(2, 0), OneStrike);
    assert [] + [Ask(1, 0)] == [Ask(1, 0)] && [Ask(1, 0)] + [Ask(2, 0)] == [Ask(1, 0), Ask(2, 0)];
  }

  lemma OverlapGoesOn(s: State)
    requires s == Only(Circuit(0, None, false, 1), map[1 := Running(false), 2 := Running(false)])
    ensures var s3 := Next(s, Fail(1, 1), OneStrike);
            var s4 := Next(s3, Ask(3, 11), OneStrike);
            s4 == Only(Circuit(1, Some(1), true, 1), map[1 := Ended("a"), 2 := Running(false), 3 := Running(true)])
  {
    var s3 := Next(s, Fail(1, 1), OneStrike);
    assert s3 == Only(Circuit(1, Some(1), false, 1), map[1 := Ended("a"), 2 := Running(false)]);
  }

  lemma OverlapEnds(s: State)
    requires s == Only(Circuit(1, Some(1), true, 1), map[1 := Ended("a"), 2 := Running(false), 3 := Running(true)])
    ensures var s5 := Next(s, Fail(2, 12), OneStrike);
            Next(s5, Ask(4, 22), OneStrike).sessions
              == map[1 := Ended("a"), 2 := Ended("a"), 3 := Running(true), 4 := Running(true)]
  {
    var s5 := Next(s, Fail(2, 12), OneStrike);
    assert s5 == Only(Circuit(2, Some(12), false, 1), map[1 := Ended("a"), 2 := Ended("a"), 3 := Running(true)]);
  }

  /** At the end of that run two probes of one adapter are out. */
  lemma TwoProbesAreOut()
    ensures OrderedFrom(OVERLAP, 0)
    ensures After(State(map[], map[], map[]), OVERLAP, OneStrike).sessions
         == map[1 := Ended("a"), 2 := Ended("a"), 3 := Running(true), 4 := Running(true)]
  {
    hide After, Next;
    var s0 := State(map[], map[], map[]);
    var e2 := [Ask(1, 0), Ask(2, 0)];
    OverlapStarts();
    var s2 := After(s0, e2, OneStrike);
    OverlapGoesOn(s2);
    OverlapEnds(Next(Next(s2, Fail(1, 1), OneStrike), Ask(3, 11), OneStrike));
    AfterPush(s0, e2, Fail(1, 1), OneStrike);
    AfterPush(s0, e2 + [Fail(1, 1)], Ask(3, 11), OneStrike);
    AfterPush(s0, e2 + [Fail(1, 1)] + [Ask(3, 11)], Fail(2, 12), OneStrike);
    AfterPush(s0, e2 + [Fail(1, 1)] + [Ask(3, 11)] + [Fail(2, 12)], Ask(4, 22), OneStrike);
    assert e2 + [Fail(1, 1)] + [Ask(3, 11)] + [Fail(2, 12)] + [Ask(4, 22)] == OVERLAP;
  }

  // ---------------------------------------------------------------- a burnt permit that a pending session frees

  /** The circuit is open, its window is over, and a session of the adapter that an earlier process left is pending. */
  function Recovered(now: nat): State { Only(Circuit(1, Some(0), false, 1), map[7 := Pending("a", 0, now, None)]) }

  /**
   * For every storage failure of the probe: the permit is burnt, nothing is out, and the adapter still gets another
   * one.
   */
  lemma PendingSessionFrees(now: nat, active: nat)
    requires now >= 10
    ensures var e := Event.Acquire("a", 8, now, active, false, true, 0);
            && Burns(Recovered(now), e, OneStrike)
            && (forall q :: q in Recovered(now).sessions ==> !Recovered(now).sessions[q].Active?)
            && AnotherPermit(Next(Recovered(now), e, OneStrike), 8, "a", now, false, OneStrike)
  {
    hide AnotherPermit;
    var e := Event.Acquire("a", 8, now, active, false, true, 0);
    assert Unfinished(Recovered(now), "a", 7);
    BurntShutsOutExactly(Recovered(now), e, false, OneStrike);
  }
}
