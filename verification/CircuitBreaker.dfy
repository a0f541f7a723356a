/** The circuit breaker of provider admission, over whole runs. */
module CircuitBreaker {
  import opened Text
  import opened Numbers

  datatype Config = Config(failureThreshold: U32, recoveryMs: nat)
  datatype Circuit = Circuit(failures: U32, openedAt: Option<nat>, probing: bool, threshold: U32)

  /** Admitted through a closed circuit, admitted as the half-open probe, or refused. */
  datatype Permit = Closed | Probe | Open(retryAfterMs: nat)

  const FRESH := Circuit(0, None, false, 0)

  function CircuitAt(circuits: map<string, Circuit>, adapter: string): Circuit {
    if adapter in circuits then circuits[adapter] else FRESH
  }

  /** `admit_circuit` */
  function AdmitCircuit(
    circuits: map<string, Circuit>, adapter: string, config: Option<Config>, now: nat): (map<string, Circuit>, Permit) {
    if config.None? then (circuits, Closed)
    else
      var c := CircuitAt(circuits, adapter).(threshold := config.value.failureThreshold);
      if c.openedAt.None? then (circuits[adapter := c], Closed)
      else
        var elapsed := Elapsed(now, c.openedAt.value);
        if elapsed >= config.value.recoveryMs && !c.probing then (circuits[adapter := c.(probing := true)], Probe)
        else (circuits[adapter := c], Open(Elapsed(config.value.recoveryMs, elapsed)))
  }

  function AfterFailure(c: Circuit, probe: bool, now: nat): Circuit {
    var n := if c.failures == U32_MAX then U32_MAX else c.failures + 1;
    var failed := c.(failures := n, probing := false);
    if probe || (c.threshold > 0 && n >= c.threshold) then failed.(openedAt := Some(now)) else failed
  }

  /** `record_circuit_outcome`, for an execution that was or was not the probe. */
  function Record(
    circuits: map<string, Circuit>, adapter: string, completed: bool, probe: bool, now: nat): map<string, Circuit> {
    if adapter !in circuits then circuits
    else if completed then circuits[adapter := circuits[adapter].(failures := 0, openedAt := None, probing := false)]
    else circuits[adapter := AfterFailure(circuits[adapter], probe, now)]
  }

  class Breaker {
    var circuits: map<string, Circuit>

    constructor ()
      ensures circuits == map[]
    {
      circuits := map[];
    }

    method Admit(adapter: string, config: Option<Config>, now: nat) returns (p: Permit)
      modifies this
      ensures (circuits, p) == AdmitCircuit(old(circuits), adapter, config, now)
    {
      if config.None? { return Closed; }
      var c := if adapter in circuits then circuits[adapter] else FRESH;
      c := c.(threshold := config.value.failureThreshold);
      if c.openedAt.None? {
        circuits := circuits[adapter := c];
        return Closed;
      }
      var elapsed := Elapsed(now, c.openedAt.value);
      if elapsed >= config.value.recoveryMs && !c.probing {
        circuits := circuits[adapter := c.(probing := true)];
        return Probe;
      }
      circuits := circuits[adapter := c];
      return Open(Elapsed(config.value.recoveryMs, elapsed));
    }

    method RecordOutcome(adapter: string, completed: bool, probe: bool, now: nat)
      modifies this
      ensures circuits == Record(old(circuits), adapter, completed, probe, now)
    {
      if adapter !in circuits { return; }
      var c := circuits[adapter];
      if completed {
        circuits := circuits[adapter := c.(failures := 0, openedAt := None, probing := false)];
        return;
      }
      c := c.(failures := if c.failures == U32_MAX then U32_MAX else c.failures + 1, probing := false);
      if probe || (c.threshold > 0 && c.failures >= c.threshold) { c := c.(openedAt := Some(now)); }
      circuits := circuits[adapter := c];
    }
  }

  /** An adapter without a configuration is let in and not counted, and only adapters that asked are counted. */
  lemma OnlyConfiguredCount(
    circuits: map<string, Circuit>, adapter: string, config: Option<Config>, completed: bool, probe: bool, now: nat)
    ensures AdmitCircuit(circuits, adapter, None, now) == (circuits, Closed)
    ensures config.Some? ==> AdmitCircuit(circuits, adapter, config, now).0.Keys == circuits.Keys + {adapter}
    ensures Record(circuits, adapter, completed, probe, now).Keys == circuits.Keys
  {
  }

  // ---------------------------------------------------------------- runs

  datatype Event = Acquire(adapter: string, now: nat) | Finish(adapter: string, completed: bool, probe: bool, now: nat)

  type Configs = string -> Config

  function Step(circuits: map<string, Circuit>, e: Event, configs: Configs): map<string, Circuit> {
    match e
    case Acquire(a, now) => AdmitCircuit(circuits, a, Some(configs(a)), now).0
    case Finish(a, completed, probe, now) => Record(circuits, a, completed, probe, now)
  }

  /** A run from any state of the breaker, with a fixed configuration of each adapter. */
  function After(circuits: map<string, Circuit>, events: seq<Event>, configs: Configs): map<string, Circuit> {
    if events == [] then circuits
    else Step(After(circuits, events[..|events| - 1], configs), events[|events| - 1], configs)
  }

  /** What an acquire gets in a state. */
  function Granted(circuits: map<string, Circuit>, a: string, now: nat, configs: Configs): Permit {
    AdmitCircuit(circuits, a, Some(configs(a)), now).1
  }

  predicate OrderedFrom(events: seq<Event>, now: nat) {
    && (forall e :: e in events ==> now <= e.now)
    && (forall i, j :: 0 <= i < j < |events| ==> events[i].now <= events[j].now)
  }

  // ---------------------------------------------------------------- the counter

  /** The failures of an adapter since its last success, once the breaker knows it. */
  function Tally(events: seq<Event>, a: string): Option<nat> {
    if events == [] then None
    else
      var before, e := Tally(events[..|events| - 1], a), events[|events| - 1];
      if e.adapter != a then before
      else if e.Acquire? then (if before.None? then Some(0) else before)
      else if before.None? then None
      else if e.completed then Some(0) else Some(before.value + 1)
  }

  function Saturated(n: nat): U32 { if n > U32_MAX then U32_MAX else n }

  /** The counter is the failures since the last success, and the threshold is the configured one. */
  lemma {:induction false} CounterIsFailures(events: seq<Event>, configs: Configs, a: string)
    ensures var cs, n := After(map[], events, configs), Tally(events, a);
            && (a in cs <==> n.Some?)
            && (a in cs ==> cs[a].failures == Saturated(n.value) && cs[a].threshold == configs(a).failureThreshold)
  {
    if events != [] { CounterIsFailures(events[..|events| - 1], configs, a); }
  }

  /**
   * A failure opens the circuit exactly if it was the probe's or the failures since the last success have reached a
   * positive threshold.
   */
  lemma OpensExactly(events: seq<Event>, configs: Configs, a: string, probe: bool, now: nat)
    requires Tally(events, a).Some?
    ensures var before := CircuitAt(After(map[], events, configs), a);
            var after := CircuitAt(After(map[], events + [Finish(a, false, probe, now)], configs), a);
            var m, n := configs(a).failureThreshold, Tally(events, a).value + 1;
            after.openedAt == if probe || (m > 0 && n >= m) then Some(now) else before.openedAt
  {
    hide After, Tally;
    CounterIsFailures(events, configs, a);
    CounterIsFailures(events + [Finish(a, false, probe, now)], configs, a);
    AfterPush(map[], events, Finish(a, false, probe, now), configs);
  }

  lemma AfterPush(circuits: map<string, Circuit>, events: seq<Event>, e: Event, configs: Configs)
    ensures After(circuits, events + [e], configs) == Step(After(circuits, events, configs), e, configs)
  {
    assert (events + [e])[..|events|] == events;
  }

  // ---------------------------------------------------------------- open means refused

  predicate OpenSince(circuits: map<string, Circuit>, a: string, t: nat) {
    a in circuits && circuits[a].openedAt.Some? && circuits[a].openedAt.value >= t
  }

  predicate Succeeds(e: Event, a: string) { e.Finish? && e.adapter == a && e.completed }

  lemma {:induction false} StaysOpen(
    circuits: map<string, Circuit>, events: seq<Event>, configs: Configs, a: string, t: nat)
    requires OpenSince(circuits, a, t) && OrderedFrom(events, t) && forall e :: e in events ==> !Succeeds(e, a)
    ensures OpenSince(After(circuits, events, configs), a, t)
  {
    if events != [] {
      assert events[|events| - 1] in events;
      StaysOpen(circuits, events[..|events| - 1], configs, a, t);
    }
  }

  /**
   * From a circuit opened at `t`, whatever happens in between except a success of that adapter, an acquire before the
   * end of the recovery window is refused.
   */
  lemma NoAcquireWhileOpen(
    circuits: map<string, Circuit>, events: seq<Event>, configs: Configs, a: string, t: nat, now: nat)
    requires OpenSince(circuits, a, t) && OrderedFrom(events, t) && (forall e :: e in events ==> !Succeeds(e, a))
    requires t <= now < t + configs(a).recoveryMs
    ensures Granted(After(circuits, events, configs), a, now, configs).Open?
  {
    hide After;
    StaysOpen(circuits, events, configs, a, t);
  }

  // ---------------------------------------------------------------- probes

  predicate Completes(e: Event, a: string) { e.Finish? && e.adapter == a }

  /** A circuit whose probe is out, as an acquire that was granted the probe leaves it. */
  predicate ProbeIsOut(circuits: map<string, Circuit>, a: string) {
    a in circuits && circuits[a].openedAt.Some? && circuits[a].probing
  }

  lemma ProbeLeavesItOut(circuits: map<string, Circuit>, a: string, now: nat, configs: Configs)
    requires Granted(circuits, a, now, configs).Probe?
    ensures ProbeIsOut(Step(circuits, Acquire(a, now), configs), a)
  {
  }

  lemma {:induction false} ProbeStaysOut(
    circuits: map<string, Circuit>, events: seq<Event>, configs: Configs, a: string)
    requires ProbeIsOut(circuits, a) && forall e :: e in events ==> !Completes(e, a)
    ensures ProbeIsOut(After(circuits, events, configs), a)
  {
    if events != [] {
      assert events[|events| - 1] in events;
      ProbeStaysOut(circuits, events[..|events| - 1], configs, a);
    }
  }

  /** Between two probe permits of an adapter one of its executions ends. */
  lemma ProbesAreSeparated(
    circuits: map<string, Circuit>, events: seq<Event>, configs: Configs, a: string, t: nat, u: nat)
    requires Granted(circuits, a, t, configs).Probe?
    requires Granted(After(Step(circuits, Acquire(a, t), configs), events, configs), a, u, configs).Probe?
    ensures exists e :: e in events && Completes(e, a)
  {
    hide After, Step;
    var s := Step(circuits, Acquire(a, t), configs);
    ProbeLeavesItOut(circuits, a, t, configs);
    if forall e :: e in events ==> !Completes(e, a) {
      ProbeStaysOut(s, events, configs, a);
      assert false;
    }
  }

  /**
   * A probe permit that no execution ends, as when a later check refused its request, shuts the adapter out for good.
   */
  lemma UnusedProbeShutsOut(
    circuits: map<string, Circuit>, events: seq<Event>, configs: Configs, a: string, t: nat, now: nat)
    requires Granted(circuits, a, t, configs).Probe? && forall e :: e in events ==> !Completes(e, a)
    ensures Granted(After(Step(circuits, Acquire(a, t), configs), events, configs), a, now, configs).Open?
  {
    hide After, Step;
    ProbeLeavesItOut(circuits, a, t, configs);
    ProbeStaysOut(Step(circuits, Acquire(a, t), configs), events, configs, a);
  }

  // ---------------------------------------------------------------- the permit, from the history alone

  /** Event `i` is a failure that opens the circuit: the probe's, or one that makes the failures reach the threshold. */
  predicate Opens(events: seq<Event>, configs: Configs, a: string, i: nat)
    requires i < |events|
  {
    var e, n, m := events[i], Tally(events[..i], a), configs(a).failureThreshold;
    e.Finish? && e.adapter == a && !e.completed && n.Some? && (e.probe || (m > 0 && n.value + 1 >= m))
  }

  /** The last opening failure, and the adapter has not succeeded since. */
  ghost predicate StillOpen(events: seq<Event>, configs: Configs, a: string, i: nat) {
    && i < |events| && Opens(events, configs, a, i)
    && forall j :: i < j < |events| ==> !Opens(events, configs, a, j) && !Succeeds(events[j], a)
  }

  /** Event `i` was given the probe. */
  predicate GetsProbe(events: seq<Event>, configs: Configs, a: string, i: nat)
    requires i < |events|
  {
    && events[i].Acquire? && events[i].adapter == a
    && Granted(After(map[], events[..i], configs), a, events[i].now, configs).Probe?
  }

  /** A probe was given out and no execution of the adapter has ended since. */
  ghost predicate ProbeWaits(events: seq<Event>, configs: Configs, a: string, i: nat) {
    i < |events| && GetsProbe(events, configs, a, i) && forall j :: i < j < |events| ==> !Completes(events[j], a)
  }

  lemma LaterEvents(events: seq<Event>, i: nat)
    requires i < |events| - 1
    ensures events[..|events| - 1][..i] == events[..i] && events[..|events| - 1][i] == events[i]
  {
  }

  lemma OpensLater(events: seq<Event>, configs: Configs, a: string, i: nat)
    requires i < |events| - 1
    ensures Opens(events[..|events| - 1], configs, a, i) == Opens(events, configs, a, i)
    ensures GetsProbe(events[..|events| - 1], configs, a, i) == GetsProbe(events, configs, a, i)
  {
    hide Tally, Granted, After;
    LaterEvents(events, i);
  }

  function LastOpening(events: seq<Event>, configs: Configs, a: string): (r: Option<nat>)
    ensures r.Some? ==> r.value < |events|
  {
    if events == [] then None
    else
      var n := |events| - 1;
      if Opens(events, configs, a, n) then Some(n)
      else if Succeeds(events[n], a) then None
      else LastOpening(events[..n], configs, a)
  }

  function LastProbe(events: seq<Event>, configs: Configs, a: string): (r: Option<nat>)
    ensures r.Some? ==> r.value < |events|
  {
    if events == [] then None
    else
      var n := |events| - 1;
      if GetsProbe(events, configs, a, n) then Some(n)
      else if Completes(events[n], a) then None
      else LastProbe(events[..n], configs, a)
  }

  lemma {:induction false} LastOpeningMeaning(events: seq<Event>, configs: Configs, a: string, i: nat)
    ensures LastOpening(events, configs, a) == Some(i) <==> StillOpen(events, configs, a, i)
  {
    hide Opens, Succeeds;
    if events != [] {
      var n := |events| - 1;
      LastOpeningMeaning(events[..n], configs, a, i);
      forall j: nat | j < n ensures Opens(events[..n], configs, a, j) == Opens(events, configs, a, j) {
        OpensLater(events, configs, a, j);
      }
    }
  }

  lemma {:induction false} LastProbeMeaning(events: seq<Event>, configs: Configs, a: string, i: nat)
    ensures ProbeWaits(events, configs, a, i) ==> LastProbe(events, configs, a).Some?
    ensures LastProbe(events, configs, a) == Some(i) ==> ProbeWaits(events, configs, a, i)
  {
    hide GetsProbe, Completes;
    if events != [] {
      var n := |events| - 1;
      LastProbeMeaning(events[..n], configs, a, i);
      forall j: nat | j < n ensures GetsProbe(events[..n], configs, a, j) == GetsProbe(events, configs, a, j) {
        OpensLater(events, configs, a, j);
      }
    }
  }

  lemma AfterLast(events: seq<Event>, configs: Configs)
    requires events != []
    ensures After(map[], events, configs) ==
            Step(After(map[], events[..|events| - 1], configs), events[|events| - 1], configs)
  {
  }

  /** The circuit remembers the last opening failure since the last success. */
  lemma {:induction false} OpenedExactly(events: seq<Event>, configs: Configs, a: string)
    ensures var at, i := CircuitAt(After(map[], events, configs), a).openedAt, LastOpening(events, configs, a);
            at == if i.Some? then Some(events[i.value].now) else None
  {
    if events != [] {
      var n := |events| - 1;
      OpenedExactly(events[..n], configs, a);
      CounterIsFailures(events[..n], configs, a);
      AfterLast(events, configs);
      hide Tally, After;
    }
  }

  /** Its flag says that a probe was given out and no execution of the adapter has ended since. */
  lemma {:induction false} ProbingExactly(events: seq<Event>, configs: Configs, a: string)
    ensures CircuitAt(After(map[], events, configs), a).probing <==> LastProbe(events, configs, a).Some?
  {
    if events != [] {
      var n := |events| - 1;
      ProbingExactly(events[..n], configs, a);
      CounterIsFailures(events[..n], configs, a);
      AfterLast(events, configs);
      hide Tally, After;
    }
  }

  /**
   * Over any run from the start, what an acquire gets: it passes a closed circuit if and only if the adapter has had no
   * opening failure since its last success; it is the probe if and only if it has, the recovery window since the last
   * one is over, and no probe is out; else it is refused.
   */
  lemma PermitExactly(events: seq<Event>, configs: Configs, a: string, now: nat)
    ensures var p := Granted(After(map[], events, configs), a, now, configs);
            && (p.Closed? <==> forall i: nat :: !StillOpen(events, configs, a, i))
            && (p.Probe? <==>
                  && (forall i: nat :: !ProbeWaits(events, configs, a, i))
                  && exists i: nat ::
                       StillOpen(events, configs, a, i) && Elapsed(now, events[i].now) >= configs(a).recoveryMs)
  {
    hide After, Tally, StillOpen, ProbeWaits, LastOpening, LastProbe;
    OpenedExactly(events, configs, a);
    ProbingExactly(events, configs, a);
    forall i: nat
      ensures LastOpening(events, configs, a) == Some(i) <==> StillOpen(events, configs, a, i)
      ensures ProbeWaits(events, configs, a, i) ==> LastProbe(events, configs, a).Some?
      ensures LastProbe(events, configs, a) == Some(i) ==> ProbeWaits(events, configs, a, i)
    {
      LastOpeningMeaning(events, configs, a, i);
      LastProbeMeaning(events, configs, a, i);
    }
    var o, p := LastOpening(events, configs, a), LastProbe(events, configs, a);
    assert o.Some? ==> StillOpen(events, configs, a, o.value);
    assert p.Some? ==> ProbeWaits(events, configs, a, p.value);
  }

  /** Right after a success every acquire passes, at every time. */
  lemma SuccessCloses(events: seq<Event>, configs: Configs, a: string, probe: bool, t: nat, now: nat)
    ensures Granted(After(map[], events + [Finish(a, true, probe, t)], configs), a, now, configs).Closed?
  {
    hide After, Tally;
    var all := events + [Finish(a, true, probe, t)];
    assert Succeeds(all[|events|], a);
    PermitExactly(all, configs, a, now);
  }

  /** With no probe out, coming back after the announced delay is enough, and not coming back sooner is needed. */
  lemma RetryAfterIsExact(circuits: map<string, Circuit>, configs: Configs, a: string, now: nat, later: nat)
    requires Granted(circuits, a, now, configs).Open? && !CircuitAt(circuits, a).probing && now <= later
    requires CircuitAt(circuits, a).openedAt.Some? && CircuitAt(circuits, a).openedAt.value <= now
    ensures var r := Granted(circuits, a, now, configs).retryAfterMs;
            Granted(Step(circuits, Acquire(a, now), configs), a, later, configs).Probe? <==> later >= now + r
  {
  }
}
