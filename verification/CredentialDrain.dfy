/** The whole drain: lifecycle, registry and finalizer together, and exactly when it can still return Ok. */
module CredentialDrain {
  import opened Text
  import L = Lifecycle
  import LI = LifecycleInvariant
  import LS = LifecycleSteps
  import LT = LifecycleTheorem
  import LP = LifecycleProgress
  import F = Finalizer
  import FP = FinalizerProgress

  /**
   * `looked` says that the drain in progress has found the finalizer clear and goes on to its last look at the maps.
   */
  datatype State = State(lifecycle: L.State, finalizer: F.State, looked: bool)
  datatype Step = OfLifecycle(l: L.Step) | OfFinalizer(f: F.Step) | Look

  const START := State(L.START, F.START, false)

  /** `drain_deferred_credential_releases_until` finds nothing outstanding in its scope. */
  predicate FinalizerIsClear(s: State, scope: nat) { F.ProgressAt(s.finalizer, scope).outstanding == 0 }

  predicate CanLook(s: State, scope: nat) { L.DrainFree(s.lifecycle) && FinalizerIsClear(s, scope) }

  /** After that look the drain does not turn to its lists again, and without it does not answer Ok. */
  predicate Barred(s: State, l: L.Step) { if s.looked then l.Pick? || l.Await? else l == L.End(true) }

  /** A step that is not possible is not taken. */
  function Next(s: State, step: Step, scope: nat): State {
    match step
    case OfFinalizer(f) => s.(finalizer := F.Next(s.finalizer, f))
    case Look => if CanLook(s, scope) then s.(looked := true) else s
    case OfLifecycle(l) =>
      if Barred(s, l) then s
      else
        var t := L.Next(s.lifecycle, l);
        State(t, s.finalizer, s.looked && t.drain.Launching?)
  }

  function After(s: State, steps: seq<Step>, scope: nat): State {
    if steps == [] then s else Next(After(s, steps[..|steps| - 1], scope), steps[|steps| - 1], scope)
  }

  /**
   * `drain_all_until` may return Ok: registry, releases and finalizer succeeded, and now the last look finds nothing
   * left.
   */
  predicate MayReturnOk(s: State) { s.looked && L.Can(s.lifecycle, L.End(true)) }

  /** The registry lets go only of sessions it can shut down. */
  ghost predicate Obey(steps: seq<Step>, willing: set<L.Name>) {
    forall step :: step in steps && step.OfLifecycle? ==> LP.Obeys(step.l, willing)
  }

  /** Some continuation, on a clock that starts at `now` and does not go back, lets a drain return Ok. */
  ghost predicate OkIsPossible(s: State, scope: nat, willing: set<L.Name>, now: int) {
    exists steps ::
      Obey(steps, willing) && FP.OrderedFrom(FinalizerSteps(steps), now) && MayReturnOk(After(s, steps, scope))
  }

  // ---------------------------------------------------------------- the two parts of a run

  function FinalizerSteps(steps: seq<Step>): seq<F.Step> {
    if steps == [] then []
    else
      var last := steps[|steps| - 1];
      FinalizerSteps(steps[..|steps| - 1]) + if last.OfFinalizer? then [last.f] else []
  }

  lemma FinalizerPush(s: F.State, fs: seq<F.Step>, f: F.Step)
    ensures F.After(s, fs + [f]) == F.Next(F.After(s, fs), f)
  {
    assert (fs + [f])[..|fs|] == fs;
  }

  lemma LifecyclePush(s: L.State, ls: seq<L.Step>, l: L.Step)
    ensures L.After(s, ls + [l]) == L.Next(L.After(s, ls), l)
  {
    assert (ls + [l])[..|ls|] == ls;
  }

  lemma {:induction false} FinalizerPart(s: State, steps: seq<Step>, scope: nat)
    ensures After(s, steps, scope).finalizer == F.After(s.finalizer, FinalizerSteps(steps))
  {
    hide F.Next, L.Next;
    if steps != [] {
      var front, last := steps[..|steps| - 1], steps[|steps| - 1];
      FinalizerPart(s, front, scope);
      if last.OfFinalizer? {
        FinalizerPush(s.finalizer, FinalizerSteps(front), last.f);
      } else {
        assert FinalizerSteps(front) + [] == FinalizerSteps(front);
      }
    }
  }

  lemma {:induction false} LifecyclePart(
    s: State, steps: seq<Step>, scope: nat, willing: set<L.Name>) returns (ls: seq<L.Step>)
    requires Obey(steps, willing)
    ensures After(s, steps, scope).lifecycle == L.After(s.lifecycle, ls) && LP.AllObey(ls, willing)
  {
    hide F.Next, L.Next, LP.Obeys, CanLook;
    if steps == [] {
      ls := [];
    } else {
      var front, last := steps[..|steps| - 1], steps[|steps| - 1];
      assert last in steps;
      ls := LifecyclePart(s, front, scope, willing);
      if last.OfLifecycle? && !Barred(After(s, front, scope), last.l) {
        LifecyclePush(s.lifecycle, ls, last.l);
        ls := ls + [last.l];
      }
    }
  }

  /** Both parts are reachable on their own. */
  lemma Reached(before: seq<Step>, scope: nat) returns (ls: seq<L.Step>, fs: seq<F.Step>)
    ensures var s := After(START, before, scope);
            s.lifecycle == L.After(L.START, ls) && s.finalizer == F.After(F.START, fs)
  {
    hide L.After, F.After, After;
    var everything := set step | step in before && step.OfLifecycle? && step.l.LetGo? :: step.l.name;
    ls := LifecyclePart(START, before, scope, everything);
    FinalizerPart(START, before, scope);
    fs := FinalizerSteps(before);
  }

  // ---------------------------------------------------------------- after the look

  /** What holds of every reachable state after zero. */
  ghost predicate Good(s: State) {
    LI.Inv(s.lifecycle) && (s.looked ==> s.lifecycle.sawZero && L.DrainFree(s.lifecycle))
  }

  lemma LookIsGood(s: State, scope: nat)
    requires Good(s)
    ensures Good(Next(s, Look, scope))
  {
    hide LI.CallsInv, LI.NamesInv, LI.TasksInv, LI.HandsInv, LI.DrainInv, LI.PlaceInv, LI.VaultInv;
  }

  /** Once a drain has looked, nothing but its end changes what its last look will find. */
  lemma LookedStays(s: State, l: L.Step, scope: nat)
    requires Good(s) && s.looked
    ensures var r := Next(s, OfLifecycle(l), scope);
            r.looked ==> L.DrainFree(r.lifecycle) && (MayReturnOk(r) <==> MayReturnOk(s))
  {
    hide LI.GateInv, LI.CallsInv, LI.NamesInv, LI.TasksInv, LI.HandsInv, LI.DrainInv, LI.PlaceInv, LI.VaultInv, L.Do;
    hide L.Can;
    if L.Can(s.lifecycle, l) && !l.Pick? && !l.Await? {
      if l.End? {
        EndEndsIt(s.lifecycle, l.ok);
      } else {
        LP.OnlyWorkers(s.lifecycle, l);
        LP.WorkersAreQuiet(s.lifecycle, l);
        QuietKeepsOk(s.lifecycle, L.Do(s.lifecycle, l));
      }
    }
  }

  lemma EndEndsIt(s: L.State, ok: bool)
    requires L.Can(s, L.End(ok))
    ensures L.Do(s, L.End(ok)).drain.NoDrain?
  {
  }

  lemma QuietKeepsOk(s: L.State, r: L.State)
    requires LP.Quiet(s, r) && L.DrainFree(s)
    ensures L.DrainFree(r) && (L.Can(r, L.End(true)) <==> L.Can(s, L.End(true)))
  {
  }

  lemma LifecycleStepIsGood(s: State, l: L.Step, scope: nat)
    requires Good(s)
    ensures Good(Next(s, OfLifecycle(l), scope))
  {
    hide LI.Inv, L.DrainFree, L.Can, L.Do, MayReturnOk;
    if L.Can(s.lifecycle, l) { LS.DoKeeps(s.lifecycle, l); }
    LT.NextLater(s.lifecycle, l);
    if s.looked { LookedStays(s, l, scope); }
  }

  lemma {:induction false} RunIsGood(s: State, steps: seq<Step>, scope: nat)
    requires Good(s)
    ensures Good(After(s, steps, scope))
  {
    hide LI.Inv, L.DrainFree, L.Next, F.Next, Good;
    if steps != [] {
      var front, last := steps[..|steps| - 1], steps[|steps| - 1];
      RunIsGood(s, front, scope);
      var r := After(s, front, scope);
      match last
      case Look => LookIsGood(r, scope);
      case OfLifecycle(l) => LifecycleStepIsGood(r, l, scope);
      case OfFinalizer(f) => assert Good(Next(r, last, scope)) by { FinalizerStepIsGood(r, f, scope); }
    }
  }

  lemma FinalizerStepIsGood(s: State, f: F.Step, scope: nat)
    requires Good(s)
    ensures Good(Next(s, OfFinalizer(f), scope))
  {
    hide LI.Inv, L.DrainFree, F.Next;
  }

  /** With a doomed session no drain looks again, so none returns Ok but one that has looked and finds nothing left. */
  lemma {:induction false} DoomedNeverOk(s: State, steps: seq<Step>, scope: nat, fs: seq<F.Step>)
    requires Good(s) && s.finalizer == F.After(F.START, fs) && FP.Doomed(s.finalizer, scope) > 0 && !MayReturnOk(s)
    ensures !MayReturnOk(After(s, steps, scope))
  {
    hide Good, MayReturnOk, F.After, F.Next, L.Next, FP.Doomed, F.ProgressAt;
    if steps != [] {
      var front, last := steps[..|steps| - 1], steps[|steps| - 1];
      DoomedNeverOk(s, front, scope, fs);
      RunIsGood(s, front, scope);
      FinalizerPart(s, front, scope);
      FP.DoomedIsOutstanding(fs, FinalizerSteps(front), scope);
      var r := After(s, front, scope);
      assert !MayReturnOk(Next(r, last, scope)) by { NoOkByOneStep(r, last, scope); }
    }
  }

  lemma NoOkByOneStep(s: State, step: Step, scope: nat)
    requires Good(s) && !MayReturnOk(s) && !FinalizerIsClear(s, scope)
    ensures !MayReturnOk(Next(s, step, scope))
  {
    hide LI.Inv, L.Can, L.DrainFree, F.Next, L.Next, F.ProgressAt;
    if step.OfLifecycle? && s.looked { LookedStays(s, step.l, scope); }
  }

  // ---------------------------------------------------------------- continuations of one part

  lemma {:induction false} AfterAppend(s: State, a: seq<Step>, b: seq<Step>, scope: nat)
    ensures After(s, a + b, scope) == After(After(s, a, scope), b, scope)
  {
    hide Next;
    if b == [] {
      assert a + b == a;
    } else {
      var ab := a + b;
      assert ab[..|ab| - 1] == a + b[..|b| - 1];
      AfterAppend(s, a, b[..|b| - 1], scope);
    }
  }

  lemma AfterOne(s: State, step: Step, scope: nat)
    ensures After(s, [step], scope) == Next(s, step, scope)
  {
    hide Next;
    assert [step][..0] == [] && After(s, [], scope) == s;
  }

  function FromFinalizer(fs: seq<F.Step>): seq<Step> { seq(|fs|, i requires 0 <= i < |fs| => OfFinalizer(fs[i])) }
  function FromLifecycle(ls: seq<L.Step>): seq<Step> { seq(|ls|, i requires 0 <= i < |ls| => OfLifecycle(ls[i])) }

  lemma {:induction false} OnlyFinalizer(fs: seq<F.Step>, rest: seq<Step>)
    requires forall step :: step in rest ==> !step.OfFinalizer?
    ensures FinalizerSteps(FromFinalizer(fs) + rest) == fs
    decreases |fs| + |rest|
  {
    var all := FromFinalizer(fs) + rest;
    if rest != [] {
      assert all[..|all| - 1] == FromFinalizer(fs) + rest[..|rest| - 1];
      OnlyFinalizer(fs, rest[..|rest| - 1]);
    } else if fs != [] {
      var n := |fs| - 1;
      assert all[..n] == FromFinalizer(fs[..n]) + [];
      OnlyFinalizer(fs[..n], []);
      assert fs == fs[..n] + [fs[n]];
    }
  }

  lemma {:induction false} FinalizerRun(s: State, fs: seq<F.Step>, scope: nat)
    ensures After(s, FromFinalizer(fs), scope) == s.(finalizer := F.After(s.finalizer, fs))
  {
    hide F.Next, L.Next;
    if fs != [] {
      var n := |fs| - 1;
      assert FromFinalizer(fs)[..n] == FromFinalizer(fs[..n]);
      FinalizerRun(s, fs[..n], scope);
    }
  }

  lemma {:induction false} LifecycleRun(s: State, ls: seq<L.Step>, scope: nat)
    requires !s.looked && L.End(true) !in ls
    ensures After(s, FromLifecycle(ls), scope) == s.(lifecycle := L.After(s.lifecycle, ls))
  {
    hide F.Next, L.Next;
    if ls != [] {
      var n := |ls| - 1;
      assert FromLifecycle(ls)[..n] == FromLifecycle(ls[..n]);
      assert ls[n] in ls;
      LifecycleRun(s, ls[..n], scope);
    }
  }

  // ---------------------------------------------------------------- exactly when

  /** A drain that has looked may end without an Ok; then none is past its look. */
  lemma StartOver(s: State, scope: nat) returns (steps: seq<Step>)
    requires Good(s) && s.lifecycle.sawZero
    ensures steps == [] || steps == [OfLifecycle(L.End(false))]
    ensures var r := After(s, steps, scope);
            && Good(r) && !r.looked && r.lifecycle.sawZero && r.finalizer == s.finalizer
            && r.lifecycle.registry == s.lifecycle.registry
  {
    hide LI.Inv;
    steps := if s.looked then [OfLifecycle(L.End(false))] else [];
    RunIsGood(s, steps, scope);
    if s.looked {
      AfterOne(s, steps[0], scope);
      assert L.Can(s.lifecycle, L.End(false));
    }
  }

  lemma CanBeBrought(s: State, scope: nat, willing: set<L.Name>, now: int, fs: seq<F.Step>)
    requires Good(s) && s.lifecycle.sawZero && s.lifecycle.registry <= willing
    requires FP.OrderedFrom(fs, now) && F.ProgressAt(F.After(s.finalizer, fs), scope).outstanding == 0
    ensures OkIsPossible(s, scope, willing, now)
  {
    hide LI.Inv, L.After, F.After, After, L.Can, FP.OrderedFrom;
    var t := s.(finalizer := F.After(s.finalizer, fs));
    FinalizerRun(s, fs, scope);
    var over := StartOver(t, scope);
    var u := After(t, over, scope);
    var ls := LP.StillDrainable(u.lifecycle, willing);
    LifecycleRun(u, ls, scope);
    var v := u.(lifecycle := L.After(u.lifecycle, ls));
    assert L.DrainFree(v.lifecycle) by { OkIsFree(v.lifecycle); }
    AfterOne(v, Look, scope);
    var rest := over + FromLifecycle(ls) + [Look];
    var steps := FromFinalizer(fs) + rest;
    AfterAppend(s, FromFinalizer(fs), rest, scope);
    AfterAppend(t, over + FromLifecycle(ls), [Look], scope);
    AfterAppend(t, over, FromLifecycle(ls), scope);
    OnlyFinalizer(fs, rest);
    assert MayReturnOk(After(s, steps, scope));
    forall step | step in steps && step.OfLifecycle? ensures LP.Obeys(step.l, willing) {
      assert step.l == L.End(false) || step.l in ls;
    }
  }

  lemma OkIsFree(s: L.State)
    requires L.Can(s, L.End(true))
    ensures L.DrainFree(s)
  {
  }

  /**
   * After any run in which a drain has seen zero operations, a drain can return Ok, on a clock that does not go back,
   * if and only if one that has found the finalizer clear now finds nothing left, or the registry can shut down every
   * session it still has and no session of the finalizer's scope is doomed. The epoch counter of the scope must not be
   * about to saturate.
   */
  lemma OkExactly(before: seq<Step>, scope: nat, willing: set<L.Name>, now: int)
    requires After(START, before, scope).lifecycle.sawZero
    requires FP.Slack(After(START, before, scope).finalizer, scope, now)
    ensures var s := After(START, before, scope);
            OkIsPossible(s, scope, willing, now) <==>
              MayReturnOk(s) || (s.lifecycle.registry <= willing && FP.Doomed(s.finalizer, scope) == 0)
  {
    hide LI.Inv, L.After, F.After, After, L.Can, LP.Obeys, FP.Slack, FP.Doomed, F.ProgressAt, FP.OrderedFrom;
    var s := After(START, before, scope);
    var ls, fs := Reached(before, scope);
    LI.StartInv();
    RunIsGood(START, before, scope);
    if MayReturnOk(s) {
      assert After(s, [], scope) == s by { AfterNothing(s, scope); }
      assert FP.OrderedFrom(FinalizerSteps([]), now) by { FP.AtOnceIsOrdered([], now); }
    } else if FP.Doomed(s.finalizer, scope) != 0 {
      forall steps ensures !MayReturnOk(After(s, steps, scope)) { DoomedNeverOk(s, steps, scope, fs); }
    } else if s.lifecycle.registry <= willing {
      var more := ClearingRun(fs, scope, now);
      CanBeBrought(s, scope, willing, now, more);
    } else {
      var name :| name in s.lifecycle.registry && name !in willing;
      forall steps | Obey(steps, willing) ensures !MayReturnOk(After(s, steps, scope)) {
        var more := LifecyclePart(s, steps, scope, willing);
        LP.StubbornStays(s.lifecycle, more, willing, name);
      }
    }
  }

  lemma AfterNothing(s: State, scope: nat)
    ensures After(s, [], scope) == s
  {
  }

  lemma ClearingRun(fs: seq<F.Step>, scope: nat, now: int) returns (more: seq<F.Step>)
    requires FP.Slack(F.After(F.START, fs), scope, now) && FP.Doomed(F.After(F.START, fs), scope) == 0
    ensures FP.OrderedFrom(more, now)
    ensures F.ProgressAt(F.After(F.After(F.START, fs), more), scope).outstanding == 0
  {
    hide F.After, FP.Slack, FP.Doomed, F.ProgressAt, FP.OrderedFrom;
    FP.ClearableExactly(fs, {scope}, now);
    more :| FP.OrderedFrom(more, now) && FP.AllClear(F.After(F.After(F.START, fs), more), {scope});
    assert scope in {scope};
  }

  // ---------------------------------------------------------------- a session that is doomed after the look

  /** A drain that finds everything empty, up to its look at the finalizer. */
  const EMPTY_DRAIN := [L.Enter, L.Close, L.SeeZero, L.Collect]
  const LOOKED := FromLifecycle(EMPTY_DRAIN) + [Look]

  const ENTERED := L.START.(drain := L.Entered)
  const CLOSED := ENTERED.(drain := L.Closing, gate := L.Gate(true, None, 0, {}))
  const AT_ZERO := CLOSED.(drain := L.Preparing, sawZero := true)
  const COLLECTED := AT_ZERO.(drain := L.Launching({}, {}, false), hands := map[L.Drainer := L.Idle])

  lemma EmptyDrainBegins()
    ensures L.Next(L.START, L.Enter) == ENTERED && L.Next(ENTERED, L.Close) == CLOSED
  {
  }

  lemma EmptyDrainSeesZero()
    ensures L.Next(CLOSED, L.SeeZero) == AT_ZERO
  {
  }

  lemma EmptyDrainCollects()
    ensures L.Next(AT_ZERO, L.Collect) == COLLECTED
  {
    assert L.DoCollect(AT_ZERO).drain == COLLECTED.drain;
  }

  lemma CollectedIsDone()
    ensures L.Can(COLLECTED, L.End(true)) && L.DrainFree(COLLECTED) && COLLECTED.sawZero
  {
  }

  lemma EmptyDrain()
    ensures L.After(L.START, EMPTY_DRAIN) == COLLECTED
  {
    assert L.After(L.START, []) == L.START;
    hide L.After, L.Next;
    EmptyDrainBegins();
    EmptyDrainSeesZero();
    EmptyDrainCollects();
    var two := [] + [L.Enter] + [L.Close];
    LifecyclePush(L.START, [], L.Enter);
    LifecyclePush(L.START, [] + [L.Enter], L.Close);
    LifecyclePush(L.START, two, L.SeeZero);
    LifecyclePush(L.START, two + [L.SeeZero], L.Collect);
    assert two + [L.SeeZero] + [L.Collect] == EMPTY_DRAIN;
  }

  lemma EmptyDrainLooks(scope: nat)
    ensures var s := After(START, LOOKED, scope); MayReturnOk(s) && s.finalizer == F.START && s.lifecycle.sawZero
  {
    hide L.After, L.Next, L.Can, L.DrainFree, After;
    EmptyDrain();
    CollectedIsDone();
    LifecycleRun(START, EMPTY_DRAIN, scope);
    AfterAppend(START, FromLifecycle(EMPTY_DRAIN), [Look], scope);
    AfterOne(START.(lifecycle := COLLECTED), Look, scope);
  }

  /** For every scope and session: it is deferred after the look and the thread dies, and the drain still returns Ok. */
  lemma DoomedAfterTheLook(x: F.Session)
    ensures var s := After(START, LOOKED + FromFinalizer([F.Defer(x), F.Die]), x.scope);
            MayReturnOk(s) && FP.Doomed(s.finalizer, x.scope) > 0
  {
    var looked := After(START, LOOKED, x.scope);
    EmptyDrainLooks(x.scope);
    AfterAppend(START, LOOKED, FromFinalizer([F.Defer(x), F.Die]), x.scope);
    FinalizerRun(looked, [F.Defer(x), F.Die], x.scope);
    hide After, L.Can;
    var f1 := F.DoDefer(F.START, x);
    assert F.After(F.START, []) == F.START;
    FinalizerPush(F.START, [], F.Defer(x));
    FinalizerPush(F.START, [F.Defer(x)], F.Die);
    assert [] + [F.Defer(x)] == [F.Defer(x)] && [F.Defer(x)] + [F.Die] == [F.Defer(x), F.Die];
    assert F.Next(F.START, F.Defer(x)) == f1 && F.Next(f1, F.Die) == f1.(alive := false);
    assert f1.sending == [F.Task(x, None, [])];
  }
}
