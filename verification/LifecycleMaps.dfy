/** The lifecycle's maps as the code updates them under its lock, and their agreement with the state machine. */
module LifecycleMaps {
  import opened Text
  import opened Lifecycle
  import opened LifecycleSteps

  /** The maps under the lifecycle lock, with the tasks they point to. */
  datatype Maps = Maps(leases: map<Name, Lease>, releases: map<Name, TaskId>, tasks: map<TaskId, Task>)

  function MapsOf(s: State): Maps { Maps(s.leases, s.releases, s.tasks) }

  function Fresh(name: Name, lease: Lease): Task { Task(name, Pending(lease), [], None, false) }

  function WithOwner(m: Maps, name: Name, t: TaskId, lease: Lease): Maps {
    m.(releases := m.releases[name := t], tasks := m.tasks[t := Fresh(name, lease)])
  }

  function Retaken(m: Maps, name: Name, t: TaskId): Maps
    requires name in m.leases
  {
    WithOwner(m.(leases := m.leases - {name}), name, t, m.leases[name])
  }

  /** The completed sessions are retaken one after the other; a name that has no lease is passed over. */
  function RetakenAll(m: Maps, names: seq<Name>, ids: seq<TaskId>): Maps
    requires |names| == |ids|
  {
    if names == [] then m
    else
      var n := |names| - 1;
      var before := RetakenAll(m, names[..n], ids[..n]);
      if names[n] in before.leases then Retaken(before, names[n], ids[n]) else before
  }

  /** The names that the registry does not have. */
  function Without(names: seq<Name>, registry: set<Name>): seq<Name> {
    if names == [] then []
    else Without(names[..|names| - 1], registry) + if names[|names| - 1] in registry then [] else [names[|names| - 1]]
  }

  function SettledMaps(m: Maps, t: TaskId, joinOk: bool): Maps
    requires t in m.tasks && m.tasks[t].completion.Finished?
  {
    var k := m.tasks[t];
    var r := m.(releases := m.releases - {k.name}, tasks := m.tasks[t := Emptied(k)]);
    if k.completion.ok && joinOk then r else r.(leases := m.leases[k.name := k.completion.lease])
  }

  /** A task that ended without an outcome leaves the map as it is. */
  function JoinedMaps(m: Maps, t: TaskId): Maps
    requires t in m.tasks
  {
    m.(releases := m.releases - {m.tasks[t].name}, tasks := m.tasks[t := m.tasks[t].(handle := None)])
  }

  predicate Taken(m: Maps, n: nat) { DetachedName(n) in m.leases || DetachedName(n) in m.releases }

  /** What a registration answers: the session's name, or the task that releases the refused credentials. */
  datatype Registration = Registered(name: Name) | Detached(task: TaskId)

  class LifecycleState {
    var leases: map<Name, Lease>
    var releases: map<Name, TaskId>
    var tasks: map<TaskId, Task>
    var nextDetached: nat

    function View(): Maps
      reads this
    {
      Maps(leases, releases, tasks)
    }

    /** `prepare_credential_release_owner` */
    method PrepareOwner(name: Name, lease: Lease, t: TaskId)
      modifies this`releases, this`tasks
      ensures View() == WithOwner(old(View()), name, t, lease)
    {
      tasks := tasks[t := Fresh(name, lease)];
      releases := releases[name := t];
    }

    /** `prepare_credential_release` */
    method PrepareRelease(name: Name, t: TaskId) returns (r: Result<TaskId>)
      modifies this
      ensures nextDetached == old(nextDetached)
      ensures name !in old(leases) ==> r == Err(Internal) && View() == old(View())
      ensures name in old(leases) ==> r == Ok(t) && View() == Retaken(old(View()), name, t)
    {
      if name !in leases { return Err(Internal); }
      var lease := leases[name];
      leases := leases - {name};
      PrepareOwner(name, lease, t);
      return Ok(t);
    }

    /** `prepare_detached_credential_release`: the next free number is used; the 64-bit counter wraps around. */
    method PrepareDetached(lease: Lease, t: TaskId)
      requires nextDetached < TWO_64 && |leases| + |releases| < TWO_64
      modifies this
      ensures nextDetached < TWO_64 && !Taken(old(View()), nextDetached)
      ensures exists k ::
        FirstFree(old(View()), old(nextDetached), k, TWO_64) && nextDetached == Number(old(nextDetached), k, TWO_64)
      ensures View() == WithOwner(old(View()), DetachedName(nextDetached), t, lease)
    {
      hide Number;
      NumberOne(nextDetached, TWO_64);
      nextDetached := Number(nextDetached, 1, TWO_64);
      ghost var k := 1;
      while Taken(View(), nextDetached)
        invariant FirstFree(old(View()), old(nextDetached), k, TWO_64)
                && nextDetached == Number(old(nextDetached), k, TWO_64)
        invariant View() == old(View()) && nextDetached < TWO_64
        decreases TWO_64 - k
      {
        if k == TWO_64 { AllTaken(old(View()), old(nextDetached), TWO_64); }
        NumberNext(old(nextDetached), k, TWO_64);
        k := k + 1;
        nextDetached := Number(nextDetached, 1, TWO_64);
      }
      PrepareOwner(DetachedName(nextDetached), lease, t);
    }

    /** `register_starting_session`; the registry issues a number or refuses. */
    method RegisterStartingSession(issued: Option<nat>, lease: Lease, t: TaskId) returns (r: Registration)
      requires nextDetached < TWO_64 && |leases| + |releases| < TWO_64
      modifies this
      ensures issued.Some? && SessionName(issued.value) !in old(leases) ==>
        r == Registered(SessionName(issued.value)) && View() ==
            old(View()).(leases := old(leases)[SessionName(issued.value) := lease])
      ensures issued.None? || SessionName(issued.value) in old(leases) ==>
        r == Detached(t) && !Taken(old(View()), nextDetached)
            && View() == WithOwner(old(View()), DetachedName(nextDetached), t, lease)
    {
      if issued.None? || SessionName(issued.value) in leases {
        PrepareDetached(lease, t);
        return Detached(t);
      }
      leases := leases[SessionName(issued.value) := lease];
      return Registered(SessionName(issued.value));
    }

    /**
     * `prepare_completed_credential_releases`: the sessions that the registry no longer has, in the order of the map.
     */
    method PrepareCompleted(order: seq<Name>, registry: set<Name>, ids: seq<TaskId>)
      requires |ids| == |Without(order, registry)|
      modifies this
      ensures View() == RetakenAll(old(View()), Without(order, registry), ids)
    {
      var completed := [];
      for i := 0 to |order|
        invariant completed == Without(order[..i], registry) && View() == old(View())
      {
        assert order[..i + 1][..i] == order[..i];
        if order[i] !in registry { completed := completed + [order[i]]; }
      }
      assert order[..|order|] == order;
      for i := 0 to |completed|
        invariant View() == RetakenAll(old(View()), completed[..i], ids[..i])
      {
        assert completed[..i + 1][..i] == completed[..i] && ids[..i + 1][..i] == ids[..i];
        var _ := PrepareRelease(completed[i], ids[i]);
      }
      assert completed[..|completed|] == completed && ids[..|ids|] == ids;
    }

    /** `credential_release_work`, in the order of the map. */
    method ReleaseWork(order: seq<Name>) returns (pending: seq<TaskId>, running: seq<TaskId>)
      requires forall n :: n in order ==> n in releases && releases[n] in tasks
      ensures pending == WithHandle(View(), order, false) && running == WithHandle(View(), order, true)
    {
      pending, running := [], [];
      for i := 0 to |order|
        invariant pending == WithHandle(View(), order[..i], false) && running == WithHandle(View(), order[..i], true)
      {
        assert order[..i + 1][..i] == order[..i];
        var t := releases[order[i]];
        if tasks[t].handle.Some? { running := running + [t]; } else { pending := pending + [t]; }
      }
      assert order[..|order|] == order;
    }

    /** `complete_credential_release` once the registered task's worker has ended. */
    method Complete(t: TaskId, joinOk: bool) returns (r: Result<()>)
      requires t in tasks && tasks[t].name in releases && releases[tasks[t].name] == t
      modifies this
      ensures nextDetached == old(nextDetached)
      ensures View() == if old(tasks[t].completion.Finished?) then SettledMaps(old(View()), t, joinOk)
              else JoinedMaps(old(View()), t)
      ensures r.Ok? <==> old(tasks[t].completion.Finished? && tasks[t].completion.ok) && joinOk
    {
      var k := tasks[t];
      releases := releases - {k.name};
      tasks := tasks[t := k.(handle := None)];
      if !k.completion.Finished? { return Err(Internal); }
      assert tasks[t := Emptied(k)] == old(tasks)[t := Emptied(k)];
      tasks := tasks[t := Emptied(k)];
      if k.completion.ok && joinOk { return Ok(()); }
      leases := leases[k.name := k.completion.lease];
      return Err(Unavailable);
    }
  }

  /** The tasks of the listed names that have, or do not have, a worker handle, in order. */
  function WithHandle(m: Maps, names: seq<Name>, launched: bool): seq<TaskId>
    requires forall n :: n in names ==> n in m.releases && m.releases[n] in m.tasks
  {
    if names == [] then []
    else
      var t := m.releases[names[|names| - 1]];
      WithHandle(m, names[..|names| - 1], launched) + if m.tasks[t].handle.Some? == launched then [t] else []
  }

  lemma {:induction false} WithHandleMeaning(m: Maps, names: seq<Name>, launched: bool, t: TaskId)
    requires forall n :: n in names ==> n in m.releases && m.releases[n] in m.tasks
    ensures t in WithHandle(m, names, launched) <==>
            exists n :: n in names && m.releases[n] == t && m.tasks[t].handle.Some? == launched
  {
    if names != [] {
      var front, last := names[..|names| - 1], names[|names| - 1];
      WithHandleMeaning(m, front, launched, t);
      assert forall n :: n in names <==> n in front || n == last;
    }
  }

  // ---------------------------------------------------------------- the numbers run out only if the maps are full

  const TWO_64: nat := 0x1_0000_0000_0000_0000

  /** The counter after `k` wrapping increments, for a width of `size` numbers. */
  function Number(start: nat, k: nat, size: nat): nat
    requires start < size && k <= size
  {
    if start + k >= size then start + k - size else start + k
  }

  lemma NumberOne(start: nat, size: nat)
    requires start < size
    ensures Number(start, 1, size) < size
  {
  }

  lemma NumberNext(start: nat, k: nat, size: nat)
    requires start < size && k < size
    ensures Number(start, k, size) < size && Number(Number(start, k, size), 1, size) ==
            Number(start, k + 1, size) < size
  {
  }

  predicate TakenAt(m: Maps, start: nat, j: nat, size: nat)
    requires start < size && j <= size
  {
    Taken(m, Number(start, j, size))
  }

  /** All numbers before the `k`-th are taken. */
  ghost predicate FirstFree(m: Maps, start: nat, k: nat, size: nat) {
    start < size && 1 <= k <= size && forall j :: 1 <= j < k ==> TakenAt(m, start, j, size)
  }

  /** The detached names with a number below `n`. */
  function Below(n: nat): (names: set<Name>)
    ensures |names| == n && forall x :: x in names <==> x.DetachedName? && x.n < n
  {
    if n == 0 then {} else Below(n - 1) + {DetachedName(n - 1)}
  }

  lemma SmallerSet(a: set<Name>, b: set<Name>)
    requires a <= b
    ensures |a| <= |b|
  {
    assert b == a + (b - a);
  }

  lemma EachTaken(m: Maps, start: nat, size: nat, n: nat)
    requires FirstFree(m, start, size, size) && TakenAt(m, start, size, size) && n < size
    ensures Taken(m, n)
  {
    hide Taken;
    var j := if n > start then n - start else n + size - start;
    assert TakenAt(m, start, j, size) && Number(start, j, size) == n;
  }

  /** If every number is taken, the maps have as many names as there are numbers. */
  lemma AllTaken(m: Maps, start: nat, size: nat)
    requires FirstFree(m, start, size, size) && TakenAt(m, start, size, size)
    ensures |m.leases| + |m.releases| >= size
  {
    hide FirstFree, TakenAt, Below;
    var names := m.leases.Keys + m.releases.Keys;
    forall x | x in Below(size) ensures x in names {
      EachTaken(m, start, size, x.n);
      assert x == DetachedName(x.n);
    }
    SmallerSet(Below(size), names);
    assert |names| <= |m.leases.Keys| + |m.releases.Keys|;
    assert |m.leases.Keys| == |m.leases| && |m.releases.Keys| == |m.releases|;
  }

  // ---------------------------------------------------------------- agreement with the steps

  lemma DetachOnMaps(s: State, c: nat, n: nat, t: TaskId)
    requires CanDetach(s, c, n, t)
    ensures !Taken(MapsOf(s), n)
    ensures MapsOf(DoDetach(s, c, n, t)) == WithOwner(MapsOf(s), DetachedName(n), t, s.hands[Caller(c)].lease)
  {
  }

  lemma RetakeOnMaps(s: State, name: Name, t: TaskId)
    requires name in s.leases
    ensures MapsOf(Retake(s, name, t)) == Retaken(MapsOf(s), name, t)
  {
  }

  lemma ShutdownOnMaps(s: State, c: nat, name: Name, t: TaskId)
    requires CanShutdown(s, c, name, t)
    ensures MapsOf(DoShutdown(s, c, name, t)) == Retaken(MapsOf(s), name, t)
  {
    hide Retake, Retaken;
    RetakeOnMaps(s, name, t);
  }

  lemma RegisterOnMaps(s: State, c: nat, n: nat)
    requires CanRegister(s, c, n) && SessionName(n) !in s.leases
    ensures MapsOf(DoRegister(s, c, n)) == MapsOf(s).(leases := s.leases[SessionName(n) := s.hands[Caller(c)].lease])
  {
  }

  lemma SettleOnMaps(s: State, t: TaskId, joinOk: bool)
    requires IsRegistered(s, t) && s.tasks[t].completion.Finished? && s.tasks[t].name !in s.leases
    ensures MapsOf(Settle(s, t, joinOk)) == SettledMaps(MapsOf(s), t, joinOk)
  {
    hide Settle, Emptied;
    SettleEffect(s, t, joinOk);
  }

  // ---------------------------------------------------------------- the completed sessions

  /** Each name once, and exactly those of the lease map. */
  ghost predicate ListsLeases(order: seq<Name>, leases: map<Name, Lease>) {
    && (forall n :: n in order <==> n in leases)
    && forall i, j :: 0 <= i < j < |order| ==> order[i] != order[j]
  }

  /** New ids, each once. */
  ghost predicate NewIds(ids: seq<TaskId>, tasks: map<TaskId, Task>) {
    && (forall t :: t in ids ==> t !in tasks)
    && forall i, j :: 0 <= i < j < |ids| ==> ids[i] != ids[j]
  }

  lemma {:induction false} WithoutMeaning(names: seq<Name>, registry: set<Name>)
    requires forall i, j :: 0 <= i < j < |names| ==> names[i] != names[j]
    ensures var r := Without(names, registry);
            && (forall n :: n in r <==> n in names && n !in registry)
            && forall i, j :: 0 <= i < j < |r| ==> r[i] != r[j]
  {
    if names != [] {
      var front, last := names[..|names| - 1], names[|names| - 1];
      WithoutMeaning(front, registry);
      assert forall n :: n in names <==> n in front || n == last;
      assert last !in front;
    }
  }

  /** Names of leases, each once, with a new id for each. */
  ghost predicate Fitting(m: Maps, names: seq<Name>, ids: seq<TaskId>) {
    && (forall n :: n in names ==> n in m.leases) && NewIds(ids, m.tasks)
    && forall i, j :: 0 <= i < j < |names| ==> names[i] != names[j]
  }

  lemma FittingFront(m: Maps, names: seq<Name>, ids: seq<TaskId>)
    requires |names| == |ids| && Fitting(m, names, ids) && names != []
    ensures var n := |names| - 1;
            Fitting(m, names[..n], ids[..n]) && names[n] !in names[..n] && ids[n] !in ids[..n] && names[n] in m.leases
  {
  }

  lemma {:induction false} LeasesAfter(m: Maps, names: seq<Name>, ids: seq<TaskId>)
    requires |names| == |ids| && Fitting(m, names, ids)
    ensures RetakenAll(m, names, ids).leases == m.leases - (set n | n in names)
  {
    hide Fitting;
    if names == [] {
      assert m.leases - (set n | n in names) == m.leases;
    } else {
      var n := |names| - 1;
      FittingFront(m, names, ids);
      LeasesAfter(m, names[..n], ids[..n]);
      assert (set x | x in names) == (set x | x in names[..n]) + {names[n]};
    }
  }

  /** The last of them is still there when its turn comes. */
  lemma RetakenLast(m: Maps, names: seq<Name>, ids: seq<TaskId>)
    requires |names| == |ids| && Fitting(m, names, ids) && names != []
    ensures var n := |names| - 1;
            var before := RetakenAll(m, names[..n], ids[..n]);
            && names[n] in before.leases && before.leases[names[n]] == m.leases[names[n]]
            && RetakenAll(m, names, ids) == Retaken(before, names[n], ids[n])
  {
    hide Fitting;
    FittingFront(m, names, ids);
    LeasesAfter(m, names[..|names| - 1], ids[..|names| - 1]);
  }

  /** Each lease is in a pending task of its own, under its own name. */
  lemma {:induction false} MovedAt(m: Maps, names: seq<Name>, ids: seq<TaskId>, i: nat)
    requires |names| == |ids| && Fitting(m, names, ids) && i < |names|
    ensures var r := RetakenAll(m, names, ids);
            && names[i] in r.releases && r.releases[names[i]] == ids[i] && names[i] in m.leases
            && ids[i] in r.tasks && r.tasks[ids[i]] == Fresh(names[i], m.leases[names[i]])
  {
    hide Fitting, RetakenAll, Fresh;
    var n := |names| - 1;
    FittingFront(m, names, ids);
    RetakenLast(m, names, ids);
    if i < n {
      MovedAt(m, names[..n], ids[..n], i);
      assert names[i] in names[..n] && ids[i] in ids[..n];
    }
  }

  /** Every other entry is as before. */
  lemma {:induction false} NotMoved(m: Maps, names: seq<Name>, ids: seq<TaskId>, x: Name, t: TaskId)
    requires |names| == |ids| && Fitting(m, names, ids)
    ensures var r := RetakenAll(m, names, ids);
            && (x !in names ==>
                (x in r.releases <==> x in m.releases) && (x in m.releases ==> r.releases[x] == m.releases[x]))
            && (t !in ids ==> (t in r.tasks <==> t in m.tasks) && (t in m.tasks ==> r.tasks[t] == m.tasks[t]))
  {
    if names != [] {
      hide Fitting, RetakenAll, Fresh;
      var n := |names| - 1;
      FittingFront(m, names, ids);
      RetakenLast(m, names, ids);
      NotMoved(m, names[..n], ids[..n], x, t);
      assert names[n] in names && ids[n] in ids;
    }
  }

  /**
   * After `prepare_completed_credential_releases` the lease map is the old one restricted to the sessions that the
   * registry still has; every other lease is in a pending task under its own name; everything else is as before.
   */
  lemma PreparedExactly(m: Maps, order: seq<Name>, registry: set<Name>, ids: seq<TaskId>)
    requires ListsLeases(order, m.leases) && NewIds(ids, m.tasks) && |ids| == |Without(order, registry)|
    ensures var r := RetakenAll(m, Without(order, registry), ids);
            && r.leases == (map n | n in m.leases && n in registry :: m.leases[n])
            && (forall n :: n in m.leases && n !in registry ==>
                  && n in r.releases && r.releases[n] in ids && r.releases[n] in r.tasks
                  && r.tasks[r.releases[n]] == Fresh(n, m.leases[n]))
            && (forall n :: n !in m.leases || n in registry ==>
                  (n in r.releases <==> n in m.releases) && (n in m.releases ==> r.releases[n] == m.releases[n]))
            && (forall t :: t !in ids ==>
                  (t in r.tasks <==> t in m.tasks) && (t in m.tasks ==> r.tasks[t] == m.tasks[t]))
  {
    hide Without, RetakenAll, Fresh;
    WithoutMeaning(order, registry);
    var names := Without(order, registry);
    var r := RetakenAll(m, names, ids);
    LeasesAfter(m, names, ids);
    assert r.leases == (map n | n in m.leases && n in registry :: m.leases[n]);
    forall n | n in m.leases && n !in registry
      ensures n in r.releases && r.releases[n] in ids && r.releases[n] in r.tasks
      ensures r.tasks[r.releases[n]] == Fresh(n, m.leases[n])
    {
      var i :| 0 <= i < |names| && names[i] == n;
      MovedAt(m, names, ids, i);
    }
    forall n
      ensures n !in names ==>
        (n in r.releases <==> n in m.releases) && (n in m.releases ==> r.releases[n] == m.releases[n])
    {
      NotMoved(m, names, ids, n, 0);
    }
    forall t ensures t !in ids ==> (t in r.tasks <==> t in m.tasks) && (t in m.tasks ==> r.tasks[t] == m.tasks[t]) {
      NotMoved(m, names, ids, DetachedName(0), t);
    }
  }

  function PrepareSteps(names: seq<Name>, ids: seq<TaskId>): seq<Step>
    requires |names| == |ids|
  {
    seq(|names|, i requires 0 <= i < |names| => Prepare(names[i], ids[i]))
  }

  /** The state after the machine has prepared `names`: only the maps have changed. */
  ghost predicate PreparedState(s: State, r: State, names: seq<Name>, ids: seq<TaskId>)
    requires |names| == |ids|
  {
    && MapsOf(r) == RetakenAll(MapsOf(s), names, ids)
    && r.registry == s.registry && r.drain == s.drain && r.hands == s.hands && r.gate == s.gate && r.vault == s.vault
  }

  lemma FittingState(s: State, names: seq<Name>, ids: seq<TaskId>, r: State)
    requires s.drain.Preparing? && |names| == |ids| && Fitting(MapsOf(s), names, ids) && names != []
    requires forall n :: n in names ==> n !in s.registry
    requires var n := |names| - 1; PreparedState(s, r, names[..n], ids[..n])
    ensures var n := |names| - 1; CanPrepare(r, names[n], ids[n])
  {
    hide RetakenAll, Fresh;
    var n := |names| - 1;
    FittingFront(MapsOf(s), names, ids);
    RetakenLast(MapsOf(s), names, ids);
    NotMoved(MapsOf(s), names[..n], ids[..n], names[n], ids[n]);
  }

  /**
   * It is a run of the machine's `Prepare` steps, each of which is possible when it comes, so that only sessions that
   * the registry no longer has are prepared.
   */
  lemma {:induction false} PrepareIsARun(s: State, names: seq<Name>, ids: seq<TaskId>)
    requires s.drain.Preparing? && |names| == |ids| && Fitting(MapsOf(s), names, ids)
    requires forall n :: n in names ==> n !in s.registry
    ensures PreparedState(s, After(s, PrepareSteps(names, ids)), names, ids)
    ensures forall i :: 0 <= i < |names| ==> CanPrepare(After(s, PrepareSteps(names, ids)[..i]), names[i], ids[i])
  {
    hide Next, CanPrepare, Fitting, PreparedState, Retake, RetakenAll, MapsOf;
    if names == [] {
      assert PrepareSteps(names, ids) == [] && After(s, []) == s;
      NothingPrepared(s, names, ids);
    } else {
      var n := |names| - 1;
      var steps := PrepareSteps(names, ids);
      assert steps[..n] == PrepareSteps(names[..n], ids[..n]);
      FittingFront(MapsOf(s), names, ids);
      PrepareIsARun(s, names[..n], ids[..n]);
      var r := After(s, steps[..n]);
      FittingState(s, names, ids, r);
      forall i | 0 <= i < |names| ensures CanPrepare(After(s, steps[..i]), names[i], ids[i]) {
        if i < n { assert steps[..i] == steps[..n][..i]; }
      }
      PreparedOneMore(s, names, ids, r);
      PrepareNext(r, names[n], ids[n]);
    }
  }

  lemma NothingPrepared(s: State, names: seq<Name>, ids: seq<TaskId>)
    requires names == [] && ids == []
    ensures PreparedState(s, s, names, ids)
  {
  }

  lemma PreparedOneMore(s: State, names: seq<Name>, ids: seq<TaskId>, r: State)
    requires |names| == |ids| && Fitting(MapsOf(s), names, ids) && names != []
    requires var n := |names| - 1; PreparedState(s, r, names[..n], ids[..n]) && CanPrepare(r, names[n], ids[n])
    ensures var n := |names| - 1; PreparedState(s, Retake(r, names[n], ids[n]), names, ids)
  {
    hide RetakenAll, Retake, Retaken, Fitting;
    var n := |names| - 1;
    RetakeOnMaps(r, names[n], ids[n]);
    RetakeFrame(r, names[n], ids[n]);
    RetakenLast(MapsOf(s), names, ids);
  }

  lemma PrepareNext(s: State, name: Name, t: TaskId)
    requires CanPrepare(s, name, t)
    ensures Next(s, Prepare(name, t)) == Retake(s, name, t)
  {
    hide Retake;
  }

  lemma RetakeFrame(s: State, name: Name, t: TaskId)
    requires name in s.leases
    ensures var r := Retake(s, name, t);
            && r.registry == s.registry && r.drain == s.drain && r.hands == s.hands
            && r.gate == s.gate && r.vault == s.vault
  {
  }

  /** The whole method, on the lease names in any order, as such a run. */
  lemma PrepareCompletedIsARun(s: State, order: seq<Name>, ids: seq<TaskId>) returns (steps: seq<Step>)
    requires s.drain.Preparing? && ListsLeases(order, s.leases)
    requires NewIds(ids, s.tasks) && |ids| == |Without(order, s.registry)|
    ensures PreparedState(s, After(s, steps), Without(order, s.registry), ids)
    ensures forall i :: 0 <= i < |steps| ==> steps[i].Prepare? && Can(After(s, steps[..i]), steps[i])
  {
    hide After, Without, PreparedState;
    var names := Without(order, s.registry);
    WithoutMeaning(order, s.registry);
    PrepareIsARun(s, names, ids);
    steps := PrepareSteps(names, ids);
  }

  /** The two lists of release work are the sets that the machine's drain collects. */
  lemma CollectOnMaps(s: State, order: seq<Name>)
    requires CanCollect(s) && (forall n :: n in order <==> n in s.releases)
    requires forall n :: n in s.releases ==> s.releases[n] in s.tasks && s.tasks[s.releases[n]].name == n
    ensures var d := DoCollect(s).drain;
            && d.pending == (set t | t in WithHandle(MapsOf(s), order, false))
            && d.waiters == (set t | t in WithHandle(MapsOf(s), order, true))
            && d.failed == (s.registry != {})
  {
    hide WithHandle;
    var m, d := MapsOf(s), DoCollect(s).drain;
    forall t
      ensures t in d.pending <==> t in WithHandle(m, order, false)
      ensures t in d.waiters <==> t in WithHandle(m, order, true)
    {
      WithHandleMeaning(m, order, false, t);
      WithHandleMeaning(m, order, true, t);
    }
  }
}
