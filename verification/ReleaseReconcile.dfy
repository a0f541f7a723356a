/** Reconciliation of release intents, over any world a crash can leave and any interference on the way. */
module ReleaseReconcile {
  import opened Text
  import opened ReleaseIntent

  /** Where an I/O error stops one reconciliation. */
  datatype Failure = NoFailure | SnapshotFails | ReleaseFails | ReadFails | UpdateFails | MarkFails

  /**
   * What happens around the handling of one intent: the clock, the reservations that others made meanwhile, an I/O
   * error, and what other writers commit between the reads of the record and the two commits.
   */
  datatype Gap = Gap(now: nat, arrivals: seq<Reservation>, failure: Failure, beforeNote: Option<Write>,
      beforeMark: Option<Write>)

  datatype Outcome = Outcome(world: World, ok: bool)

  type Gaps = (string, string) -> Gap

  // ---------------------------------------------------------------- one intent

  /** The admission table after the snapshot and, if the reservation is there, its release. */
  function TableAfter(rs: seq<Reservation>, id: string, session: string, gap: Gap): (seq<Reservation>, bool) {
    var all := rs + gap.arrivals;
    var live := Live(all, gap.now);
    if gap.failure.SnapshotFails? then (all, false)
    else if !Present(live, id, session) then (live, true)
    else if gap.failure.ReleaseFails? then (live, false)
    else (WithoutOwned(live, id, session), true)
  }

  function With(r: Record, e: Audit): Record { r.(audit := r.audit + [e]) }

  /** A successor is noted once; here a commit that meets another writer is an error. */
  function NoteAfter(r: Record, id: string, successor: bool, gap: Gap): (Record, bool) {
    var current := Written(r, gap.beforeNote);
    if !successor || SuccessorPreserved(id) in r.audit then (current, true)
    else if gap.failure.UpdateFails? then (current, false)
    else
      var c := CompareAndSet(current, With(r, SuccessorPreserved(id)));
      if c.Ok? then (c.value, true) else (current, false)
  }

  /** The record is read again and the intent marked once; here a commit that meets another writer is passed over. */
  function MarkAfter(r: Record, id: string, gap: Gap): (Record, bool) {
    if ReleaseResolved(id) !in r.audit && gap.failure.MarkFails? then (Written(r, gap.beforeMark), false)
    else (Marked(r, id, gap.beforeMark), true)
  }

  function RecordAfter(r: Record, id: string, successor: bool, gap: Gap): (Record, bool) {
    var (noted, ok) := NoteAfter(r, id, successor, gap);
    if ok then MarkAfter(noted, id, gap) else (noted, false)
  }

  function ReconcileOne(w: World, session: string, adapter: string, id: string, gap: Gap): Outcome {
    var (rs, done) := TableAfter(TableAt(w, adapter), id, session, gap);
    var w1 := w.(table := w.table[adapter := rs]);
    if !done || session !in w.processes || gap.failure.ReadFails? then Outcome(w1, false)
    else
      var successor := HasSuccessor(Live(TableAt(w, adapter) + gap.arrivals, gap.now), id, session);
      var (r, marked) := RecordAfter(w.processes[session], id, successor, gap);
      Outcome(w1.(processes := w.processes[session := r]), marked)
  }

  function ReconcileIds(w: World, session: string, adapter: string, ids: seq<string>, gaps: Gaps): Outcome
    decreases |ids|
  {
    if ids == [] then Outcome(w, true)
    else
      var o := ReconcileOne(w, session, adapter, ids[0], gaps(session, ids[0]));
      if o.ok then ReconcileIds(o.world, session, adapter, ids[1..], gaps) else o
  }

  /** The listed sessions, each with the intents that its record had in `start`. */
  function ReconcileAll(w: World, start: map<string, Record>, sessions: seq<string>, gaps: Gaps): Outcome
    requires forall s :: s in sessions ==> s in start
    decreases |sessions|
  {
    if sessions == [] then Outcome(w, true)
    else
      var s := sessions[0];
      var o := ReconcileIds(w, s, start[s].adapter, PendingIds(start[s].audit), gaps);
      if o.ok then ReconcileAll(o.world, start, sessions[1..], gaps) else o
  }

  // ---------------------------------------------------------------- the code

  class Supervisor {
    var processes: map<string, Record>
    var table: map<string, seq<Reservation>>

    function View(): World
      reads this
    {
      World(processes, table)
    }

    /** `upsert_process`, after other writers may have committed. */
    method Upsert(session: string, candidate: Record, other: Option<Write>) returns (ok: bool)
      requires session in processes
      modifies this`processes
      ensures var c := CompareAndSet(Written(old(processes)[session], other), candidate);
              var left := if c.Ok? then c.value else Written(old(processes)[session], other);
              ok == c.Ok? && processes == old(processes)[session := left]
    {
      var current := Written(processes[session], other);
      ok := current.version == candidate.version;
      processes := processes[session := if ok then candidate.(version := candidate.version + 1) else current];
    }

    /** `mark_admission_release_resolved` */
    method MarkResolved(session: string, id: string, other: Option<Write>)
      requires session in processes
      modifies this`processes
      ensures processes == old(processes)[session := Marked(old(processes)[session], id, other)]
    {
      var current := processes[session];
      if ReleaseResolved(id) in current.audit {
        processes := processes[session := Written(current, other)];
      } else {
        var _ := Upsert(session, With(current, ReleaseResolved(id)), other);
      }
    }

    /**
     * `retire_snapshot_after_drain`, when the record is active. `other` and `otherMark` are other writers' commits
     * before its two commits, and by `later` somebody else may have dropped the reservation, which then is reconciled.
     */
    method Retire(
      session: string, now: nat, later: nat, other: Option<Write>, otherMark: Option<Write>, sessions: seq<string>,
      gaps: Gaps)
      returns (r: Result<bool>)
      requires forall s :: s in sessions ==> s in processes
      modifies this
      ensures session !in old(processes) || !old(processes)[session].active ==> r == Ok(false) && View() == old(View())
      ensures session in old(processes) && old(processes)[session].active ==>
        (View(), r) == AfterRetire(old(View()), session, now, later, other, otherMark, sessions, gaps)
    {
      hide Live, SameSession, WithoutOwned, Retired, ReservationId, ReconcileAll, Marked, PendingIds;
      if session !in processes { return Ok(false); }
      var current := processes[session];
      if !current.active { return Ok(false); }
      var adapter := current.adapter;
      var live := Live(if adapter in table then table[adapter] else [], now);
      table := table[adapter := live];
      var release := AdmissionRelease(current, live, session);
      if release.Err? { return Err(Conflict); }
      RetiredVersion(current, release.value);
      var ok := Upsert(session, Retired(current, release.value), other);
      if !ok { return Ok(false); }
      if release.value.None? { return Ok(true); }
      var id := release.value.value;
      var left := Live(live, later);
      if Present(left, id, session) {
        assert table[adapter := WithoutOwned(left, id, session)] ==
            old(table)[adapter := WithoutOwned(left, id, session)];
        table := table[adapter := WithoutOwned(left, id, session)];
        ghost var gone := processes[session];
        MarkResolved(session, id, otherMark);
        assert processes == old(processes)[session := Marked(gone, id, otherMark)];
        return Ok(true);
      }
      assert table[adapter := left] == old(table)[adapter := left];
      table := table[adapter := left];
      var reconciled := Reconcile(sessions, gaps);
      if !reconciled { return Err(Unavailable); }
      if session !in processes { return Err(NotFound); }
      var pending := PendingReleaseIds(processes[session].audit);
      return if pending != [] && pending[|pending| - 1] == id then Err(Conflict) else Ok(true);
    }

    /** `reconcile_pending_admission_releases`, over the list that the process table returns. */
    method Reconcile(sessions: seq<string>, gaps: Gaps) returns (ok: bool)
      requires forall s :: s in sessions ==> s in processes
      modifies this
      ensures Outcome(View(), ok) == ReconcileAll(old(View()), old(processes), sessions, gaps)
    {
      var snapshots := processes;
      for i := 0 to |sessions|
        invariant ReconcileAll(View(), snapshots, sessions[i..], gaps) ==
                ReconcileAll(old(View()), snapshots, sessions, gaps)
      {
        var s := sessions[i];
        var ids := PendingReleaseIds(snapshots[s].audit);
        assert sessions[i..][1..] == sessions[i + 1..];
        ghost var before := View();
        for k := 0 to |ids|
          invariant ReconcileIds(View(), s, snapshots[s].adapter, ids[k..], gaps)
                 == ReconcileIds(before, s, snapshots[s].adapter, ids, gaps)
        {
          assert ids[k..][1..] == ids[k + 1..];
          var done := ReconcileIntent(s, snapshots[s].adapter, ids[k], gaps(s, ids[k]));
          if !done { return false; }
        }
      }
      return true;
    }

    method ReconcileIntent(session: string, adapter: string, id: string, gap: Gap) returns (ok: bool)
      modifies this
      ensures Outcome(View(), ok) == ReconcileOne(old(View()), session, adapter, id, gap)
    {
      hide TableAfter, RecordAfter;
      var done, successor := ReleaseReservation(session, adapter, id, gap);
      if !done || gap.failure.ReadFails? || session !in processes { return false; }
      ok := NoteAndMark(session, id, successor, gap);
    }

    method ReleaseReservation(
      session: string, adapter: string, id: string, gap: Gap) returns (done: bool, successor: bool)
      modifies this`table
      ensures var rs := TableAt(old(View()), adapter);
              && done == TableAfter(rs, id, session, gap).1
              && table == old(table)[adapter := TableAfter(rs, id, session, gap).0]
              && (done ==> successor == HasSuccessor(Live(rs + gap.arrivals, gap.now), id, session))
    {
      var known := if adapter in table then table[adapter] else [];
      successor := false;
      table := table[adapter := known + gap.arrivals];
      if gap.failure.SnapshotFails? { return false, successor; }
      var live := Live(known + gap.arrivals, gap.now);
      table := table[adapter := live];
      successor := HasSuccessor(live, id, session);
      if Present(live, id, session) {
        if gap.failure.ReleaseFails? { return false, successor; }
        table := table[adapter := WithoutOwned(live, id, session)];
      }
      return true, successor;
    }

    method NoteAndMark(session: string, id: string, successor: bool, gap: Gap) returns (ok: bool)
      requires session in processes
      modifies this`processes
      ensures processes == old(processes)[session := RecordAfter(old(processes)[session], id, successor, gap).0]
      ensures ok == RecordAfter(old(processes)[session], id, successor, gap).1
    {
      hide Marked;
      var current := processes[session];
      if successor && SuccessorPreserved(id) !in current.audit && !gap.failure.UpdateFails? {
        ok := Upsert(session, With(current, SuccessorPreserved(id)), gap.beforeNote);
        if !ok { return false; }
      } else {
        processes := processes[session := Written(current, gap.beforeNote)];
        if successor && SuccessorPreserved(id) !in current.audit { return false; }
      }
      ghost var noted := processes[session];
      if ReleaseResolved(id) !in processes[session].audit && gap.failure.MarkFails? {
        processes := processes[session := Written(processes[session], gap.beforeMark)];
        assert processes == old(processes)[session := Written(noted, gap.beforeMark)];
        return false;
      }
      MarkResolved(session, id, gap.beforeMark);
      assert processes == old(processes)[session := Marked(noted, id, gap.beforeMark)];
      return true;
    }
  }

  lemma RetiredVersion(r: Record, release: Option<string>)
    ensures Retired(r, release).version == r.version && Retired(r, release).adapter == r.adapter
  {
  }

  /** The world and the answer of a retirement of an active record. */
  function AfterRetire(
    w: World, session: string, now: nat, later: nat, other: Option<Write>, otherMark: Option<Write>,
        sessions: seq<string>, gaps: Gaps)
    : (World, Result<bool>)
    requires session in w.processes && forall s :: s in sessions ==> s in w.processes
  {
    var r := w.processes[session];
    var live := Live(TableAt(w, r.adapter), now);
    var seen := w.(table := w.table[r.adapter := live]);
    var release := AdmissionRelease(r, live, session);
    if release.Err? then (seen, Err(Conflict))
    else
      var c := CompareAndSet(Written(r, other), Retired(r, release.value));
      if c.Err? then (seen.(processes := w.processes[session := Written(r, other)]), Ok(false))
      else
        var one := seen.(processes := w.processes[session := c.value]);
        if release.value.None? then (one, Ok(true))
        else
          var id, left := release.value.value, Live(live, later);
          if Present(left, id, session) then
            (World(w.processes[session := Marked(c.value, id, otherMark)],
                w.table[r.adapter := WithoutOwned(left, id, session)]), Ok(true))
          else
            var o := ReconcileAll(one.(table := w.table[r.adapter := left]), one.processes, sessions, gaps);
            (o.world, if !o.ok then Err(Unavailable)
                      else if session !in o.world.processes then Err(NotFound)
                      else LastPending(o.world.processes[session].audit, id))
  }

  /** The check behind a reconciliation: the intent must not be the last one that is pending. */
  function LastPending(a: seq<Audit>, id: string): Result<bool> {
    var pending := PendingIds(a);
    if pending != [] && pending[|pending| - 1] == id then Err(Conflict) else Ok(true)
  }

  /** Where the intent was first written, or the end of the trail. */
  function FirstIntent(a: seq<Audit>, id: string): (i: nat)
    ensures i <= |a| && (i < |a| <==> ReleasePending(id) in a)
  {
    if a == [] then 0
    else
      var i := FirstIntent(a[..|a| - 1], id);
      assert forall e :: e in a <==> e in a[..|a| - 1] || e == a[|a| - 1];
      if i < |a| - 1 || a[|a| - 1] == ReleasePending(id) then i else |a|
  }

  lemma FirstIntentInFront(a: seq<Audit>, id: string)
    requires a != [] && ReleasePending(id) in a[..|a| - 1]
    ensures FirstIntent(a, id) == FirstIntent(a[..|a| - 1], id) < |a| - 1
  {
  }

  lemma FirstIntentIsLast(a: seq<Audit>, id: string)
    requires a != [] && ReleasePending(id) !in a[..|a| - 1] && a[|a| - 1] == ReleasePending(id)
    ensures FirstIntent(a, id) == |a| - 1
  {
  }

  /** The pending ids come in the order in which their intents were written. */
  lemma {:induction false} PendingInOrder(a: seq<Audit>, whole: seq<Audit>, i: nat, j: nat)
    requires i < j < |PendingIn(a, whole)|
    ensures FirstIntent(a, PendingIn(a, whole)[i]) < FirstIntent(a, PendingIn(a, whole)[j])
    decreases |a|
  {
    hide FirstIntent;
    var n := |a| - 1;
    var ids, before := PendingIn(a, whole), PendingIn(a[..n], whole);
    PendingInMeaning(a[..n], whole);
    assert before[i] in before && ids[i] == before[i];
    FirstIntentInFront(a, before[i]);
    if j < |before| {
      assert before[j] in before && ids[j] == before[j];
      PendingInOrder(a[..n], whole, i, j);
      FirstIntentInFront(a, before[j]);
    } else {
      FirstIntentIsLast(a, a[n].id);
    }
  }

  /** The intent is pending, and it is the one that was written last among the pending ones. */
  ghost predicate IsLastPending(a: seq<Audit>, id: string) {
    IsPending(a, id) && forall y :: y != id && IsPending(a, y) ==> FirstIntent(a, y) < FirstIntent(a, id)
  }

  lemma LastPendingExactly(a: seq<Audit>, id: string)
    ensures LastPending(a, id) == if IsLastPending(a, id) then Err(Conflict) else Ok(true)
  {
    hide PendingIn, IsPending, FirstIntent;
    var ids := PendingIds(a);
    PendingIdsMeaning(a);
    if ids != [] && ids[|ids| - 1] == id {
      assert id in ids;
      forall y | y != id && IsPending(a, y) ensures FirstIntent(a, y) < FirstIntent(a, id) {
        assert y in ids;
        var i :| 0 <= i < |ids| && ids[i] == y;
        PendingInOrder(a, a, i, |ids| - 1);
      }
    } else if IsLastPending(a, id) {
      assert id in ids;
      var i :| 0 <= i < |ids| && ids[i] == id;
      var y := ids[|ids| - 1];
      assert y in ids && IsPending(a, y);
      PendingInOrder(a, a, i, |ids| - 1);
    }
  }

  // ---------------------------------------------------------------- what one intent does to the records

  /** The other writers of the gap append `e`. */
  predicate Adds(gap: Gap, e: Audit) {
    || (gap.beforeNote.Some? && e in gap.beforeNote.value.extra)
    || (gap.beforeMark.Some? && e in gap.beforeMark.value.extra)
  }

  lemma NoteEffect(r: Record, id: string, successor: bool, gap: Gap, e: Audit)
    requires e.ReleasePending? || e.ReleaseResolved?
    ensures var (r', ok) := NoteAfter(r, id, successor, gap);
            && r'.adapter == r.adapter && r.audit <= r'.audit
            && (e in r'.audit ==> e in r.audit || Adds(gap, e))
            && (ok ==> (e in r'.audit <==> e in r.audit || (gap.beforeNote.Some? && e in gap.beforeNote.value.extra)))
  {
  }

  lemma MarkEffect(r: Record, id: string, gap: Gap, e: Audit)
    requires e.ReleasePending? || e.ReleaseResolved?
    ensures var (r', ok) := MarkAfter(r, id, gap);
            && r'.adapter == r.adapter && r.audit <= r'.audit
            && (e in r'.audit <==>
                  || e in r.audit || (gap.beforeMark.Some? && e in gap.beforeMark.value.extra)
                  || (e == ReleaseResolved(id) && ok && gap.beforeMark.None?))
  {
  }

  /** The trail only grows; the intent itself is marked exactly if no other writer comes before the mark. */
  lemma RecordEffect(r: Record, id: string, successor: bool, gap: Gap, e: Audit)
    requires e.ReleasePending? || e.ReleaseResolved?
    ensures var (r', ok) := RecordAfter(r, id, successor, gap);
            && r'.adapter == r.adapter && r.audit <= r'.audit
            && (e in r'.audit ==>
                e in r.audit || Adds(gap, e) || (e == ReleaseResolved(id) && ok && gap.beforeMark.None?))
            && (ok && (e in r.audit || Adds(gap, e) || (e == ReleaseResolved(id) && gap.beforeMark.None?)) ==>
                e in r'.audit)
  {
    hide NoteAfter, MarkAfter;
    NoteEffect(r, id, successor, gap, e);
    MarkEffect(NoteAfter(r, id, successor, gap).0, id, gap, e);
  }

  /** A live reservation of the session: the intent's own one, or another. */
  predicate LiveOf(rs: seq<Reservation>, now: nat, session: string, r: Reservation) {
    r in rs && r.expires > now && r.session == session
  }

  ghost predicate OwnIsLive(rs: seq<Reservation>, now: nat, session: string, id: string) {
    exists r :: LiveOf(rs, now, session, r) && r.id == id
  }

  ghost predicate OtherIsLive(rs: seq<Reservation>, now: nat, session: string, id: string) {
    exists r :: LiveOf(rs, now, session, r) && r.id != id
  }

  lemma LiveOnes(rs: seq<Reservation>, now: nat, session: string, id: string)
    ensures Present(Live(rs, now), id, session) <==> OwnIsLive(rs, now, session, id)
    ensures HasSuccessor(Live(rs, now), id, session) <==> OtherIsLive(rs, now, session, id)
  {
    hide Live;
    LiveMeaning(rs, now);
    if Present(Live(rs, now), id, session) {
      var r :| r in Live(rs, now) && Owns(r, id, session);
      assert LiveOf(rs, now, session, r);
    }
    if HasSuccessor(Live(rs, now), id, session) {
      var r :| r in Live(rs, now) && r.session == session && r.id != id;
      assert LiveOf(rs, now, session, r);
    }
    if OwnIsLive(rs, now, session, id) {
      var r :| LiveOf(rs, now, session, r) && r.id == id;
      assert r in Live(rs, now) && Owns(r, id, session);
    }
    if OtherIsLive(rs, now, session, id) {
      var r :| LiveOf(rs, now, session, r) && r.id != id;
      assert r in Live(rs, now);
    }
  }

  /** What must not go wrong with the record: a successor's note needs its commit, an open intent its mark. */
  predicate RecordGoesOn(r: Record, id: string, successor: bool, gap: Gap) {
    && (successor && SuccessorPreserved(id) !in r.audit ==> !gap.failure.UpdateFails? && gap.beforeNote.None?)
    && (gap.failure.MarkFails? ==>
        ReleaseResolved(id) in r.audit || (gap.beforeNote.Some? && ReleaseResolved(id) in gap.beforeNote.value.extra))
  }

  lemma RecordExactly(r: Record, id: string, successor: bool, gap: Gap)
    ensures var (r', ok) := RecordAfter(r, id, successor, gap);
      && (ok <==> RecordGoesOn(r, id, successor, gap))
      && (ok ==> (SuccessorPreserved(id) in r'.audit <==>
                  successor || SuccessorPreserved(id) in r.audit || Adds(gap, SuccessorPreserved(id))))
  {
  }

  /**
   * One intent is handled exactly when the table answers, its live reservation can be released, the record can be read,
   * and its commits go through; then a live reservation of the same session under another id has been noted.
   */
  lemma OneSucceedsExactly(w: World, session: string, adapter: string, id: string, gap: Gap)
    ensures var o, rs := ReconcileOne(w, session, adapter, id, gap), TableAt(w, adapter) + gap.arrivals;
      var successor := OtherIsLive(rs, gap.now, session, id);
      && (o.ok <==>
          && !gap.failure.SnapshotFails? && !(gap.failure.ReleaseFails? && OwnIsLive(rs, gap.now, session, id))
          && session in w.processes && !gap.failure.ReadFails?
          && RecordGoesOn(w.processes[session], id, successor, gap))
      && (o.ok ==> (Has(o.world, session, SuccessorPreserved(id)) <==>
                    successor || Has(w, session, SuccessorPreserved(id)) || Adds(gap, SuccessorPreserved(id))))
  {
    hide RecordAfter, Present, HasSuccessor, Live, OwnIsLive, OtherIsLive, RecordGoesOn;
    var rs := TableAt(w, adapter) + gap.arrivals;
    LiveOnes(rs, gap.now, session, id);
    if session in w.processes {
      RecordExactly(w.processes[session], id, HasSuccessor(Live(rs, gap.now), id, session), gap);
    }
  }

  /** The entry is in the record of the session. */
  predicate Has(w: World, session: string, e: Audit) { session in w.processes && e in w.processes[session].audit }

  /** The intent is in the record of the session. */
  predicate Intended(w: World, session: string, id: string) {
    session in w.processes && IsPending(w.processes[session].audit, id)
  }

  lemma IntendedMeaning(w: World, session: string, id: string)
    ensures Intended(w, session, id) <==>
      id != "" && Has(w, session, ReleasePending(id)) && !Has(w, session, ReleaseResolved(id))
  {
  }

  predicate SameBut(w: World, v: World, session: string) {
    w.processes.Keys == v.processes.Keys && forall u :: u in w.processes && u != session ==>
        v.processes[u] == w.processes[u]
  }

  lemma OneRecords(w: World, session: string, adapter: string, id: string, gap: Gap, e: Audit)
    requires e.ReleasePending? || e.ReleaseResolved?
    ensures var o := ReconcileOne(w, session, adapter, id, gap);
            && SameBut(w, o.world, session)
            && (session in w.processes ==> o.world.processes[session].adapter == w.processes[session].adapter)
            && (Has(w, session, e) ==> Has(o.world, session, e))
            && (Has(o.world, session, e) ==>
                  Has(w, session, e) || Adds(gap, e) || (e == ReleaseResolved(id) && o.ok && gap.beforeMark.None?))
            && (o.ok && (Adds(gap, e) || (e == ReleaseResolved(id) && gap.beforeMark.None?)) ==>
                Has(o.world, session, e))
  {
    hide RecordAfter, TableAfter, Live, HasSuccessor, Adds;
    if session in w.processes {
      var successor := HasSuccessor(Live(TableAt(w, adapter) + gap.arrivals, gap.now), id, session);
      RecordEffect(w.processes[session], id, successor, gap, e);
    }
  }

  // ---------------------------------------------------------------- what one intent does to the reservations

  lemma TableEffect(rs: seq<Reservation>, id: string, session: string, gap: Gap, x: string, u: string)
    requires Copies(gap.arrivals, x, u) == 0
    ensures var (rs', done) := TableAfter(rs, id, session, gap);
            && Copies(rs', x, u) <= Copies(rs, x, u)
            && (done && x == id && u == session && Copies(rs, x, u) <= 1 ==> Copies(rs', x, u) == 0)
  {
    hide Live, WithoutOwned, Copies, Present;
    var all := rs + gap.arrivals;
    var live := Live(all, gap.now);
    CopiesAppend(rs, gap.arrivals, x, u);
    LiveCopies(all, gap.now, x, u);
    if Present(live, id, session) {
      if x == id && u == session {
        WithoutOwnedMeaning(live, id, session);
      } else {
        WithoutOwnedOthers(live, id, session, x, u);
      }
    } else {
      CopiesMeaning(live, id, session);
    }
  }

  lemma OneTable(w: World, session: string, adapter: string, id: string, gap: Gap, a: string, x: string, u: string)
    requires Copies(gap.arrivals, x, u) == 0
    ensures var o := ReconcileOne(w, session, adapter, id, gap);
            && Copies(TableAt(o.world, a), x, u) <= Copies(TableAt(w, a), x, u)
            && (o.ok && a == adapter && x == id && u == session && Copies(TableAt(w, a), x, u) <= 1 ==>
                  Copies(TableAt(o.world, a), x, u) == 0)
  {
    hide Copies, RecordAfter, TableAfter, Live, HasSuccessor;
    TableEffect(TableAt(w, adapter), id, session, gap, x, u);
  }

  /** A reservation that is not the intended one and has not expired stays; nothing appears but arrivals. */
  lemma OneKeepsOthers(w: World, session: string, adapter: string, id: string, gap: Gap, a: string, r: Reservation)
    ensures var o := ReconcileOne(w, session, adapter, id, gap);
            && (r in TableAt(w, a) && r.expires > gap.now && (a == adapter ==> !Owns(r, id, session)) ==>
                r in TableAt(o.world, a))
            && (r in TableAt(o.world, a) ==> r in TableAt(w, a) || r in gap.arrivals)
  {
    hide RecordAfter, HasSuccessor, Live, WithoutOwned, Present;
    var all := TableAt(w, adapter) + gap.arrivals;
    var live := Live(all, gap.now);
    LiveMeaning(all, gap.now);
    if Present(live, id, session) { WithoutOwnedMeaning(live, id, session); }
  }

  // ---------------------------------------------------------------- whole reconciliations

  /** Nobody else makes the reservation `x` of session `u` again. */
  ghost predicate Unrepeated(gaps: Gaps, x: string, u: string) { forall s, i :: Copies(gaps(s, i).arrivals, x, u) == 0 }

  /** Some other writer appends `e` to the record of `u` while an intent of the session is handled. */
  ghost predicate Interferes(gaps: Gaps, u: string, e: Audit) { exists i :: Adds(gaps(u, i), e) }

  /**
   * The trail only grows, by what others append to it and by the mark; no copy of the reservation appears; and the
   * mark goes in only when the reservation is gone.
   */
  ghost predicate Advances(w: World, v: World, a: string, x: string, u: string, gaps: Gaps) {
    && w.processes.Keys == v.processes.Keys
    && (u in w.processes ==> v.processes[u].adapter == w.processes[u].adapter)
    && (Has(w, u, ReleasePending(x)) ==> Has(v, u, ReleasePending(x)))
    && (Has(w, u, ReleaseResolved(x)) ==> Has(v, u, ReleaseResolved(x)))
    && (Has(v, u, ReleasePending(x)) ==> Has(w, u, ReleasePending(x)) || Interferes(gaps, u, ReleasePending(x)))
    && Copies(TableAt(v, a), x, u) <= Copies(TableAt(w, a), x, u)
    && (Has(v, u, ReleaseResolved(x)) && Copies(TableAt(w, a), x, u) <= 1 ==>
          || Has(w, u, ReleaseResolved(x)) || Interferes(gaps, u, ReleaseResolved(x))
              || Copies(TableAt(v, a), x, u) == 0)
  }

  lemma OneAdvances(w: World, session: string, adapter: string, id: string, gaps: Gaps, a: string, x: string, u: string)
    requires Unrepeated(gaps, x, u) && (u == session ==> a == adapter)
    ensures Advances(w, ReconcileOne(w, session, adapter, id, gaps(session, id)).world, a, x, u, gaps)
  {
    hide Copies, TableAt, ReconcileOne, Adds;
    OneRecords(w, session, adapter, id, gaps(session, id), ReleasePending(x));
    OneRecords(w, session, adapter, id, gaps(session, id), ReleaseResolved(x));
    OneTable(w, session, adapter, id, gaps(session, id), a, x, u);
  }

  lemma AdvancesTwice(w: World, v: World, z: World, a: string, x: string, u: string, gaps: Gaps)
    requires Advances(w, v, a, x, u, gaps) && Advances(v, z, a, x, u, gaps)
    ensures Advances(w, z, a, x, u, gaps)
  {
    hide Copies, TableAt, Has, Interferes;
  }

  lemma StillAdvances(w: World, a: string, x: string, u: string, gaps: Gaps)
    ensures Advances(w, w, a, x, u, gaps)
  {
  }

  lemma {:induction false} IdsAdvance(
    w: World, session: string, adapter: string, ids: seq<string>, gaps: Gaps, a: string, x: string, u: string)
    requires Unrepeated(gaps, x, u) && (u == session ==> a == adapter)
    ensures Advances(w, ReconcileIds(w, session, adapter, ids, gaps).world, a, x, u, gaps)
    decreases |ids|
  {
    hide Advances, ReconcileOne;
    if ids == [] {
      StillAdvances(w, a, x, u, gaps);
    } else {
      var o := ReconcileOne(w, session, adapter, ids[0], gaps(session, ids[0]));
      OneAdvances(w, session, adapter, ids[0], gaps, a, x, u);
      IdsAdvance(o.world, session, adapter, ids[1..], gaps, a, x, u);
      if o.ok {
        AdvancesTwice(w, o.world, ReconcileIds(o.world, session, adapter, ids[1..], gaps).world, a, x, u, gaps);
      }
    }
  }

  lemma {:induction false} AllAdvance(
    w: World, start: map<string, Record>, sessions: seq<string>, gaps: Gaps, a: string, x: string, u: string)
    requires (forall s :: s in sessions ==> s in start) && Unrepeated(gaps, x, u)
            && (u in start ==> start[u].adapter == a)
    ensures Advances(w, ReconcileAll(w, start, sessions, gaps).world, a, x, u, gaps)
    decreases |sessions|
  {
    hide Advances, ReconcileIds, PendingIds;
    if sessions == [] {
      StillAdvances(w, a, x, u, gaps);
    } else {
      var s := sessions[0];
      var o := ReconcileIds(w, s, start[s].adapter, PendingIds(start[s].audit), gaps);
      IdsAdvance(w, s, start[s].adapter, PendingIds(start[s].audit), gaps, a, x, u);
      AllAdvance(o.world, start, sessions[1..], gaps, a, x, u);
      if o.ok { AdvancesTwice(w, o.world, ReconcileAll(o.world, start, sessions[1..], gaps).world, a, x, u, gaps); }
    }
  }

  // ---------------------------------------------------------------- when an intent is resolved

  /** Handling `ids` of session `u` marks `x`: its own mark is not lost, or another writer marks it on the way. */
  predicate Marks(gaps: Gaps, u: string, ids: seq<string>, x: string) {
    || (x in ids && gaps(u, x).beforeMark.None?)
    || exists i :: i in ids && Adds(gaps(u, i), ReleaseResolved(x))
  }

  lemma MarksStep(gaps: Gaps, u: string, ids: seq<string>, x: string)
    requires ids != []
    ensures Marks(gaps, u, ids, x) <==>
      || (x == ids[0] && gaps(u, x).beforeMark.None?) || Adds(gaps(u, ids[0]), ReleaseResolved(x))
          || Marks(gaps, u, ids[1..], x)
  {
    hide Adds;
    assert forall i :: i in ids <==> i == ids[0] || i in ids[1..];
  }

  lemma {:induction false} IdsResolve(
    w: World, session: string, adapter: string, ids: seq<string>, gaps: Gaps, x: string)
    requires ReconcileIds(w, session, adapter, ids, gaps).ok
    ensures Has(ReconcileIds(w, session, adapter, ids, gaps).world, session, ReleaseResolved(x)) <==>
      Has(w, session, ReleaseResolved(x)) || Marks(gaps, session, ids, x)
    decreases |ids|
  {
    hide ReconcileOne, Has, Adds;
    if ids != [] {
      var o := ReconcileOne(w, session, adapter, ids[0], gaps(session, ids[0]));
      OneRecords(w, session, adapter, ids[0], gaps(session, ids[0]), ReleaseResolved(x));
      MarksStep(gaps, session, ids, x);
      IdsResolve(o.world, session, adapter, ids[1..], gaps, x);
    }
  }

  lemma {:induction false} IdsOthers(w: World, session: string, adapter: string, ids: seq<string>, gaps: Gaps)
    ensures SameBut(w, ReconcileIds(w, session, adapter, ids, gaps).world, session)
    decreases |ids|
  {
    hide ReconcileOne, Has, Adds;
    if ids != [] {
      OneRecords(w, session, adapter, ids[0], gaps(session, ids[0]), ReleaseResolved(""));
      IdsOthers(ReconcileOne(w, session, adapter, ids[0], gaps(session, ids[0])).world, session, adapter, ids[1..],
          gaps);
    }
  }

  lemma {:induction false} AllResolve(
    w: World, start: map<string, Record>, sessions: seq<string>, gaps: Gaps, x: string, u: string)
    requires (forall s :: s in sessions ==> s in start) && ReconcileAll(w, start, sessions, gaps).ok
    ensures Has(ReconcileAll(w, start, sessions, gaps).world, u, ReleaseResolved(x)) <==>
      Has(w, u, ReleaseResolved(x)) || (u in sessions && Marks(gaps, u, PendingIds(start[u].audit), x))
    decreases |sessions|
  {
    hide ReconcileIds, PendingIds, Marks;
    if sessions != [] {
      var s := sessions[0];
      var ids := PendingIds(start[s].audit);
      IdsOthers(w, s, start[s].adapter, ids, gaps);
      IdsResolve(w, s, start[s].adapter, ids, gaps, x);
      AllResolve(ReconcileIds(w, s, start[s].adapter, ids, gaps).world, start, sessions[1..], gaps, x, u);
    }
  }

  /** The sessions of the process table, as it lists them. */
  ghost predicate Lists(sessions: seq<string>, w: World) { forall s :: s in sessions <==> s in w.processes }

  /**
   * One reconciliation that returns Ok, on any world: no intended reservation is left, and an intent is left
   * unresolved exactly if another writer's commit came between the reading of its record and the mark, and no writer
   * who came between marked it.
   */
  lemma ReconciledLeavesNoIntent(w: World, sessions: seq<string>, gaps: Gaps, u: string, x: string)
    requires Lists(sessions, w) && ReconcileAll(w, w.processes, sessions, gaps).ok && Unrepeated(gaps, x, u)
    requires Intended(w, u, x) && Copies(TableAt(w, w.processes[u].adapter), x, u) <= 1
    ensures var v := ReconcileAll(w, w.processes, sessions, gaps).world;
            && !Present(TableAt(v, w.processes[u].adapter), x, u)
            && (Intended(v, u, x) <==>
                  && gaps(u, x).beforeMark.Some?
                  && forall i :: i in PendingIds(w.processes[u].audit) ==> !Adds(gaps(u, i), ReleaseResolved(x)))
  {
    hide ReconcileAll, PendingIds, Copies, TableAt, Present, Adds, Has;
    var v := ReconcileAll(w, w.processes, sessions, gaps).world;
    IntendedMeaning(w, u, x);
    IntendedMeaning(v, u, x);
    PendingIdsMeaning(w.processes[u].audit);
    AllAdvance(w, w.processes, sessions, gaps, w.processes[u].adapter, x, u);
    AllReleased(w, w.processes, sessions, gaps, x, u);
    AllResolve(w, w.processes, sessions, gaps, x, u);
  }

  /** No intent appears out of nothing. */
  lemma NoNewIntent(w: World, sessions: seq<string>, gaps: Gaps, u: string, x: string)
    requires Lists(sessions, w) && Unrepeated(gaps, x, u)
    ensures Intended(ReconcileAll(w, w.processes, sessions, gaps).world, u, x) ==>
      Intended(w, u, x) || Interferes(gaps, u, ReleasePending(x))
  {
    hide ReconcileAll, Copies, TableAt, Intended, Has, Interferes;
    var a := if u in w.processes then w.processes[u].adapter else "";
    AllAdvance(w, w.processes, sessions, gaps, a, x, u);
    IntendedMeaning(w, u, x);
    IntendedMeaning(ReconcileAll(w, w.processes, sessions, gaps).world, u, x);
  }

  lemma {:induction false} IdsReleased(
    w: World, session: string, adapter: string, ids: seq<string>, gaps: Gaps, x: string)
    requires ReconcileIds(w, session, adapter, ids, gaps).ok && x in ids && Unrepeated(gaps, x, session)
    requires Copies(TableAt(w, adapter), x, session) <= 1
    ensures Copies(TableAt(ReconcileIds(w, session, adapter, ids, gaps).world, adapter), x, session) == 0
    decreases |ids|
  {
    hide ReconcileOne, Has, Interferes, Copies, TableAt;
    var o := ReconcileOne(w, session, adapter, ids[0], gaps(session, ids[0]));
    OneTable(w, session, adapter, ids[0], gaps(session, ids[0]), adapter, x, session);
    if x == ids[0] {
      IdsAdvance(o.world, session, adapter, ids[1..], gaps, adapter, x, session);
    } else {
      IdsReleased(o.world, session, adapter, ids[1..], gaps, x);
    }
  }

  lemma {:induction false} AllReleased(
    w: World, start: map<string, Record>, sessions: seq<string>, gaps: Gaps, x: string, u: string)
    requires (forall s :: s in sessions ==> s in start) && u in sessions && x in PendingIds(start[u].audit)
    requires ReconcileAll(w, start, sessions, gaps).ok && Unrepeated(gaps, x, u)
    requires Copies(TableAt(w, start[u].adapter), x, u) <= 1
    ensures !Present(TableAt(ReconcileAll(w, start, sessions, gaps).world, start[u].adapter), x, u)
    decreases |sessions|
  {
    hide ReconcileIds, PendingIds, Has, Interferes, Copies, TableAt, Present;
    var s, a := sessions[0], start[u].adapter;
    var ids := PendingIds(start[s].audit);
    var o := ReconcileIds(w, s, start[s].adapter, ids, gaps);
    if s == u {
      IdsReleased(w, u, a, ids, gaps, x);
      AllAdvance(o.world, start, sessions[1..], gaps, a, x, u);
      CopiesMeaning(TableAt(ReconcileAll(o.world, start, sessions[1..], gaps).world, a), x, u);
    } else {
      IdsAdvance(w, s, start[s].adapter, ids, gaps, a, x, u);
      AllReleased(o.world, start, sessions[1..], gaps, x, u);
    }
  }

  /**
   * Stopped anywhere, by a crash or an error: an intended reservation that is still there still has its intent, unless
   * somebody else marked it.
   */
  lemma StoppedKeepsIntent(w: World, sessions: seq<string>, gaps: Gaps, u: string, x: string)
    requires Lists(sessions, w) && Unrepeated(gaps, x, u) && Intended(w, u, x)
    requires Copies(TableAt(w, w.processes[u].adapter), x, u) <= 1
    ensures var v := ReconcileAll(w, w.processes, sessions, gaps).world;
            Present(TableAt(v, w.processes[u].adapter), x, u) ==>
                Intended(v, u, x) || Interferes(gaps, u, ReleaseResolved(x))
  {
    hide ReconcileAll, PendingIds, IsPending, Copies, TableAt, Has, Interferes;
    var v := ReconcileAll(w, w.processes, sessions, gaps).world;
    IntendedMeaning(w, u, x);
    IntendedMeaning(v, u, x);
    AllAdvance(w, w.processes, sessions, gaps, w.processes[u].adapter, x, u);
    CopiesMeaning(TableAt(v, w.processes[u].adapter), x, u);
  }

  // ---------------------------------------------------------------- other reservations

  /** No time in the gaps reaches the expiry of `r`. */
  ghost predicate Outlives(r: Reservation, gaps: Gaps) { forall s, i :: r.expires > gaps(s, i).now }

  lemma {:induction false} IdsKeepOthers(
    w: World, session: string, adapter: string, ids: seq<string>, gaps: Gaps, a: string, r: Reservation)
    requires Outlives(r, gaps) && (a == adapter && r.session == session ==> r.id !in ids)
    ensures r in TableAt(w, a) ==> r in TableAt(ReconcileIds(w, session, adapter, ids, gaps).world, a)
    decreases |ids|
  {
    hide ReconcileOne, TableAt;
    if ids != [] {
      var gap := gaps(session, ids[0]);
      OneKeepsOthers(w, session, adapter, ids[0], gap, a, r);
      IdsKeepOthers(ReconcileOne(w, session, adapter, ids[0], gap).world, session, adapter, ids[1..], gaps, a, r);
    }
  }

  lemma {:induction false} AllKeepOthers(
    w: World, start: map<string, Record>, sessions: seq<string>, gaps: Gaps, a: string, r: Reservation)
    requires (forall s :: s in sessions ==> s in start) && Outlives(r, gaps)
    requires r.session in sessions && start[r.session].adapter == a ==> r.id !in PendingIds(start[r.session].audit)
    ensures r in TableAt(w, a) ==> r in TableAt(ReconcileAll(w, start, sessions, gaps).world, a)
    decreases |sessions|
  {
    hide ReconcileIds, TableAt, PendingIds, Outlives;
    if sessions != [] {
      var s := sessions[0];
      var ids := PendingIds(start[s].audit);
      IdsKeepOthers(w, s, start[s].adapter, ids, gaps, a, r);
      AllKeepOthers(ReconcileIds(w, s, start[s].adapter, ids, gaps).world, start, sessions[1..], gaps, a, r);
    }
  }

  /**
   * Whatever happens, a reservation that is not the one an intent of its session names, and that does not expire,
   * is not removed: successors and other sessions are safe.
   */
  lemma OthersAreKept(w: World, sessions: seq<string>, gaps: Gaps, a: string, r: Reservation)
    requires Lists(sessions, w) && r in TableAt(w, a) && Outlives(r, gaps)
    requires !(Intended(w, r.session, r.id) && w.processes[r.session].adapter == a)
    ensures r in TableAt(ReconcileAll(w, w.processes, sessions, gaps).world, a)
  {
    hide ReconcileAll, PendingIds, TableAt, Outlives;
    if r.session in w.processes { PendingIdsMeaning(w.processes[r.session].audit); }
    AllKeepOthers(w, w.processes, sessions, gaps, a, r);
  }

  // ---------------------------------------------------------------- a mark that is lost

  /** A retired record with its intent, and the reservation still in the table. */
  const PENDING := World(
    map["s" := Record("a", false, 7, [Reserved("r"), ReleasePending("r")])], map["a" := [Reservation("r", "s", 100)]])

  /** Somebody commits a note on the record between the reading and the mark. */
  const NOTED: Gap := Gap(1, [], NoFailure, None, Some(Write(false, [Note("provider.health:interrupted")])))

  /**
   * That an Ok reconciliation leaves no unresolved intent is false: the mark meets a newer version, which is passed
   * over, and the reservation is gone while the intent is still there.
   */
  lemma LostMark()
    ensures var o := ReconcileAll(PENDING, PENDING.processes, ["s"], (u, i) => NOTED);
            && o.ok && o.world.table == map["a" := []]
            && o.world.processes == map["s" := Record("a", false, 8,
                 [Reserved("r"), ReleasePending("r"), Note("provider.health:interrupted")])]
            && Intended(PENDING, "s", "r") && Intended(o.world, "s", "r")
  {
    var gaps := (u, i) => NOTED;
    var r := PENDING.processes["s"];
    assert PendingIds(r.audit) == ["r"] by {
      assert r.audit[..1] == [Reserved("r")] && r.audit[..1][..0] == [];
      assert PendingIn(r.audit[..1], r.audit) == [];
    }
    var live := PENDING.table["a"];
    assert live + NOTED.arrivals == live && Live(live, 1) == live;
    assert Owns(live[0], "r", "s") && Present(live, "r", "s");
    assert WithoutOwned(live, "r", "s") == [];
    var o := ReconcileOne(PENDING, "s", "a", "r", NOTED);
    assert o.ok && Written(r, NOTED.beforeMark).audit == [Reserved("r"), ReleasePending("r"),
        Note("provider.health:interrupted")];
    assert ReconcileIds(PENDING, "s", "a", ["r"], gaps) == ReconcileIds(o.world, "s", "a", [], gaps);
    assert ReconcileAll(PENDING, PENDING.processes, ["s"], gaps) == ReconcileAll(o.world, PENDING.processes, [], gaps);
  }
}
