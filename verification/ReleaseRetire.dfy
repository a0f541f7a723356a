/** Crash safety of retiring a drained provider. */
module ReleaseRetire {
  import opened Text
  import opened ReleaseIntent
  import opened ReleaseReconcile

  /**
   * An active record whose reservation has not been the subject of an intent before, and is in the table at most once.
   */
  predicate Retirable(w: World, session: string, id: string) {
    && session in w.processes && w.processes[session].active
    && id != "" && ReservationId(w.processes[session].audit) == Some(id)
    && ReleasePending(id) !in w.processes[session].audit && ReleaseResolved(id) !in w.processes[session].audit
    && Copies(TableAt(w, w.processes[session].adapter), id, session) <= 1
  }

  lemma RetiredAudit(r: Record, release: Option<string>, id: string)
    requires release.Some? ==> release.value == id
    requires ReleaseResolved(id) !in r.audit && ReleasePending(id) !in r.audit && id != ""
    ensures var gone := Committed(Retired(r, release));
            && IsPending(gone.audit, id) == release.Some?
            && (release.Some? ==> ReleasePending(id) in gone.audit) && !gone.active && gone.adapter == r.adapter
            && r.audit <= gone.audit && Note("provider.slot:released") in gone.audit
            && Note("provider.health:interrupted") in gone.audit && Note("provider.supervisor.failed") in gone.audit
            && Note("provider.lifecycle:shutdown_retired") in gone.audit
  {
    assert ReleaseResolved(id) !in RETIRED && ReleasePending(id) !in RETIRED;
  }

  /** A commit of a retirement that met no other writer. */
  lemma Uncontested(r: Record, release: Option<string>, other: Option<Write>)
    ensures var c := CompareAndSet(Written(r, other), Retired(r, release));
            if other.None? then c == Ok(Committed(Retired(r, release))) else c.Err?
  {
  }

  /** A mark keeps the trail and, without another writer, the rest of the record. */
  lemma MarkedKeeps(r: Record, id: string, other: Option<Write>)
    ensures var m := Marked(r, id, other);
            r.audit <= m.audit && m.adapter == r.adapter && (other.None? ==> m.active == r.active)
  {
  }

  /** The session has one reservation in the list, the `i`-th. */
  ghost predicate Sole(rs: seq<Reservation>, session: string, i: nat) {
    i < |rs| && rs[i].session == session && forall j :: 0 <= j < |rs| && j != i ==> rs[j].session != session
  }

  lemma {:induction false} SoleIsSame(rs: seq<Reservation>, session: string)
    ensures var same := SameSession(rs, session);
            && (same == [] <==> forall j :: 0 <= j < |rs| ==> rs[j].session != session)
            && (|same| == 1 <==> exists i: nat :: Sole(rs, session, i))
            && forall i: nat :: Sole(rs, session, i) ==> same == [rs[i]]
  {
    if rs != [] {
      var rest := rs[1..];
      SoleIsSame(rest, session);
      var same := SameSession(rs, session);
      assert forall j :: 0 < j < |rs| ==> rs[j] == rest[j - 1];
      if rs[0].session == session {
        assert SameSession(rest, session) == [] ==> Sole(rs, session, 0);
        forall i: nat | Sole(rs, session, i) ensures i == 0 && SameSession(rest, session) == [] {}
      } else {
        assert same == SameSession(rest, session);
        forall i: nat ensures i > 0 && Sole(rs, session, i) <==> i > 0 && Sole(rest, session, i - 1) {}
        forall i: nat | Sole(rest, session, i) ensures Sole(rs, session, i + 1) {}
      }
    }
  }

  /**
   * What a retirement finds to release: the recorded reservation, if it is the session's only one; nothing, if the
   * session has none; a conflict in every other case, among them a record that names none.
   */
  lemma AdmissionReleaseExactly(r: Record, live: seq<Reservation>, session: string)
    ensures var o, expected := AdmissionRelease(r, live, session), ReservationId(r.audit);
            && (o == Ok(None) <==> expected.Some? && forall j :: 0 <= j < |live| ==> live[j].session != session)
            && (o.Ok? && o.value.Some? <==>
                expected.Some? && exists i: nat :: Sole(live, session, i) && live[i].id == expected.value)
            && (o.Ok? && o.value.Some? ==> o.value == expected)
            && (o.Err? ==> o == Err(Conflict))
  {
    hide ReservationId, SameSession;
    SoleIsSame(live, session);
    var same := SameSession(live, session);
    if |same| == 1 {
      var i: nat :| Sole(live, session, i);
      assert same == [live[i]];
    }
  }

  lemma AdmissionReleaseMeaning(r: Record, live: seq<Reservation>, session: string, id: string)
    requires ReservationId(r.audit) == Some(id)
    ensures var o := AdmissionRelease(r, live, session);
            && (o.Ok? && o.value.Some? ==> o.value == Some(id) && Present(live, id, session))
            && (o == Ok(None) ==> !Present(live, id, session))
  {
    hide ReservationId, AdmissionRelease;
    AdmissionReleaseExactly(r, live, session);
    if i: nat :| Sole(live, session, i) && live[i].id == id { assert live[i] in live && Owns(live[i], id, session); }
  }

  /** What is left of the reservation when it is dropped or released. */
  lemma LeftCopies(live: seq<Reservation>, later: nat, id: string, session: string)
    requires Copies(live, id, session) <= 1
    ensures var left := WithoutOwned(Live(live, later), id, session);
            Copies(left, id, session) == 0 && !Present(left, id, session)
  {
    hide Live, Present, Copies;
    var left := Live(live, later);
    LiveCopies(live, later, id, session);
    CopiesMeaning(left, id, session);
    if Present(left, id, session) { WithoutOwnedMeaning(left, id, session); } else { NoneToDrop(left, id, session); }
    CopiesMeaning(WithoutOwned(left, id, session), id, session);
  }

  lemma {:induction false} NoneToDrop(rs: seq<Reservation>, id: string, session: string)
    requires Copies(rs, id, session) == 0
    ensures WithoutOwned(rs, id, session) == rs
  {
    if rs != [] { NoneToDrop(rs[1..], id, session); }
  }

  /**
   * A crash after any number of the durable writes, whoever else writes. If another writer came before the first
   * commit, the record is exactly what that writer left. If not, the reservation is never stranded, since as long as it
   * is in the table the record is active or carries the intent; and it is never released before the intent is written.
   */
  lemma CrashPoints(
    w: World, session: string, id: string, now: nat, later: nat, other: Option<Write>, otherMark: Option<Write>,
        commits: nat)
    requires Retirable(w, session, id)
    ensures var v, a := RetireTo(w, session, now, later, other, otherMark, commits), w.processes[session].adapter;
            && v.processes.Keys == w.processes.Keys && v.processes[session].adapter == a
            && Copies(TableAt(v, a), id, session) <= 1
            && (other.Some? ==>
                  v.processes[session] in {w.processes[session], Written(w.processes[session], other)})
            && (other.None? && Present(TableAt(v, a), id, session) ==>
                v.processes[session].active || Intended(v, session, id))
            && (Present(Live(TableAt(w, a), now), id, session) && !Present(TableAt(v, a), id, session) ==>
                  ReleasePending(id) in v.processes[session].audit
                      && (otherMark.None? ==> !v.processes[session].active))
  {
    hide Live, WithoutOwned, Present, ReservationId, AdmissionRelease, IsPending, Copies, Retired, Marked;
    hide CompareAndSet;
    var r := w.processes[session];
    var live := Live(TableAt(w, r.adapter), now);
    var release := AdmissionRelease(r, live, session);
    AdmissionReleaseMeaning(r, live, session, id);
    LiveCopies(TableAt(w, r.adapter), now, id, session);
    if release.Ok? {
      Uncontested(r, release.value, other);
      RetiredAudit(r, release.value, id);
      if release.value.Some? {
        LeftCopies(live, later, id, session);
        MarkedKeeps(Committed(Retired(r, release.value)), id, otherMark);
      }
    }
  }

  /** Nothing but the session's own reservation and what has expired leaves the table. */
  lemma RetireKeepsOthers(
    w: World, session: string, id: string, now: nat, later: nat, other: Option<Write>, otherMark: Option<Write>,
        commits: nat,
    a: string, r: Reservation)
    requires Retirable(w, session, id) && r in TableAt(w, a) && r.expires > now && r.expires > later
            && !Owns(r, id, session)
    ensures r in TableAt(RetireTo(w, session, now, later, other, otherMark, commits), a)
  {
    hide Live, WithoutOwned, Present, ReservationId, AdmissionRelease, Copies, Retired, Marked, CompareAndSet;
    var p := w.processes[session];
    var live := Live(TableAt(w, p.adapter), now);
    AdmissionReleaseMeaning(p, live, session, id);
    LiveMeaning(TableAt(w, p.adapter), now);
    LiveMeaning(live, later);
    OthersStay(Live(live, later), id, session, r);
  }

  lemma {:induction false} OthersStay(rs: seq<Reservation>, id: string, session: string, r: Reservation)
    requires !Owns(r, id, session)
    ensures r in rs ==> r in WithoutOwned(rs, id, session)
  {
    if rs != [] { OthersStay(rs[1..], id, session, r); }
  }

  /**
   * After a crash at any point of a retirement whose first commit met no other writer, and one reconciliation that
   * returns Ok, a retired provider holds no reservation, and its intent is resolved unless another writer came between
   * the read and the commit of the mark or wrote the intent anew.
   */
  lemma CrashThenReconcile(
    w: World, session: string, id: string, now: nat, later: nat, otherMark: Option<Write>, commits: nat,
    sessions: seq<string>, gaps: Gaps)
    requires Retirable(w, session, id)
    requires var v := RetireTo(w, session, now, later, None, otherMark, commits);
             && Lists(sessions, v) && ReconcileAll(v, v.processes, sessions, gaps).ok && Unrepeated(gaps, id, session)
    ensures var v := RetireTo(w, session, now, later, None, otherMark, commits);
            var z := ReconcileAll(v, v.processes, sessions, gaps).world;
            !v.processes[session].active ==>
              && !Present(TableAt(z, w.processes[session].adapter), id, session)
              && (gaps(session, id).beforeMark.None? && !Interferes(gaps, session, ReleasePending(id)) ==>
                  !Intended(z, session, id))
  {
    hide RetireTo, ReconcileAll, Present, Copies, Intended, TableAt, Adds, PendingIds, Has, Interferes;
    CrashPoints(w, session, id, now, later, None, otherMark, commits);
    var v, a := RetireTo(w, session, now, later, None, otherMark, commits), w.processes[session].adapter;
    var z := ReconcileAll(v, v.processes, sessions, gaps).world;
    AllAdvance(v, v.processes, sessions, gaps, a, id, session);
    CopiesMeaning(TableAt(v, a), id, session);
    CopiesMeaning(TableAt(z, a), id, session);
    NoNewIntent(v, sessions, gaps, session, id);
    if Intended(v, session, id) { ReconciledLeavesNoIntent(v, sessions, gaps, session, id); }
  }

  /**
   * The in-place retirement ends in the world of its last durable write, whoever else writes; and where somebody else
   * has dropped the reservation, in what a reconciliation makes of the world after the second.
   */
  lemma RetireIsItsWrites(
    w: World, session: string, id: string, now: nat, later: nat, other: Option<Write>, otherMark: Option<Write>,
    sessions: seq<string>, gaps: Gaps)
    requires Retirable(w, session, id) && Lists(sessions, w)
    ensures var (v, r) := AfterRetire(w, session, now, later, other, otherMark, sessions, gaps);
            var live := Live(TableAt(w, w.processes[session].adapter), now);
            var release := AdmissionRelease(w.processes[session], live, session);
            if release.Err? || release.value.None? || other.Some? || Present(Live(live, later), id, session)
            then
              && v == RetireTo(w, session, now, later, other, otherMark, 3)
              && r == if release.Err? then Err(Conflict) else Ok(other.None?)
            else
              var two := RetireTo(w, session, now, later, other, otherMark, 2);
              two.processes.Keys == w.processes.Keys && v == ReconcileAll(two, two.processes, sessions, gaps).world
  {
    hide Live, WithoutOwned, Present, ReservationId, AdmissionRelease, Copies, Marked, Retired, CompareAndSet;
    hide ReconcileAll, PendingIds;
    var r := w.processes[session];
    var live := Live(TableAt(w, r.adapter), now);
    var release := AdmissionRelease(r, live, session);
    AdmissionReleaseMeaning(r, live, session, id);
    if release.Ok? {
      Uncontested(r, release.value, other);
      CopiesMeaning(Live(live, later), id, session);
      if !Present(Live(live, later), id, session) { NoneToDrop(Live(live, later), id, session); }
    }
  }

  lemma MarkedIntent(r: Record, id: string, other: Option<Write>)
    requires IsPending(r.audit, id)
    ensures IsPending(Marked(r, id, other).audit, id) <==> other.Some? && ReleaseResolved(id) !in other.value.extra
  {
  }

  /**
   * What the answers mean, whatever others do: `Ok(false)` is exactly a commit that met another writer; with `Ok(true)`
   * the reservation is gone; and where this call released it, the intent is left exactly if another writer came before
   * the mark and did not resolve it. Where somebody else had dropped the reservation, the intent is not left as the
   * last one.
   */
  lemma RetireAnswers(
    w: World, session: string, id: string, now: nat, later: nat, other: Option<Write>, otherMark: Option<Write>,
    sessions: seq<string>, gaps: Gaps)
    requires Retirable(w, session, id) && Lists(sessions, w) && Unrepeated(gaps, id, session)
    ensures var (v, r) := AfterRetire(w, session, now, later, other, otherMark, sessions, gaps);
            var a := w.processes[session].adapter;
            var live := Live(TableAt(w, a), now);
            var release := AdmissionRelease(w.processes[session], live, session);
            && (r == Ok(false) <==> release.Ok? && other.Some?)
            && (r == Ok(true) ==> !Present(TableAt(v, a), id, session))
            && (r == Ok(true) && Present(Live(live, later), id, session) ==>
                  (Intended(v, session, id) <==> otherMark.Some? && ReleaseResolved(id) !in otherMark.value.extra))
            && (r == Ok(true) && release == Ok(Some(id)) && !Present(Live(live, later), id, session) ==>
                  session in v.processes && !IsLastPending(v.processes[session].audit, id))
  {
    hide Live, WithoutOwned, Present, ReservationId, AdmissionRelease, IsPending, Copies, Retired, Marked, ReconcileAll;
    hide PendingIds, Interferes, LastPending, IsLastPending;
    var p := w.processes[session];
    var live := Live(TableAt(w, p.adapter), now);
    var release := AdmissionRelease(p, live, session);
    AdmissionReleaseMeaning(p, live, session, id);
    LiveCopies(TableAt(w, p.adapter), now, id, session);
    NotLive(live, later, id, session);
    if release.Ok? {
      RetiredVersion(p, release.value);
      CompareAndSetExactly(p, other, Retired(p, release.value));
    }
    if release.Ok? && other.None? {
      var gone := Committed(Retired(p, release.value));
      RetiredAudit(p, release.value, id);
      if release.value.Some? {
        LeftCopies(live, later, id, session);
        MarkedIntent(gone, id, otherMark);
        var one := World(w.processes[session := gone], w.table[p.adapter := Live(live, later)]);
        GoneStaysGone(one, session, id, sessions, gaps, p.adapter);
        var o := ReconcileAll(one, one.processes, sessions, gaps).world;
        if session in o.processes { LastPendingExactly(o.processes[session].audit, id); }
      }
    }
  }

  lemma NotLive(live: seq<Reservation>, later: nat, id: string, session: string)
    ensures Present(Live(live, later), id, session) ==> Present(live, id, session)
  {
    LiveMeaning(live, later);
  }

  lemma GoneStaysGone(w: World, session: string, id: string, sessions: seq<string>, gaps: Gaps, a: string)
    requires Lists(sessions, w) && Unrepeated(gaps, id, session) && session in w.processes
            && w.processes[session].adapter == a
    ensures !Present(TableAt(w, a), id, session) ==>
      !Present(TableAt(ReconcileAll(w, w.processes, sessions, gaps).world, a), id, session)
  {
    hide ReconcileAll, Present, Copies, TableAt, Has, Interferes;
    CopiesMeaning(TableAt(w, a), id, session);
    CopiesMeaning(TableAt(ReconcileAll(w, w.processes, sessions, gaps).world, a), id, session);
    AllAdvance(w, w.processes, sessions, gaps, a, id, session);
  }
}
