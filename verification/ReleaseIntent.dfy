/** The write-ahead release intent of a drained provider, and its reconciliation after a crash. */
module ReleaseIntent {
  import opened Text

  /** The audit entries that later code reads; the others are notes. */
  datatype Audit = Reserved(id: string) | ReleasePending(id: string) | ReleaseResolved(id: string)
      | SuccessorPreserved(id: string) | Note(text: string)

  datatype Record = Record(adapter: string, active: bool, version: nat, audit: seq<Audit>)

  datatype Reservation = Reservation(id: string, session: string, expires: nat)

  /** What survives a crash: the process table by session, the admission table by adapter. */
  datatype World = World(processes: map<string, Record>, table: map<string, seq<Reservation>>)

  // ---------------------------------------------------------------- the process table

  /**
   * Another writer's commit on a record: like all writers it takes the newest record and appends to its audit trail.
   */
  datatype Write = Write(active: bool, extra: seq<Audit>)

  /** The record after another writer may have committed. */
  function Written(r: Record, other: Option<Write>): Record {
    if other.None? then r
    else r.(active := other.value.active, version := r.version + 1, audit := r.audit + other.value.extra)
  }

  /** `compare_and_set`: the candidate, if nobody has committed since it was read. */
  function CompareAndSet(current: Record, candidate: Record): Result<Record> {
    if current.version != candidate.version then Err(Conflict) else Ok(candidate.(version := candidate.version + 1))
  }

  /** A candidate made from a record that was read is committed exactly if no other writer came in between. */
  lemma CompareAndSetExactly(read: Record, other: Option<Write>, candidate: Record)
    requires candidate.version == read.version
    ensures CompareAndSet(Written(read, other), candidate).Ok? <==> other.None?
    ensures other.None? ==> CompareAndSet(read, candidate) == Ok(candidate.(version := read.version + 1))
  {
  }

  /** After a commit, another candidate made from the same read is refused. */
  lemma SecondCommitLoses(read: Record, first: Record, second: Record)
    requires first.version == read.version && second.version == read.version
    ensures CompareAndSet(read, first).Ok?
    ensures CompareAndSet(CompareAndSet(read, first).value, second) == Err(Conflict)
  {
  }

  function TableAt(w: World, adapter: string): seq<Reservation> { if adapter in w.table then w.table[adapter] else [] }

  // ---------------------------------------------------------------- the audit trail

  /** `pending_release_ids`, over the entries `a` of the trail `whole`. */
  function PendingIn(a: seq<Audit>, whole: seq<Audit>): seq<string> {
    if a == [] then []
    else
      var before, e := PendingIn(a[..|a| - 1], whole), a[|a| - 1];
      if e.ReleasePending? && e.id != "" && ReleaseResolved(e.id) !in whole && e.id !in before then before + [e.id]
          else before
  }

  function PendingIds(a: seq<Audit>): seq<string> { PendingIn(a, a) }

  predicate IsPending(a: seq<Audit>, id: string) { id != "" && ReleasePending(id) in a && ReleaseResolved(id) !in a }

  lemma {:induction false} PendingInMeaning(a: seq<Audit>, whole: seq<Audit>)
    ensures forall id :: id in PendingIn(a, whole) <==>
      id != "" && ReleasePending(id) in a && ReleaseResolved(id) !in whole
    ensures forall i, j :: 0 <= i < j < |PendingIn(a, whole)| ==> PendingIn(a, whole)[i] != PendingIn(a, whole)[j]
  {
    if a != [] { PendingInMeaning(a[..|a| - 1], whole); }
  }

  /** The pending ids are the intents without a resolution, each once. */
  lemma PendingIdsMeaning(a: seq<Audit>)
    ensures forall id :: id in PendingIds(a) <==> IsPending(a, id)
    ensures forall i, j :: 0 <= i < j < |PendingIds(a)| ==> PendingIds(a)[i] != PendingIds(a)[j]
  {
    PendingInMeaning(a, a);
  }

  method PendingReleaseIds(audit: seq<Audit>) returns (pending: seq<string>)
    ensures pending == PendingIds(audit)
  {
    pending := [];
    for i := 0 to |audit|
      invariant pending == PendingIn(audit[..i], audit)
    {
      assert audit[..i + 1][..i] == audit[..i];
      var e := audit[i];
      if e.ReleasePending? && e.id != "" && ReleaseResolved(e.id) !in audit && e.id !in pending {
        pending := pending + [e.id];
      }
    }
    assert audit[..|audit|] == audit;
  }

  /** `reservation_id_from_audit`: the newest one. */
  function ReservationId(a: seq<Audit>): Option<string> {
    if a == [] then None
    else if a[|a| - 1].Reserved? && a[|a| - 1].id != "" then Some(a[|a| - 1].id)
    else ReservationId(a[..|a| - 1])
  }

  predicate HasId(e: Audit) { e.Reserved? && e.id != "" }

  /** The last reservation entry that has an id. */
  predicate LastWithId(a: seq<Audit>, i: nat) {
    i < |a| && HasId(a[i]) && forall j :: i < j < |a| ==> !HasId(a[j])
  }

  lemma LastWithIdGrows(a: seq<Audit>, e: Audit, i: nat)
    requires LastWithId(a, i) && !HasId(e)
    ensures LastWithId(a + [e], i)
  {
  }

  /** The id is that of the last reservation entry with an id; there is none exactly if no entry has one. */
  lemma {:induction false} ReservationIdMeaning(a: seq<Audit>) returns (i: nat)
    ensures ReservationId(a).None? <==> forall k :: 0 <= k < |a| ==> !HasId(a[k])
    ensures ReservationId(a).Some? ==> LastWithId(a, i) && ReservationId(a).value == a[i].id
  {
    hide HasId, LastWithId;
    i := 0;
    if a != [] {
      var n := |a| - 1;
      assert a == a[..n] + [a[n]];
      if HasId(a[n]) {
        i := n;
        LastIsLast(a);
      } else {
        i := ReservationIdMeaning(a[..n]);
        LastIsNot(a);
        assert forall k :: 0 <= k < n ==> a[..n][k] == a[k];
        if ReservationId(a[..n]).Some? { LastWithIdGrows(a[..n], a[n], i); }
      }
    }
  }

  lemma LastIsLast(a: seq<Audit>)
    requires a != [] && HasId(a[|a| - 1])
    ensures LastWithId(a, |a| - 1) && ReservationId(a) == Some(a[|a| - 1].id)
  {
  }

  lemma LastIsNot(a: seq<Audit>)
    requires a != [] && !HasId(a[|a| - 1])
    ensures ReservationId(a) == ReservationId(a[..|a| - 1])
  {
  }

  // ---------------------------------------------------------------- the admission table

  /** `snapshot` drops what has expired. */
  function Live(rs: seq<Reservation>, now: nat): seq<Reservation> {
    if rs == [] then [] else (if rs[0].expires > now then [rs[0]] else []) + Live(rs[1..], now)
  }

  predicate Owns(r: Reservation, id: string, session: string) { r.id == id && r.session == session }

  predicate Present(rs: seq<Reservation>, id: string, session: string) { exists r :: r in rs && Owns(r, id, session) }

  /** Another reservation of the same session. */
  predicate HasSuccessor(rs: seq<Reservation>, id: string, session: string) {
    exists r :: r in rs && r.session == session && r.id != id
  }

  /** Removal of the first owned reservation, as `release_owned` does. */
  function WithoutOwned(rs: seq<Reservation>, id: string, session: string): seq<Reservation> {
    if rs == [] then [] else if Owns(rs[0], id, session) then rs[1..] else [rs[0]] + WithoutOwned(rs[1..], id, session)
  }

  function Copies(rs: seq<Reservation>, id: string, session: string): nat {
    if rs == [] then 0 else (if Owns(rs[0], id, session) then 1 else 0) + Copies(rs[1..], id, session)
  }

  lemma {:induction false} CopiesMeaning(rs: seq<Reservation>, id: string, session: string)
    ensures Copies(rs, id, session) == 0 <==> !Present(rs, id, session)
  {
    if rs != [] {
      CopiesMeaning(rs[1..], id, session);
      assert forall r :: r in rs <==> r == rs[0] || r in rs[1..];
      assert Owns(rs[0], id, session) ==> Present(rs, id, session);
    }
  }

  lemma {:induction false} CopiesAppend(a: seq<Reservation>, b: seq<Reservation>, id: string, session: string)
    ensures Copies(a + b, id, session) == Copies(a, id, session) + Copies(b, id, session)
  {
    if a == [] {
      assert a + b == b;
    } else {
      assert (a + b)[1..] == a[1..] + b;
      CopiesAppend(a[1..], b, id, session);
    }
  }

  lemma {:induction false} LiveMeaning(rs: seq<Reservation>, now: nat)
    ensures forall r :: r in Live(rs, now) <==> r in rs && r.expires > now
  {
    if rs != [] { LiveMeaning(rs[1..], now); }
  }

  lemma {:induction false} LiveCopies(rs: seq<Reservation>, now: nat, id: string, session: string)
    ensures Copies(Live(rs, now), id, session) <= Copies(rs, id, session)
  {
    if rs != [] {
      var head := if rs[0].expires > now then [rs[0]] else [];
      LiveCopies(rs[1..], now, id, session);
      CopiesAppend(head, Live(rs[1..], now), id, session);
    }
  }

  /** Exactly one owned reservation goes, and nothing else. */
  lemma {:induction false} WithoutOwnedMeaning(rs: seq<Reservation>, id: string, session: string)
    requires Present(rs, id, session)
    ensures Copies(WithoutOwned(rs, id, session), id, session) == Copies(rs, id, session) - 1
    ensures forall r :: r in WithoutOwned(rs, id, session) ==> r in rs
    ensures forall r :: r in rs && !Owns(r, id, session) ==> r in WithoutOwned(rs, id, session)
  {
    if !Owns(rs[0], id, session) {
      assert Present(rs[1..], id, session);
      WithoutOwnedMeaning(rs[1..], id, session);
      assert ([rs[0]] + WithoutOwned(rs[1..], id, session))[1..] == WithoutOwned(rs[1..], id, session);
    }
  }

  lemma {:induction false} WithoutOwnedOthers(
    rs: seq<Reservation>, id: string, session: string, id2: string, session2: string)
    requires id != id2 || session != session2
    ensures Copies(WithoutOwned(rs, id, session), id2, session2) == Copies(rs, id2, session2)
  {
    if rs != [] && !Owns(rs[0], id, session) {
      WithoutOwnedOthers(rs[1..], id, session, id2, session2);
      assert ([rs[0]] + WithoutOwned(rs[1..], id, session))[1..] == WithoutOwned(rs[1..], id, session);
    }
  }

  // ---------------------------------------------------------------- retiring a drained provider

  function SameSession(rs: seq<Reservation>, session: string): seq<Reservation> {
    if rs == [] then [] else (if rs[0].session == session then [rs[0]] else []) + SameSession(rs[1..], session)
  }

  lemma {:induction false} SameSessionMeaning(rs: seq<Reservation>, session: string)
    ensures forall r :: r in SameSession(rs, session) <==> r in rs && r.session == session
  {
    if rs != [] { SameSessionMeaning(rs[1..], session); }
  }

  /** `admission_release_for_snapshot`: the reservation to release, none if it has expired, else a conflict. */
  function AdmissionRelease(r: Record, live: seq<Reservation>, session: string): Result<Option<string>> {
    var expected := ReservationId(r.audit);
    var same := SameSession(live, session);
    if expected.None? then Err(Conflict)
    else if same == [] then Ok(None)
    else if |same| == 1 && same[0].id == expected.value then Ok(expected)
    else Err(Conflict)
  }

  const RETIRED := [
    Note("provider.slot:released"), Note("provider.health:interrupted"), Note("provider.supervisor.failed"),
    Note("provider.lifecycle:shutdown_retired")]

  /** The terminal record to commit, with the intent written ahead of the release. */
  function Retired(r: Record, release: Option<string>): Record {
    var intent := if release.Some? then [ReleasePending(release.value)] else [];
    r.(active := false, audit := r.audit + intent + RETIRED)
  }

  function Committed(candidate: Record): Record { candidate.(version := candidate.version + 1) }

  /** `mark_admission_release_resolved`: a mark that meets another writer's commit is passed over. */
  function Marked(r: Record, id: string, other: Option<Write>): Record {
    var current := Written(r, other);
    if ReleaseResolved(id) in r.audit then current
    else
      var c := CompareAndSet(current, r.(audit := r.audit + [ReleaseResolved(id)]));
      if c.Ok? then c.value else current
  }

  /** A mark adds one entry at most once: a second mark of the same intent leaves the trail as it is. */
  lemma MarkedOnce(r: Record, id: string)
    ensures var once := Marked(r, id, None);
      && ReleaseResolved(id) in once.audit && Marked(once, id, None) == once
      && once.audit == if ReleaseResolved(id) in r.audit then r.audit else r.audit + [ReleaseResolved(id)]
  {
  }

  /**
   * The world after the first `commits` durable writes of a retirement: the record, the release, the mark. `other` and
   * `otherMark` are commits of other writers before its first and after its first commit, and after that one somebody
   * else may drop what has expired by `later`.
   */
  function RetireTo(
    w: World, session: string, now: nat, later: nat, other: Option<Write>, otherMark: Option<Write>,
        commits: nat): World
    requires session in w.processes
  {
    var r := w.processes[session];
    var live := Live(TableAt(w, r.adapter), now);
    var seen := w.(table := w.table[r.adapter := live]);
    var release := AdmissionRelease(r, live, session);
    if release.Err? || commits == 0 then seen
    else
      var c := CompareAndSet(Written(r, other), Retired(r, release.value));
      if c.Err? then seen.(processes := w.processes[session := Written(r, other)])
      else
        var one := seen.(processes := w.processes[session := c.value]);
        if release.value.None? || commits == 1 then one
        else
          var id := release.value.value;
          var two := one.(table := w.table[r.adapter := WithoutOwned(Live(live, later), id, session)]);
          if commits == 2 then two else two.(processes := w.processes[session := Marked(c.value, id, otherMark)])
  }
}
