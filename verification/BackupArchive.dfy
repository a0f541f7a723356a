/** The backup archive: the printer of the backup service and the parser of the restore side. */
module BackupArchive {
  import opened Text
  import opened Octets
  import opened RestorePlan
  import opened RestoreRollback
  import opened RestoreUndo

  datatype BackupEntry = BackupEntry(path: string, bytes: Bytes, redacted: bool)

  datatype BackupPlan = BackupPlan(
    artifactId: string, requestId: string, generation: string, projectId: string,
    createdBy: string, reason: string, entries: seq<BackupEntry>, dryRun: bool)

  const MAGIC := "eva-backup-archive:v1"

  /** The paths `BackupEntry::new` accepts. */
  predicate ValidBackupPath(path: string) {
    !IsBlank(path) && !ContainsDotDot(path) && '\\' !in path && forall c :: c in path ==> !IsControl(c)
  }

  function BoolText(b: bool): string { if b then "true" else "false" }

  function Pair(key: string, value: string): string { key + ['='] + value }

  const K_PATH := "entry.path"
  const K_SIZE := "entry.size"
  const K_REDACTED := "entry.redacted"
  const K_HEX := "entry.bytes.hex"

  // ---------------------------------------------------------------- printing

  function HeaderLines(plan: BackupPlan): seq<string> {
    [MAGIC, Pair("artifact", plan.artifactId), Pair("request", plan.requestId), Pair("generation", plan.generation),
     Pair("project", plan.projectId), Pair("created_by", plan.createdBy), Pair("reason", plan.reason),
     Pair("dry_run", BoolText(plan.dryRun))]
  }

  function EntryLines(e: BackupEntry): seq<string> {
    [Pair(K_PATH, e.path), Pair(K_SIZE, Decimal(|e.bytes|)), Pair(K_REDACTED, BoolText(e.redacted)),
        Pair(K_HEX, Hex(e.bytes))]
  }

  function AllEntryLines(es: seq<BackupEntry>): seq<string> {
    if es == [] then [] else AllEntryLines(es[..|es| - 1]) + EntryLines(es[|es| - 1])
  }

  function Payload(plan: BackupPlan): string {
    Unlines(HeaderLines(plan) + AllEntryLines(plan.entries))
  }

  /** `backup_archive_payload` */
  method BackupArchivePayload(plan: BackupPlan) returns (payload: string)
    ensures payload == Payload(plan)
  {
    hide HeaderLines, EntryLines, Hex, Unlines;
    payload := Unlines(HeaderLines(plan));
    assert HeaderLines(plan) + [] == HeaderLines(plan);
    for i := 0 to |plan.entries|
      invariant payload == Unlines(HeaderLines(plan) + AllEntryLines(plan.entries[..i]))
    {
      var e := plan.entries[i];
      var hex := HexEncode(e.bytes);
      assert plan.entries[..i + 1][..i] == plan.entries[..i];
      assert HeaderLines(plan) + (AllEntryLines(plan.entries[..i]) + EntryLines(e))
          == HeaderLines(plan) + AllEntryLines(plan.entries[..i]) + EntryLines(e);
      UnlinesAppend(HeaderLines(plan) + AllEntryLines(plan.entries[..i]), EntryLines(e));
      assert EntryLines(e) == [Pair(K_PATH, e.path), Pair(K_SIZE, Decimal(|e.bytes|)),
                               Pair(K_REDACTED, BoolText(e.redacted)), Pair(K_HEX, hex)] by { EntryLinesSpelled(e); }
      payload := payload + Unlines([Pair(K_PATH, e.path), Pair(K_SIZE, Decimal(|e.bytes|)),
                                    Pair(K_REDACTED, BoolText(e.redacted)), Pair(K_HEX, hex)]);
    }
    assert plan.entries[..|plan.entries|] == plan.entries;
  }

  lemma EntryLinesSpelled(e: BackupEntry)
    ensures EntryLines(e) == [Pair(K_PATH, e.path), Pair(K_SIZE, Decimal(|e.bytes|)),
                              Pair(K_REDACTED, BoolText(e.redacted)), Pair(K_HEX, Hex(e.bytes))]
  {
  }

  // ---------------------------------------------------------------- parsing

  datatype Pending = Pending(path: Option<string>, size: Option<nat>, redacted: Option<bool>, bytes: Option<Bytes>) {
    predicate HasAnyField() { path.Some? || size.Some? || redacted.Some? || bytes.Some? }
  }

  const NOTHING := Pending(None, None, None, None)

  /** `PendingArchiveEntry::finish` */
  function Finish(digest: DigestFn, p: Pending): Result<ArchiveEntry> {
    if p.path.None? then Err(Conflict)
    else if !ValidRelativePath(p.path.value) then Err(InvalidArgument)
    else if p.bytes.None? then Err(Conflict)
    else if p.size.None? then Err(Conflict)
    else if |p.bytes.value| != p.size.value then Err(Conflict)
    else Ok(ArchiveEntry(p.path.value, p.bytes.value, digest(p.bytes.value), p.redacted == Some(true)))
  }

  /** The variables of the parse loop. */
  datatype Parse = Parse(entries: Archive, current: Pending)

  /** Completes the pending entry, if there is one. */
  function Flush(digest: DigestFn, st: Parse): Result<Archive> {
    if !st.current.HasAnyField() then Ok(st.entries)
    else
      var entry :- Finish(digest, st.current);
      Ok(st.entries[entry.relativePath := entry])
  }

  function ParseBool(value: string): Result<bool> {
    if value == "true" then Ok(true) else if value == "false" then Ok(false) else Err(Conflict)
  }

  function ParsePair(digest: DigestFn, st: Parse, key: string, value: string): Result<Parse> {
    if key == K_PATH then
      var entries :- Flush(digest, st);
      Ok(Parse(entries, (if st.current.HasAnyField() then NOTHING else st.current).(path := Some(value))))
    else if key == K_SIZE then
      var size := ParseUsize(value);
      if size.None? then Err(Conflict) else Ok(st.(current := st.current.(size := size)))
    else if key == K_REDACTED then
      var redacted :- ParseBool(value);
      Ok(st.(current := st.current.(redacted := Some(redacted))))
    else if key == K_HEX then
      var bytes :- HexDecoded(value);
      Ok(st.(current := st.current.(bytes := Some(bytes))))
    else Ok(st)
  }

  function ParseLine(digest: DigestFn, st: Parse, line: string): Result<Parse> {
    var pair := SplitOnce(line, '=');
    if pair.None? then Err(Conflict) else ParsePair(digest, st, pair.value.0, pair.value.1)
  }

  function ParseLines(digest: DigestFn, st: Parse, lines: seq<string>): Result<Parse>
    decreases |lines|
  {
    if lines == [] then Ok(st)
    else
      var next :- ParseLine(digest, st, lines[0]);
      ParseLines(digest, next, lines[1..])
  }

  const EMPTY := Parse(map[], NOTHING)

  function ParseArchive(digest: DigestFn, payload: string): Result<Archive> {
    var lines := Lines(payload);
    if lines == [] || lines[0] != MAGIC then Err(Unsupported)
    else
      var st :- ParseLines(digest, EMPTY, lines[1..]);
      Flush(digest, st)
  }

  /** `RestorePreRestoreArchive::parse` on the decoded text. */
  method ParsePreRestoreArchive(digest: DigestFn, payload: string) returns (r: Result<Archive>)
    ensures r == ParseArchive(digest, payload)
  {
    hide ParsePair, Flush;
    var lines := Lines(payload);
    if lines == [] || lines[0] != MAGIC { return Err(Unsupported); }
    var st := EMPTY;
    for i := 1 to |lines|
      invariant ParseLines(digest, EMPTY, lines[1..]) == ParseLines(digest, st, lines[i..])
    {
      var next := ParseLine(digest, st, lines[i]);
      assert lines[i..][1..] == lines[i + 1..];
      if next.Err? { return Err(next.error); }
      st := next.value;
    }
    r := Flush(digest, st);
  }

  // ---------------------------------------------------------------- every parsed archive

  predicate GoodArchive(digest: DigestFn, a: Archive) {
    forall p :: p in a ==> a[p].relativePath == p && ValidRelativePath(p) && a[p].digest == digest(a[p].bytes)
  }

  lemma ParsePairKeepsGood(digest: DigestFn, st: Parse, key: string, value: string)
    requires GoodArchive(digest, st.entries)
    ensures var r := ParsePair(digest, st, key, value); r.Ok? ==> GoodArchive(digest, r.value.entries)
  {
    hide ValidRelativePath;
    FlushKeepsGood(digest, st);
  }

  lemma FlushKeepsGood(digest: DigestFn, st: Parse)
    requires GoodArchive(digest, st.entries)
    ensures var r := Flush(digest, st); r.Ok? ==> GoodArchive(digest, r.value)
  {
    hide ValidRelativePath;
  }

  lemma {:induction false} ParseLinesKeepsGood(digest: DigestFn, st: Parse, lines: seq<string>)
    requires GoodArchive(digest, st.entries)
    ensures var r := ParseLines(digest, st, lines); r.Ok? ==> GoodArchive(digest, r.value.entries)
    decreases |lines|
  {
    hide GoodArchive, ParsePair;
    if lines != [] {
      var pair := SplitOnce(lines[0], '=');
      if pair.Some? {
        ParsePairKeepsGood(digest, st, pair.value.0, pair.value.1);
        var next := ParseLine(digest, st, lines[0]);
        if next.Ok? { ParseLinesKeepsGood(digest, next.value, lines[1..]); }
      }
    }
  }

  /** Whatever text it accepts, the parser returns recomputed digests under valid paths: the
      archive is honest in the sense the undo theorem needs. */
  lemma ParsedArchiveIsHonest(digest: DigestFn, payload: string)
    requires ParseArchive(digest, payload).Ok?
    ensures GoodArchive(digest, ParseArchive(digest, payload).value)
    ensures HonestArchive(digest, ParseArchive(digest, payload).value)
  {
    hide ParsePair, Flush, ValidRelativePath;
    var lines := Lines(payload);
    assert GoodArchive(digest, EMPTY.entries);
    ParseLinesKeepsGood(digest, EMPTY, lines[1..]);
    FlushKeepsGood(digest, ParseLines(digest, EMPTY, lines[1..]).value);
  }

  // ---------------------------------------------------------------- round trip

  function AsArchived(digest: DigestFn, e: BackupEntry): ArchiveEntry {
    ArchiveEntry(e.path, e.bytes, digest(e.bytes), e.redacted)
  }

  /** Later entries of a path replace earlier ones. */
  function LastEntries(digest: DigestFn, es: seq<BackupEntry>): Archive {
    if es == [] then map[]
    else LastEntries(digest, es[..|es| - 1])[es[|es| - 1].path := AsArchived(digest, es[|es| - 1])]
  }

  /** That is: the paths of the plan, ... */
  lemma {:induction false} LastEntriesPaths(digest: DigestFn, es: seq<BackupEntry>, path: string)
    ensures path in LastEntries(digest, es) <==> exists e :: e in es && e.path == path
  {
    hide AsArchived;
    if es != [] {
      var front, last := es[..|es| - 1], es[|es| - 1];
      LastEntriesPaths(digest, front, path);
      assert forall e :: e in es <==> e in front || e == last;
    }
  }

  /** ... each with the entry after which its path does not occur again. */
  lemma {:induction false} LastEntryWins(digest: DigestFn, es: seq<BackupEntry>, i: nat)
    requires i < |es| && forall j :: i < j < |es| ==> es[j].path != es[i].path
    ensures es[i].path in LastEntries(digest, es)
    ensures LastEntries(digest, es)[es[i].path] == AsArchived(digest, es[i])
  {
    hide AsArchived;
    if i < |es| - 1 {
      LastEntryWins(digest, es[..|es| - 1], i);
    }
  }

  predicate PrintableEntry(e: BackupEntry) {
    ValidBackupPath(e.path) && ValidRelativePath(e.path) && |e.bytes| <= USIZE_MAX
  }

  predicate PrintablePlan(plan: BackupPlan) {
    && IsLine(plan.artifactId) && IsLine(plan.requestId) && IsLine(plan.generation)
    && IsLine(plan.projectId) && IsLine(plan.createdBy) && IsLine(plan.reason)
    && forall e :: e in plan.entries ==> PrintableEntry(e)
  }

  function FullPending(e: BackupEntry): Pending {
    Pending(Some(e.path), Some(|e.bytes|), Some(e.redacted), Some(e.bytes))
  }

  lemma ReadPair(digest: DigestFn, st: Parse, key: string, value: string)
    requires '=' !in key
    ensures ParseLine(digest, st, Pair(key, value)) == ParsePair(digest, st, key, value)
  {
    hide ParsePair;
    SplitOnceKey(key, '=', value);
  }

  lemma KeysDiffer()
    ensures K_PATH != K_SIZE && K_PATH != K_REDACTED && K_PATH != K_HEX
    ensures K_SIZE != K_REDACTED && K_SIZE != K_HEX && K_REDACTED != K_HEX
    ensures '=' !in K_PATH && '=' !in K_SIZE && '=' !in K_REDACTED && '=' !in K_HEX
  {
    assert K_PATH[6] == 'p' && K_SIZE[6] == 's' && K_REDACTED[6] == 'r' && K_HEX[6] == 'b';
  }

  lemma ReadPath(digest: DigestFn, st: Parse, value: string)
    ensures ParseLine(digest, st, Pair(K_PATH, value)) ==
      var f := Flush(digest, st);
      if f.Err? then Err(f.error) else Ok(Parse(f.value, NOTHING.(path := Some(value))))
  {
    hide Flush;
    KeysDiffer();
    ReadPair(digest, st, K_PATH, value);
  }

  lemma ReadSize(digest: DigestFn, st: Parse, n: nat)
    requires n <= USIZE_MAX
    ensures ParseLine(digest, st, Pair(K_SIZE, Decimal(n))) == Ok(st.(current := st.current.(size := Some(n))))
  {
    hide Flush, Decimal, ParseUsize;
    KeysDiffer();
    ParseUsizeOfDecimal(n);
    ReadPair(digest, st, K_SIZE, Decimal(n));
  }

  lemma ReadRedacted(digest: DigestFn, st: Parse, b: bool)
    ensures ParseLine(digest, st, Pair(K_REDACTED, BoolText(b))) == Ok(st.(current := st.current.(redacted := Some(b))))
  {
    hide Flush;
    KeysDiffer();
    assert "true"[0] == 't' && "false"[0] == 'f';
    ReadPair(digest, st, K_REDACTED, BoolText(b));
  }

  lemma ReadHex(digest: DigestFn, st: Parse, bytes: Bytes)
    ensures ParseLine(digest, st, Pair(K_HEX, Hex(bytes))) == Ok(st.(current := st.current.(bytes := Some(bytes))))
  {
    hide Flush, Hex, HexDecoded;
    KeysDiffer();
    HexRoundTrip(bytes);
    ReadPair(digest, st, K_HEX, Hex(bytes));
  }

  lemma ReadEntry(digest: DigestFn, st: Parse, e: BackupEntry)
    requires |e.bytes| <= USIZE_MAX
    ensures ParseLines(digest, st, EntryLines(e)) ==
      var f := Flush(digest, st);
      if f.Err? then Err(f.error) else Ok(Parse(f.value, FullPending(e)))
  {
    hide ParseLine, Flush, Hex, Decimal, BoolText, Pair;
    var ls := EntryLines(e);
    ReadPath(digest, st, e.path);
    var f := Flush(digest, st);
    assert ls[1..] == [ls[1], ls[2], ls[3]];
    if f.Ok? {
      var s1 := Parse(f.value, NOTHING.(path := Some(e.path)));
      ReadSize(digest, s1, |e.bytes|);
      var s2 := s1.(current := s1.current.(size := Some(|e.bytes|)));
      ReadRedacted(digest, s2, e.redacted);
      var s3 := s2.(current := s2.current.(redacted := Some(e.redacted)));
      ReadHex(digest, s3, e.bytes);
      FourLines(digest, st, ls, s1, s2, s3, Parse(f.value, FullPending(e)));
    }
  }

  lemma FourLines(digest: DigestFn, st: Parse, ls: seq<string>, s1: Parse, s2: Parse, s3: Parse, s4: Parse)
    requires |ls| == 4
    requires ParseLine(digest, st, ls[0]) == Ok(s1) && ParseLine(digest, s1, ls[1]) == Ok(s2)
    requires ParseLine(digest, s2, ls[2]) == Ok(s3) && ParseLine(digest, s3, ls[3]) == Ok(s4)
    ensures ParseLines(digest, st, ls) == Ok(s4)
  {
    hide ParseLine;
    assert ls[1..][1..][1..][1..] == [];
    assert ParseLines(digest, s3, ls[1..][1..][1..]) == Ok(s4);
    assert ParseLines(digest, s2, ls[1..][1..]) == Ok(s4);
  }

  lemma {:induction false} ParseLinesAppend(digest: DigestFn, st: Parse, a: seq<string>, b: seq<string>)
    ensures ParseLines(digest, st, a + b) ==
      var mid := ParseLines(digest, st, a); if mid.Err? then mid else ParseLines(digest, mid.value, b)
    decreases |a|
  {
    hide ParseLine;
    if a == [] {
      assert a + b == b;
    } else {
      assert (a + b)[1..] == a[1..] + b;
      var next := ParseLine(digest, st, a[0]);
      if next.Ok? { ParseLinesAppend(digest, next.value, a[1..], b); }
    }
  }

  /** After the lines of some entries, all but the last are stored and the last is pending. */
  function StateAfter(digest: DigestFn, es: seq<BackupEntry>): Parse {
    if es == [] then EMPTY
    else Parse(LastEntries(digest, es[..|es| - 1]), FullPending(es[|es| - 1]))
  }

  lemma FlushAfter(digest: DigestFn, es: seq<BackupEntry>)
    requires forall e :: e in es ==> PrintableEntry(e)
    ensures Flush(digest, StateAfter(digest, es)) == Ok(LastEntries(digest, es))
  {
    hide ValidRelativePath, ValidBackupPath;
    if es != [] {
      var e := es[|es| - 1];
      assert PrintableEntry(e);
      assert Finish(digest, FullPending(e)) == Ok(AsArchived(digest, e));
    }
  }

  lemma {:induction false} ReadEntries(digest: DigestFn, es: seq<BackupEntry>)
    requires forall e :: e in es ==> PrintableEntry(e)
    ensures ParseLines(digest, EMPTY, AllEntryLines(es)) == Ok(StateAfter(digest, es))
  {
    hide EntryLines, Flush, LastEntries, FullPending, ParseLine;
    if es != [] {
      var front, e := es[..|es| - 1], es[|es| - 1];
      ReadEntries(digest, front);
      FlushAfter(digest, front);
      ParseLinesAppend(digest, EMPTY, AllEntryLines(front), EntryLines(e));
      assert PrintableEntry(e);
      ReadEntry(digest, StateAfter(digest, front), e);
    }
  }

  predicate HeaderKey(key: string) {
    '=' !in key && '\n' !in key && key != K_PATH && key != K_SIZE && key != K_REDACTED && key != K_HEX
  }

  lemma SkipPair(digest: DigestFn, st: Parse, key: string, value: string)
    requires HeaderKey(key)
    ensures ParseLine(digest, st, Pair(key, value)) == Ok(st)
  {
    hide Flush;
    ReadPair(digest, st, key, value);
  }

  lemma OtherKey(key: string)
    requires key != "" && key[0] != 'e' && '=' !in key && '\n' !in key
    ensures HeaderKey(key)
  {
    assert K_PATH[0] == 'e' && K_SIZE[0] == 'e' && K_REDACTED[0] == 'e' && K_HEX[0] == 'e';
  }

  lemma HeaderKeys()
    ensures HeaderKey("artifact") && HeaderKey("request") && HeaderKey("generation") && HeaderKey("project")
    ensures HeaderKey("created_by") && HeaderKey("reason") && HeaderKey("dry_run")
  {
    hide HeaderKey;
    OtherKey("artifact");
    OtherKey("request");
    OtherKey("generation");
    OtherKey("project");
    OtherKey("created_by");
    OtherKey("reason");
    OtherKey("dry_run");
  }

  lemma {:induction false} SkipLines(digest: DigestFn, st: Parse, ls: seq<string>)
    requires forall l :: l in ls ==> ParseLine(digest, st, l) == Ok(st)
    ensures ParseLines(digest, st, ls) == Ok(st)
    decreases |ls|
  {
    hide ParseLine;
    if ls != [] { SkipLines(digest, st, ls[1..]); }
  }

  lemma SkipHeader(digest: DigestFn, plan: BackupPlan)
    ensures ParseLines(digest, EMPTY, HeaderLines(plan)[1..]) == Ok(EMPTY)
  {
    hide ParseLine, HeaderKey, Pair, BoolText;
    HeaderKeys();
    SkipPair(digest, EMPTY, "artifact", plan.artifactId);
    SkipPair(digest, EMPTY, "request", plan.requestId);
    SkipPair(digest, EMPTY, "generation", plan.generation);
    SkipPair(digest, EMPTY, "project", plan.projectId);
    SkipPair(digest, EMPTY, "created_by", plan.createdBy);
    SkipPair(digest, EMPTY, "reason", plan.reason);
    SkipPair(digest, EMPTY, "dry_run", BoolText(plan.dryRun));
    SkipLines(digest, EMPTY, HeaderLines(plan)[1..]);
  }

  lemma PairIsLine(key: string, value: string)
    requires '\n' !in key && IsLine(value)
    ensures IsLine(Pair(key, value))
  {
  }

  lemma EntryLinesAreLines(e: BackupEntry)
    requires PrintableEntry(e)
    ensures forall l :: l in EntryLines(e) ==> IsLine(l)
  {
    hide Decimal, Hex, ValidRelativePath, IsBlank, ContainsDotDot;
    assert IsControl('\n') && IsControl('\r');
    assert '\n' !in e.path && '\r' !in e.path;
    assert !IsDigit('\n') && !IsDigit('\r') && !IsHexDigit('\n') && !IsHexDigit('\r');
    assert IsLine(Decimal(|e.bytes|)) && IsLine(Hex(e.bytes)) && IsLine(BoolText(e.redacted)) && IsLine(e.path);
    hide IsLine, BoolText, Pair;
    assert '\n' !in K_PATH && '\n' !in K_SIZE && '\n' !in K_REDACTED && '\n' !in K_HEX;
    PairIsLine(K_PATH, e.path);
    PairIsLine(K_SIZE, Decimal(|e.bytes|));
    PairIsLine(K_REDACTED, BoolText(e.redacted));
    PairIsLine(K_HEX, Hex(e.bytes));
  }

  lemma {:induction false} AllEntryLinesAreLines(es: seq<BackupEntry>)
    requires forall e :: e in es ==> PrintableEntry(e)
    ensures forall l :: l in AllEntryLines(es) ==> IsLine(l)
  {
    hide PrintableEntry, IsLine, EntryLines;
    if es != [] {
      AllEntryLinesAreLines(es[..|es| - 1]);
      EntryLinesAreLines(es[|es| - 1]);
    }
  }

  lemma HeaderLinesAreLines(plan: BackupPlan)
    requires PrintablePlan(plan)
    ensures forall l :: l in HeaderLines(plan) ==> IsLine(l)
  {
    assert IsLine(MAGIC) && IsLine(BoolText(plan.dryRun));
    hide IsLine, BoolText, Pair, PrintableEntry;
    HeaderKeys();
    PairIsLine("artifact", plan.artifactId);
    PairIsLine("request", plan.requestId);
    PairIsLine("generation", plan.generation);
    PairIsLine("project", plan.projectId);
    PairIsLine("created_by", plan.createdBy);
    PairIsLine("reason", plan.reason);
    PairIsLine("dry_run", BoolText(plan.dryRun));
  }

  /** Parsing the payload of a plan returns exactly each path's last entry, with its bytes, the
      recomputed digest and the redacted flag. */
  lemma ArchiveRoundTrip(digest: DigestFn, plan: BackupPlan)
    requires PrintablePlan(plan)
    ensures ParseArchive(digest, Payload(plan)) == Ok(LastEntries(digest, plan.entries))
  {
    hide PrintableEntry, AllEntryLines, ParseLines, LastEntries, Flush, IsLine, StateAfter, Pair, BoolText;
    HeaderLinesAreLines(plan);
    AllEntryLinesAreLines(plan.entries);
    var h, body := HeaderLines(plan), AllEntryLines(plan.entries);
    LinesOfUnlines(h + body);
    assert (h + body)[1..] == h[1..] + body;
    SkipHeader(digest, plan);
    ReadEntries(digest, plan.entries);
    ParseLinesAppend(digest, EMPTY, h[1..], body);
    FlushAfter(digest, plan.entries);
  }
}
