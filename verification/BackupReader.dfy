/** What the reader of the pre-restore archive makes of any text. */
module BackupReader {
  import opened Text
  import opened Octets
  import opened RestorePlan
  import opened RestoreRollback
  import opened BackupArchive
  import opened KeyedLines

  /** A `key=value` line whose value can be read, if the key is one of an entry. */
  predicate Readable(line: string) {
    && SplitOnce(line, '=').Some?
    && (Names(line, "entry.size") ==> ParseUsize(ValueOf(line)).Some?)
    && (Names(line, "entry.redacted") ==> ValueOf(line) in {"true", "false"})
    && (Names(line, "entry.bytes.hex") ==> HexDecoded(ValueOf(line)).Ok?)
  }

  // ---------------------------------------------------------------- entries are runs of lines

  /** Where the last entry starts: at the last line that names a path. */
  function LastStart(lines: seq<string>): (i: nat)
    ensures i <= |lines| && (lines != [] ==> i < |lines|)
  {
    if lines == [] then 0
    else if Names(lines[|lines| - 1], "entry.path") then |lines| - 1
    else LastStart(lines[..|lines| - 1])
  }

  function LastEntry(lines: seq<string>): seq<string> { lines[LastStart(lines)..] }
  function Earlier(lines: seq<string>): seq<string> { lines[..LastStart(lines)] }

  predicate Mentions(lines: seq<string>, key: string) { LastValue(lines, key).Some? }

  predicate AnyField(entry: seq<string>) {
    || Mentions(entry, "entry.path") || Mentions(entry, "entry.size") || Mentions(entry, "entry.redacted")
    || Mentions(entry, "entry.bytes.hex")
  }

  function SizeOf(entry: seq<string>): Option<nat> {
    var v := LastValue(entry, "entry.size");
    if v.None? then None else ParseUsize(v.value)
  }

  function BytesOf(entry: seq<string>): Option<Bytes> {
    var v := LastValue(entry, "entry.bytes.hex");
    if v.None? || HexDecoded(v.value).Err? then None else Some(HexDecoded(v.value).value)
  }

  /** A path that stays below the root, and as many bytes as the size says. */
  predicate CompleteEntry(entry: seq<string>) {
    && Mentions(entry, "entry.path") && ValidRelativePath(LastValue(entry, "entry.path").value)
    && BytesOf(entry).Some? && SizeOf(entry) == Some(|BytesOf(entry).value|)
  }

  predicate Complete(lines: seq<string>)
    decreases |lines|
  {
    || lines == []
    || (Complete(Earlier(lines)) && (AnyField(LastEntry(lines)) ==> CompleteEntry(LastEntry(lines))))
  }

  function EntryOf(digest: DigestFn, entry: seq<string>): ArchiveEntry
    requires CompleteEntry(entry)
  {
    var bytes := BytesOf(entry).value;
    ArchiveEntry(LastValue(entry, "entry.path").value, bytes, digest(bytes),
                 LastValue(entry, "entry.redacted") == Some("true"))
  }

  /** The entries by path; a later entry of a path replaces an earlier one. */
  function ArchiveOf(digest: DigestFn, lines: seq<string>): Archive
    requires Complete(lines)
    decreases |lines|
  {
    if lines == [] then map[]
    else if !AnyField(LastEntry(lines)) then ArchiveOf(digest, Earlier(lines))
    else
      ArchiveOf(digest, Earlier(lines))[LastValue(LastEntry(lines), "entry.path").value
                                        := EntryOf(digest, LastEntry(lines))]
  }

  // ---------------------------------------------------------------- the loop

  predicate Holds(p: Pending, entry: seq<string>) {
    && p.path == LastValue(entry, "entry.path") && p.size == SizeOf(entry) && p.bytes == BytesOf(entry)
    && p.redacted.Some? == Mentions(entry, "entry.redacted")
    && (p.redacted == Some(true) <==> LastValue(entry, "entry.redacted") == Some("true"))
    && (p.size.Some? <==> Mentions(entry, "entry.size")) && (p.bytes.Some? <==> Mentions(entry, "entry.bytes.hex"))
  }

  predicate Holding(digest: DigestFn, st: Parse, lines: seq<string>) {
    && Complete(Earlier(lines)) && st.entries == ArchiveOf(digest, Earlier(lines))
    && Holds(st.current, LastEntry(lines))
  }

  lemma FinishExactly(digest: DigestFn, p: Pending, entry: seq<string>)
    requires Holds(p, entry)
    ensures p.HasAnyField() <==> AnyField(entry)
    ensures Finish(digest, p).Ok? <==> CompleteEntry(entry)
    ensures Finish(digest, p).Ok? ==> Finish(digest, p).value == EntryOf(digest, entry)
  {
    hide LastValue, SizeOf, BytesOf, ValidRelativePath;
  }

  lemma FlushExactly(digest: DigestFn, st: Parse, lines: seq<string>)
    requires Holding(digest, st, lines)
    ensures Flush(digest, st).Ok? <==> Complete(lines)
    ensures Flush(digest, st).Ok? ==> Flush(digest, st).value == ArchiveOf(digest, lines)
  {
    hide LastValue, SizeOf, BytesOf, CompleteEntry, Finish, Holds, AnyField, LastStart;
    FinishExactly(digest, st.current, LastEntry(lines));
    if lines == [] { NoLines(); }
  }

  lemma NoLines()
    ensures !AnyField([])
  {
  }

  lemma KeysDiffer()
    ensures "entry.path" != "entry.size" && "entry.path" != "entry.redacted" && "entry.path" != "entry.bytes.hex"
    ensures "entry.size" != "entry.redacted" && "entry.size" != "entry.bytes.hex"
    ensures "entry.redacted" != "entry.bytes.hex"
  {
    assert "entry.path"[6] == 'p' && "entry.size"[6] == 's' && "entry.redacted"[6] == 'r';
    assert "entry.bytes.hex"[6] == 'b';
  }

  lemma StartsAfter(lines: seq<string>, l: string)
    ensures Names(l, "entry.path") ==> Earlier(lines + [l]) == lines && LastEntry(lines + [l]) == [l]
    ensures !Names(l, "entry.path") ==>
            Earlier(lines + [l]) == Earlier(lines) && LastEntry(lines + [l]) == LastEntry(lines) + [l]
  {
    hide Names;
    assert (lines + [l])[..|lines|] == lines;
  }

  lemma FieldsAfter(entry: seq<string>, l: string)
    ensures forall key ::
      LastValue(entry + [l], key) == if Names(l, key) then Some(ValueOf(l)) else LastValue(entry, key)
  {
    hide SplitOnce, LastValue;
    forall key
      ensures LastValue(entry + [l], key) == if Names(l, key) then Some(ValueOf(l)) else LastValue(entry, key)
    {
      LastValueAppend(entry, l, key);
    }
  }

  /** A line that names no path goes on with the entry in hand. */
  lemma FieldLine(digest: DigestFn, st: Parse, entry: seq<string>, l: string)
    requires Holds(st.current, entry) && !Names(l, "entry.path")
    ensures ParseLine(digest, st, l).Ok? <==> Readable(l)
    ensures ParseLine(digest, st, l).Ok? ==>
      ParseLine(digest, st, l).value.entries == st.entries && Holds(ParseLine(digest, st, l).value.current, entry + [l])
  {
    hide LastValue, ParseUsize, HexDecoded, SplitOnce, Flush;
    KeysDiffer();
    FieldsAfter(entry, l);
  }

  /** A line that names a path completes the entry in hand and starts the next. */
  lemma PathLine(digest: DigestFn, st: Parse, lines: seq<string>, l: string)
    requires Holding(digest, st, lines) && Names(l, "entry.path")
    ensures ParseLine(digest, st, l).Ok? <==> Complete(lines)
    ensures ParseLine(digest, st, l).Ok? ==> ParseLine(digest, st, l).value.entries == ArchiveOf(digest, lines)
    ensures ParseLine(digest, st, l).Ok? ==> Holds(ParseLine(digest, st, l).value.current, [l])
    ensures Readable(l)
  {
    hide Flush, SplitOnce, ArchiveOf, Complete, LastValue, ParseUsize, HexDecoded, LastStart;
    FlushExactly(digest, st, lines);
    FinishExactly(digest, st.current, LastEntry(lines));
    KeysDiffer();
    LastOfOne(l);
  }

  lemma LastOfOne(l: string)
    ensures forall key :: LastValue([l], key) == if Names(l, key) then Some(ValueOf(l)) else None
  {
    assert [l][..0] == [];
  }

  lemma {:induction false} LinesExactly(digest: DigestFn, lines: seq<string>)
    ensures var r := ParseLines(digest, EMPTY, lines);
      && (r.Ok? <==> (forall l :: l in lines ==> Readable(l)) && Complete(Earlier(lines)))
      && (r.Ok? ==> Holding(digest, r.value, lines))
  {
    hide ParseLine, Readable, Complete, Holding, Earlier;
    if lines == [] {
      AtStart(digest);
    } else {
      var n := |lines| - 1;
      var front, l := lines[..n], lines[n];
      assert lines == front + [l];
      assert forall x :: x in lines <==> x in front || x == l;
      LinesExactly(digest, front);
      ParseLinesAppend(digest, EMPTY, front, [l]);
      assert [l][1..] == [];
      var mid := ParseLines(digest, EMPTY, front);
      if mid.Ok? { LineExactly(digest, mid.value, front, l); } else { EarlierGrows(front, l); }
    }
  }

  lemma AtStart(digest: DigestFn)
    ensures Complete(Earlier([])) && Holding(digest, EMPTY, [])
  {
  }

  /** What is complete with one line more was complete before. */
  lemma EarlierGrows(front: seq<string>, l: string)
    ensures Complete(Earlier(front + [l])) ==> Complete(Earlier(front))
  {
    hide Names, CompleteEntry, AnyField;
    StartsAfter(front, l);
    if Names(l, "entry.path") && front == [] { assert Earlier(front) == []; }
  }

  lemma LineExactly(digest: DigestFn, st: Parse, front: seq<string>, l: string)
    requires Holding(digest, st, front)
    ensures ParseLine(digest, st, l).Ok? <==> Readable(l) && Complete(Earlier(front + [l]))
    ensures ParseLine(digest, st, l).Ok? ==> Holding(digest, ParseLine(digest, st, l).value, front + [l])
  {
    hide ParseLine, Readable, Complete, Holds, LastStart, Names, ArchiveOf;
    StartsAfter(front, l);
    if Names(l, "entry.path") { PathLine(digest, st, front, l); }
    else { FieldLine(digest, st, LastEntry(front), l); }
  }

  /**
   * For every text: it is read as an archive exactly when it starts with the format's name, every further line is
   * readable and every entry is complete; and then it is the archive of those entries.
   */
  lemma ParseArchiveExactly(digest: DigestFn, payload: string)
    ensures var ls := Lines(payload);
      && (ParseArchive(digest, payload).Ok? <==>
          && ls != [] && ls[0] == "eva-backup-archive:v1" && (forall l :: l in ls[1..] ==> Readable(l))
          && Complete(ls[1..]))
      && (ParseArchive(digest, payload).Ok? ==>
          ParseArchive(digest, payload).value == ArchiveOf(digest, ls[1..]))
  {
    hide ParseLines, Lines, Readable, Complete, Holding, Flush, Earlier, ArchiveOf;
    var ls := Lines(payload);
    if ls != [] {
      LinesExactly(digest, ls[1..]);
      var st := ParseLines(digest, EMPTY, ls[1..]);
      if st.Ok? { FlushExactly(digest, st.value, ls[1..]); } else { EarlierOf(ls[1..]); }
    }
  }

  lemma EarlierOf(lines: seq<string>)
    ensures Complete(lines) ==> Complete(Earlier(lines))
  {
    hide CompleteEntry, AnyField;
    if lines == [] { assert Earlier(lines) == []; }
  }
}
