/** The transaction log of the forward engine: what it writes, how it is read back, and the
    rollback candidates derived from it. */
module RestoreLog {
  import opened Text
  import opened Octets
  import opened RestorePlan
  import opened RestoreDisk
  import opened RestoreApply

  datatype Entry = Entry(
    sequence: nat,
    operation: string,
    relativePath: string,
    status: string,
    digest: Option<string>,
    message: Option<string>)

  const VERSION_LINE := "restore-mutation-transaction:v1"
  const STARTED := "started"
  const COMMITTED := "committed"
  const FAILED := "failed"
  const NONE := "none"
  const APPLIED := "applied"
  const ROLLBACK_REQUIRED := "rollback_required"

  // ---------------------------------------------------------------- printing

  /** The character that stands for one with a meaning in the log. */
  function Safe(c: char): char { if c == '\n' || c == '\r' || c == '|' then '_' else c }

  /** `stable_log_value` */
  function Stable(s: string): (r: string)
    ensures |r| == |s|
    ensures '\n' !in r && '\r' !in r && '|' !in r
    ensures '\n' !in s && '\r' !in s && '|' !in s ==> r == s
  {
    if s == "" then ""
    else [Safe(s[0])] + Stable(s[1..])
  }

  lemma {:induction false} StableAt(s: string)
    ensures forall i :: 0 <= i < |s| ==> Stable(s)[i] == Safe(s[i])
    ensures forall i :: 0 <= i < |s| ==> Stable(s)[i] == if s[i] in {'\n', '\r', '|'} then '_' else s[i]
  {
    if s != "" {
      StableAt(s[1..]);
      assert forall i :: 0 < i < |s| ==> s[i] == s[1..][i - 1] && Stable(s)[i] == Stable(s[1..])[i - 1];
    }
  }

  function StableAll(parts: seq<string>): (r: seq<string>)
    ensures |r| == |parts| && forall i :: 0 <= i < |parts| ==> r[i] == Stable(parts[i])
  {
    if parts == [] then [] else [Stable(parts[0])] + StableAll(parts[1..])
  }

  /** Sanitising keeps the components of a path apart. */
  lemma {:induction false} SplitStable(s: string)
    ensures Split(Stable(s), '/') == StableAll(Split(s, '/'))
    decreases |s|
  {
    hide Stable, IndexOf;
    var t, i := Stable(s), IndexOf(s, '/');
    assert IndexOf(t, '/') == i by {
      StableAt(s);
      SameIndex(s, t);
    }
    if i == |s| {
      assert Split(s, '/')[1..] == [];
    } else {
      StablePart(s, 0, i);
      StablePart(s, i + 1, |s|);
      SplitStable(s[i + 1..]);
      assert s[i + 1..|s|] == s[i + 1..] && t[i + 1..|s|] == t[i + 1..] && s[0..i] == s[..i] && t[0..i] == t[..i];
      assert ([s[..i]] + Split(s[i + 1..], '/'))[1..] == Split(s[i + 1..], '/');
    }
  }

  lemma {:induction false} SameIndex(s: string, t: string)
    requires |s| == |t| && forall i :: 0 <= i < |s| ==> (t[i] == '/' <==> s[i] == '/')
    ensures IndexOf(t, '/') == IndexOf(s, '/')
  {
    if s != "" && s[0] != '/' { SameIndex(s[1..], t[1..]); }
  }

  lemma StablePart(s: string, i: nat, j: nat)
    requires i <= j <= |s|
    ensures Stable(s)[i..j] == Stable(s[i..j])
  {
    hide Stable;
    StableAt(s);
    StableAt(s[i..j]);
  }

  /** Nothing but itself is sanitised to an empty component or to dots. */
  lemma StableIsDots(v: string)
    ensures (Stable(v) == "" ==> v == "") && (Stable(v) == "." ==> v == ".") && (Stable(v) == ".." ==> v == "..")
  {
    hide Stable;
    StableAt(v);
  }

  /** A valid path that is sanitised is still one. */
  lemma StableKeepsValid(v: string)
    requires ValidRelativePath(v)
    ensures ValidRelativePath(Stable(v))
  {
    hide Stable, Split, StableAll;
    StableAt(v);
    SplitStable(v);
    var a, b := Split(v, '/'), Split(Stable(v), '/');
    forall x | x in b ensures x != "" && x != ".." {
      var i :| 0 <= i < |b| && b[i] == x;
      StableIsDots(a[i]);
      assert a[i] in a;
    }
    StableIsDots(a[0]);
    assert Stable(v)[0] in Stable(v);
  }

  function OrNone(v: Option<string>): string {
    if v.Some? then v.value else NONE
  }

  function BoolText(b: bool): string { if b then "true" else "false" }

  function Fields(e: Entry): (fs: seq<string>)
    ensures |fs| == 6
  {
    [Decimal(e.sequence), Stable(e.operation), Stable(e.relativePath), Stable(e.status), OrNone(e.digest),
     if e.message.Some? then Stable(e.message.value) else NONE]
  }

  function StepValue(e: Entry): string { Join(Fields(e), '|') }

  function EntryLine(e: Entry): string { "step" + ['='] + StepValue(e) }

  function HeaderLines(plan: StagedPlan, root: string): seq<string> {
    [VERSION_LINE, "plan_id" + ['='] + plan.planId, "target_root" + ['='] + root,
     "preflight_hash" + ['='] + plan.preflightHash]
  }

  function StatusLines(status: string, executed: bool): seq<string> {
    ["status" + ['='] + Stable(status), "mutation_executed" + ['='] + BoolText(executed)]
  }

  function EntryLines(es: seq<Entry>): (ls: seq<string>)
    ensures |ls| == |es|
  {
    if es == [] then [] else EntryLines(es[..|es| - 1]) + [EntryLine(es[|es| - 1])]
  }

  // ---------------------------------------------------------------- what a run writes

  function StartedEntry(sequence: nat, step: Step): Entry {
    Entry(sequence, OperationName(step.operation), step.relativePath, STARTED, None, None)
  }

  /** The entry written after a step; `describe` gives the text of its error. */
  function OutcomeEntry(sequence: nat, step: Step, r: StepResult, describe: nat -> string): Entry {
    match r
    case Committed(digest) => Entry(sequence, OperationName(step.operation), step.relativePath, COMMITTED, digest, None)
    case Aborted(_, _) =>
      Entry(sequence, OperationName(step.operation), step.relativePath, FAILED, None, Some(describe(sequence)))
  }

  /** The entries of the first `|rs|` steps. */
  function RunEntries(steps: seq<Step>, rs: seq<StepResult>, describe: nat -> string): (es: seq<Entry>)
    requires |rs| <= |steps|
    ensures |es| == 2 * |rs|
  {
    if rs == [] then [] else
    var k := |rs| - 1;
    RunEntries(steps, rs[..k], describe) + [StartedEntry(k, steps[k]), OutcomeEntry(k, steps[k], rs[k], describe)]
  }

  /** A run writes two entries for each step it reached: that it started, and that it was committed or failed. */
  lemma {:induction false} RunEntriesTell(steps: seq<Step>, rs: seq<StepResult>, describe: nat -> string, k: nat)
    requires k < |rs| <= |steps|
    ensures var es, s := RunEntries(steps, rs, describe), steps[k];
      var name := match s.operation case Copy => "copy" case Delete => "delete" case Replace => "replace";
      && es[2 * k] == Entry(k, name, s.relativePath, "started", None, None)
      && es[2 * k + 1] ==
         (match rs[k]
          case Committed(digest) => Entry(k, name, s.relativePath, "committed", digest, None)
          case Aborted(_, _) => Entry(k, name, s.relativePath, "failed", None, Some(describe(k))))
  {
    if k < |rs| - 1 { RunEntriesTell(steps, rs[..|rs| - 1], describe, k); }
  }

  function FinalStatus(rs: seq<StepResult>): string {
    if EndsAborted(rs) then ROLLBACK_REQUIRED else APPLIED
  }

  function LogLines(plan: StagedPlan, root: string, rs: seq<StepResult>, describe: nat -> string): seq<string>
    requires |rs| <= |plan.steps|
  {
    HeaderLines(plan, root) + EntryLines(RunEntries(plan.steps, rs, describe)) + StatusLines(FinalStatus(rs),
        Executed(rs))
  }

  // ---------------------------------------------------------------- parsing

  datatype ParsedLog = ParsedLog(
    planId: string, preflightHash: string, status: string, mutationExecuted: bool, entries: seq<Entry>)

  /** The variables of the parse loop. */
  datatype Partial = Partial(
    planId: Option<string>, preflightHash: Option<string>, status: Option<string>,
    mutationExecuted: Option<bool>, entries: seq<Entry>)

  const START := Partial(None, None, None, None, [])

  /** `parse_restore_transaction_step` */
  function ParseStep(value: string): Result<Entry> {
    var parts := Split(value, '|');
    if |parts| != 6 then Err(Conflict)
    else if ParseUsize(parts[0]).None? then Err(Conflict)
    else if !ValidRelativePath(parts[2]) then Err(InvalidArgument)
    else if parts[4] != NONE && !ValidDigest(parts[4]) then Err(InvalidArgument)
    else
      Ok(Entry(ParseUsize(parts[0]).value, parts[1], parts[2], parts[3],
               if parts[4] == NONE then None else Some(parts[4]),
               if parts[5] == NONE then None else Some(parts[5])))
  }

  function ParseBool(value: string): Result<bool> {
    if value == "true" then Ok(true) else if value == "false" then Ok(false) else Err(Conflict)
  }

  /** One `key=value` pair; the last value of a key wins, unknown keys are skipped. */
  function ParsePair(st: Partial, key: string, value: string): Result<Partial> {
    if key == "plan_id" then Ok(st.(planId := Some(value)))
    else if key == "preflight_hash" then Ok(st.(preflightHash := Some(value)))
    else if key == "status" then Ok(st.(status := Some(value)))
    else if key == "mutation_executed" then
      var b :- ParseBool(value);
      Ok(st.(mutationExecuted := Some(b)))
    else if key == "step" then
      var e :- ParseStep(value);
      Ok(st.(entries := st.entries + [e]))
    else Ok(st)
  }

  function ParseLine(st: Partial, line: string): Result<Partial> {
    if line == VERSION_LINE || IsBlank(line) then Ok(st)
    else
      var pair := SplitOnce(line, '=');
      if pair.None? then Err(Conflict) else ParsePair(st, pair.value.0, pair.value.1)
  }

  function ParseLines(st: Partial, lines: seq<string>): Result<Partial>
    decreases |lines|
  {
    if lines == [] then Ok(st)
    else
      var next :- ParseLine(st, lines[0]);
      ParseLines(next, lines[1..])
  }

  /** The required fields, checked after the loop. */
  function Finish(st: Partial): Result<ParsedLog> {
    if st.planId.None? || st.preflightHash.None? || st.status.None? || st.mutationExecuted.None? then Err(Conflict)
    else Ok(ParsedLog(st.planId.value, st.preflightHash.value, st.status.value, st.mutationExecuted.value, st.entries))
  }

  function ParseLog(data: string): Result<ParsedLog> {
    var st :- ParseLines(START, Lines(data));
    Finish(st)
  }

  /** `parse_restore_transaction_log` on the text it read. */
  method ParseTransactionLog(data: string) returns (r: Result<ParsedLog>)
    ensures r == ParseLog(data)
  {
    hide ParseLine, Finish;
    var lines := Lines(data);
    var st := START;
    for i := 0 to |lines|
      invariant ParseLines(START, lines) == ParseLines(st, lines[i..])
    {
      var next := ParseLine(st, lines[i]);
      assert lines[i..][1..] == lines[i + 1..];
      if next.Err? { return Err(next.error); }
      st := next.value;
    }
    r := Finish(st);
  }

  // ---------------------------------------------------------------- round trip

  lemma {:induction false} ParseLinesAppend(st: Partial, a: seq<string>, b: seq<string>)
    ensures ParseLines(st, a + b) ==
      var mid := ParseLines(st, a); if mid.Err? then mid else ParseLines(mid.value, b)
    decreases |a|
  {
    hide ParseLine;
    if a == [] {
      assert a + b == b;
    } else {
      assert (a + b)[1..] == a[1..] + b;
      var next := ParseLine(st, a[0]);
      if next.Ok? { ParseLinesAppend(next.value, a[1..], b); }
    }
  }

  /** What reading an entry back gives: path and error text are sanitised, and a text that sanitises to `none` reads as
      absent. */
  function AsRead(e: Entry): Entry {
    var clean := e.(relativePath := Stable(e.relativePath));
    if e.message.None? then clean
    else clean.(message := if Stable(e.message.value) == NONE then None else Some(Stable(e.message.value)))
  }

  function AllAsRead(es: seq<Entry>): (r: seq<Entry>)
    ensures |r| == |es|
    ensures forall i :: 0 <= i < |es| ==> r[i] == AsRead(es[i])
  {
    if es == [] then [] else AllAsRead(es[..|es| - 1]) + [AsRead(es[|es| - 1])]
  }

  /** No character that the log format gives a meaning to. */
  predicate Plain(s: string) { '\n' !in s && '\r' !in s && '|' !in s }

  predicate PlainEntry(e: Entry) {
    && e.sequence <= USIZE_MAX
    && Plain(e.operation) && Plain(e.status) && ValidRelativePath(e.relativePath)
    && (e.digest.Some? ==> Plain(e.digest.value) && ValidDigest(e.digest.value))
  }

  lemma ValidDigestIsNotNone(d: string)
    requires ValidDigest(d)
    ensures d != NONE
  {
    assert "sha256:"[0] == 's' && NONE[0] == 'n';
  }

  lemma FieldsAreSeparable(e: Entry)
    requires PlainEntry(e)
    ensures forall f :: f in Fields(e) ==> Plain(f)
  {
    hide Stable, ValidRelativePath, ValidDigest, Decimal;
    assert !IsDigit('\n') && !IsDigit('\r') && !IsDigit('|');
    assert Plain(NONE);
  }

  lemma ReadStep(e: Entry)
    requires PlainEntry(e)
    ensures ParseStep(StepValue(e)) == Ok(AsRead(e))
  {
    hide Stable, ValidRelativePath, ValidDigest, Decimal, ParseUsize, Join, Split;
    FieldsAreSeparable(e);
    SplitJoin(Fields(e), '|');
    ParseUsizeOfDecimal(e.sequence);
    StableKeepsValid(e.relativePath);
    if e.digest.Some? { ValidDigestIsNotNone(e.digest.value); }
  }

  /** A `key=value` line is neither blank nor the version line. */
  lemma ReadPair(st: Partial, key: string, value: string)
    requires '=' !in key
    ensures ParseLine(st, key + ['='] + value) == ParsePair(st, key, value)
  {
    hide ParsePair;
    var line := key + ['='] + value;
    SplitOnceKey(key, '=', value);
    assert line[|key|] == '=' && '=' in line;
    assert !IsWhitespace('=');
    assert forall i :: 0 <= i < |VERSION_LINE| ==> VERSION_LINE[i] != '=';
  }

  lemma ReadEntryLine(st: Partial, e: Entry)
    requires PlainEntry(e)
    ensures ParseLine(st, EntryLine(e)) == Ok(st.(entries := st.entries + [AsRead(e)]))
  {
    hide ParseStep, StepValue, ParseLine, PlainEntry, AsRead;
    ReadPair(st, "step", StepValue(e));
    ReadStep(e);
    StepKey(st, StepValue(e));
  }

  lemma StepKey(st: Partial, value: string)
    requires ParseStep(value).Ok?
    ensures ParsePair(st, "step", value) == Ok(st.(entries := st.entries + [ParseStep(value).value]))
  {
    hide ParseStep;
    assert "step"[0] == 's' && "plan_id"[0] == 'p' && "preflight_hash"[0] == 'p' && "mutation_executed"[0] == 'm';
    assert |"step"| == 4 && |"status"| == 6;
  }

  lemma {:induction false} ReadEntryLines(st: Partial, es: seq<Entry>)
    requires forall e :: e in es ==> PlainEntry(e)
    ensures ParseLines(st, EntryLines(es)) == Ok(st.(entries := st.entries + AllAsRead(es)))
  {
    hide ParseLine, EntryLine, PlainEntry, AsRead;
    if es == [] {
      assert st.entries + [] == st.entries;
    } else {
      var front, last := es[..|es| - 1], es[|es| - 1];
      ReadEntryLines(st, front);
      ParseLinesAppend(st, EntryLines(front), [EntryLine(last)]);
      var mid := st.(entries := st.entries + AllAsRead(front));
      ReadEntryLine(mid, last);
      assert [EntryLine(last)][1..] == [];
      assert mid.entries + [AsRead(last)] == st.entries + (AllAsRead(front) + [AsRead(last)]);
    }
  }

  lemma ReadHeader(plan: StagedPlan, root: string)
    ensures ParseLines(START, HeaderLines(plan, root)) ==
      Ok(START.(planId := Some(plan.planId), preflightHash := Some(plan.preflightHash)))
  {
    hide ParsePair;
    var ls := HeaderLines(plan, root);
    var s1 := START.(planId := Some(plan.planId));
    var s2 := s1.(preflightHash := Some(plan.preflightHash));
    ReadPair(START, "plan_id", plan.planId);
    ReadPair(s1, "target_root", root);
    ReadPair(s1, "preflight_hash", plan.preflightHash);
    HeaderKeys(START, s1, plan, root);
    assert ls[1..] == [ls[1], ls[2], ls[3]] && ls[1..][1..] == [ls[2], ls[3]] && ls[1..][1..][1..] == [ls[3]];
    assert ParseLine(START, ls[0]) == Ok(START);
    hide ParseLine;
    assert ParseLines(s2, []) == Ok(s2);
    assert ParseLines(s1, [ls[3]]) == Ok(s2) by { assert [ls[3]][1..] == []; }
    assert ParseLines(s1, [ls[2], ls[3]]) == Ok(s2);
    assert ParseLines(START, [ls[1], ls[2], ls[3]]) == Ok(s2);
  }

  lemma HeaderKeys(st: Partial, s1: Partial, plan: StagedPlan, root: string)
    ensures ParsePair(st, "plan_id", plan.planId) == Ok(st.(planId := Some(plan.planId)))
    ensures ParsePair(s1, "target_root", root) == Ok(s1)
    ensures ParsePair(s1, "preflight_hash", plan.preflightHash) == Ok(s1.(preflightHash := Some(plan.preflightHash)))
  {
    assert "target_root"[0] == 't' && "plan_id"[0] == 'p' && "preflight_hash"[0] == 'p';
    assert "status"[0] == 's' && "step"[0] == 's' && "mutation_executed"[0] == 'm';
    assert |"target_root"| == 11 && |"plan_id"| == 7 && |"preflight_hash"| == 14;
  }

  lemma StatusKeys(st: Partial, status: string, executed: bool)
    ensures ParsePair(st, "status", status) == Ok(st.(status := Some(status)))
    ensures ParsePair(st, "mutation_executed", BoolText(executed)) == Ok(st.(mutationExecuted := Some(executed)))
  {
    assert "status"[0] == 's' && "mutation_executed"[0] == 'm' && "plan_id"[0] == 'p' && "preflight_hash"[0] == 'p';
    assert "true"[0] == 't' && "false"[0] == 'f';
  }

  lemma ReadStatus(st: Partial, status: string, executed: bool)
    requires Plain(status)
    ensures ParseLines(st, StatusLines(status, executed)) ==
      Ok(st.(status := Some(status), mutationExecuted := Some(executed)))
  {
    hide ParsePair, ParseLine, BoolText, Stable;
    var ls := StatusLines(status, executed);
    var s1 := st.(status := Some(status));
    ReadPair(st, "status", status);
    ReadPair(s1, "mutation_executed", BoolText(executed));
    StatusKeys(st, status, executed);
    StatusKeys(s1, status, executed);
    assert ls[1..] == [ls[1]] && ls[1..][1..] == [];
    assert ParseLines(s1, [ls[1]]) == Ok(s1.(mutationExecuted := Some(executed)));
  }

  // ---------------------------------------------------------------- the whole log

  predicate PlainStep(s: Step) {
    && ValidStep(s)
    && (s.expectedDigest.Some? ==> Plain(s.expectedDigest.value))
    && (s.preRestoreDigest.Some? ==> Plain(s.preRestoreDigest.value))
  }

  /** No header value or digest can be taken for a field or line boundary. Paths are sanitised when they are logged. */
  predicate PlainPlan(plan: StagedPlan, root: string) {
    && IsLine(plan.planId) && IsLine(root) && IsLine(plan.preflightHash)
    && |plan.steps| <= USIZE_MAX
    && forall s :: s in plan.steps ==> PlainStep(s)
  }

  /** A committed step logs the digest of what it wrote or deleted; only a Replace can fail after
      changing the tree. */
  predicate FitsStep(step: Step, r: StepResult) {
    match r
    case Committed(digest) => digest == if step.operation.Delete? then step.preRestoreDigest else step.expectedDigest
    case Aborted(executed, _) => executed ==> step.operation.Replace?
  }

  /** Results that a run over the plan can have. */
  predicate RunResults(steps: seq<Step>, rs: seq<StepResult>) {
    && |rs| <= |steps|
    && (forall k :: 0 <= k < |rs| - 1 ==> rs[k].Committed?)
    && (forall k :: 0 <= k < |rs| ==> FitsStep(steps[k], rs[k]))
  }

  lemma ApplyStepFits(env: Env, fs: Fs, sequence: nat, step: Step)
    ensures FitsStep(step, ApplyStep(env, fs, sequence, step).1)
  {
    hide AtomicWrite, AtomicReplace, Target;
  }

  lemma {:induction false} ForwardFits(env: Env, steps: seq<Step>, i: nat, fs: Fs, k: nat)
    requires i <= |steps| && k < |Forward(env, steps, i, fs).1|
    ensures FitsStep(steps[i + k], Forward(env, steps, i, fs).1[k])
    decreases |steps| - i
  {
    hide ApplyStep, FitsStep;
    ApplyStepFits(env, fs, i, steps[i]);
    if k > 0 {
      ForwardFits(env, steps, i + 1, ApplyStep(env, fs, i, steps[i]).0, k - 1);
    }
  }

  /** Every run of the engine has such results. */
  lemma ForwardResults(env: Env, steps: seq<Step>, fs: Fs)
    ensures RunResults(steps, Forward(env, steps, 0, fs).1)
  {
    hide FitsStep, Forward;
    ForwardShape(env, steps, 0, fs);
    var rs := Forward(env, steps, 0, fs).1;
    forall k | 0 <= k < |rs| ensures FitsStep(steps[k], rs[k]) {
      ForwardFits(env, steps, 0, fs, k);
    }
  }

  lemma NamesArePlain(op: Operation)
    ensures Plain(OperationName(op)) && Plain(STARTED) && Plain(COMMITTED) && Plain(FAILED)
  {
  }

  lemma FinalStatusIsPlain(rs: seq<StepResult>)
    ensures Plain(FinalStatus(rs))
  {
    assert Plain(ROLLBACK_REQUIRED) && Plain(APPLIED);
  }

  lemma StepEntriesArePlain(k: nat, step: Step, r: StepResult, describe: nat -> string)
    requires k <= USIZE_MAX && PlainStep(step) && FitsStep(step, r)
    ensures PlainEntry(StartedEntry(k, step)) && PlainEntry(OutcomeEntry(k, step, r, describe))
  {
    hide ValidRelativePath, ValidDigest, Plain;
    NamesArePlain(step.operation);
  }

  lemma {:induction false} RunEntriesArePlain(steps: seq<Step>, rs: seq<StepResult>, describe: nat -> string)
    requires RunResults(steps, rs) && |steps| <= USIZE_MAX
    requires forall s :: s in steps ==> PlainStep(s)
    ensures forall e :: e in RunEntries(steps, rs, describe) ==> PlainEntry(e)
  {
    if rs != [] {
      hide PlainStep, FitsStep, PlainEntry, StartedEntry, OutcomeEntry;
      var k := |rs| - 1;
      RunEntriesArePlain(steps, rs[..k], describe);
      assert PlainStep(steps[k]) && FitsStep(steps[k], rs[k]);
      StepEntriesArePlain(k, steps[k], rs[k], describe);
      var a, b := StartedEntry(k, steps[k]), OutcomeEntry(k, steps[k], rs[k], describe);
      assert forall e :: e in RunEntries(steps, rs, describe) ==>
        e in RunEntries(steps, rs[..k], describe) || e == a || e == b;
    }
  }

  /** Reading back the log of a run gives its identity, status, flag and entries, with paths and messages sanitised. */
  lemma LogRoundTrip(plan: StagedPlan, root: string, rs: seq<StepResult>, describe: nat -> string)
    requires PlainPlan(plan, root) && RunResults(plan.steps, rs)
    ensures ParseLog(Unlines(LogLines(plan, root, rs, describe))) ==
      Ok(ParsedLog(plan.planId, plan.preflightHash, FinalStatus(rs), Executed(rs),
                   AllAsRead(RunEntries(plan.steps, rs, describe))))
  {
    hide PlainEntry, PlainStep, RunEntries, HeaderLines, EntryLines, StatusLines, ParseLines, Executed, AllAsRead;
    hide FinalStatus;
    var es := RunEntries(plan.steps, rs, describe);
    RunEntriesArePlain(plan.steps, rs, describe);
    var header, middle, status := HeaderLines(plan, root), EntryLines(es), StatusLines(FinalStatus(rs), Executed(rs));
    LogLinesAreLines(plan, root, es, FinalStatus(rs), Executed(rs));
    LinesOfUnlines(header + middle + status);
    ReadHeader(plan, root);
    var s1 := START.(planId := Some(plan.planId), preflightHash := Some(plan.preflightHash));
    ReadEntryLines(s1, es);
    var s2 := s1.(entries := s1.entries + AllAsRead(es));
    FinalStatusIsPlain(rs);
    ReadStatus(s2, FinalStatus(rs), Executed(rs));
    ParseLinesAppend(START, header, middle);
    ParseLinesAppend(START, header + middle, status);
    assert s2.entries == AllAsRead(es);
  }

  lemma LineOfPair(key: string, value: string)
    requires '\n' !in key && IsLine(value)
    ensures IsLine(key + ['='] + value)
  {
  }

  lemma {:induction false} JoinIsPlain(parts: seq<string>)
    requires |parts| >= 1
    requires forall p :: p in parts ==> Plain(p)
    ensures '\n' !in Join(parts, '|') && '\r' !in Join(parts, '|')
  {
    assert Plain(parts[0]);
    if |parts| > 1 {
      JoinIsPlain(parts[1..]);
    }
  }

  lemma {:induction false} EntryLinesAreLines(es: seq<Entry>)
    requires forall e :: e in es ==> PlainEntry(e)
    ensures forall l :: l in EntryLines(es) ==> IsLine(l)
  {
    if es != [] {
      hide PlainEntry, IsLine;
      var front, last := es[..|es| - 1], es[|es| - 1];
      EntryLinesAreLines(front);
      EntryLineIsLine(last);
    }
  }

  lemma EntryLineIsLine(e: Entry)
    requires PlainEntry(e)
    ensures IsLine(EntryLine(e))
  {
    hide Fields, Join, PlainEntry;
    FieldsAreSeparable(e);
    JoinIsPlain(Fields(e));
    LineOfPair("step", StepValue(e));
  }

  lemma LogLinesAreLines(plan: StagedPlan, root: string, es: seq<Entry>, status: string, executed: bool)
    requires IsLine(plan.planId) && IsLine(root) && IsLine(plan.preflightHash)
    requires forall e :: e in es ==> PlainEntry(e)
    ensures forall l :: l in HeaderLines(plan, root) + EntryLines(es) + StatusLines(status, executed) ==> IsLine(l)
  {
    hide PlainEntry, EntryLines;
    EntryLinesAreLines(es);
    HeaderAndStatusAreLines(plan, root, status, executed);
  }

  lemma HeaderAndStatusAreLines(plan: StagedPlan, root: string, status: string, executed: bool)
    requires IsLine(plan.planId) && IsLine(root) && IsLine(plan.preflightHash)
    ensures forall l :: l in HeaderLines(plan, root) + StatusLines(status, executed) ==> IsLine(l)
  {
    assert IsLine(VERSION_LINE);
    assert IsLine(BoolText(executed));
    assert IsLine(Stable(status));
    hide IsLine, Stable, BoolText;
    LineOfPair("plan_id", plan.planId);
    LineOfPair("target_root", root);
    LineOfPair("preflight_hash", plan.preflightHash);
    LineOfPair("status", Stable(status));
    LineOfPair("mutation_executed", BoolText(executed));
  }

  // ---------------------------------------------------------------- rollback candidates

  datatype Candidate = Candidate(step: Step, failedReplace: bool)

  predicate Matches(step: Step, e: Entry) {
    step.relativePath == e.relativePath && OperationName(step.operation) == e.operation
  }

  /** What one matching entry contributes. */
  function CandidateOf(step: Step, e: Entry, executed: bool): seq<Candidate> {
    if e.status == COMMITTED then [Candidate(step, false)]
    else if e.status == FAILED && executed && step.operation.Replace? then [Candidate(step, true)]
    else []
  }

  function CandidatesFrom(steps: seq<Step>, entries: seq<Entry>, executed: bool): Result<seq<Candidate>> {
    if entries == [] then Ok([])
    else
      var e := entries[|entries| - 1];
      if e.sequence >= |steps| then Err(Conflict)
      else if !Matches(steps[e.sequence], e) then Err(Conflict)
      else
        var rest :- CandidatesFrom(steps, entries[..|entries| - 1], executed);
        Ok(CandidateOf(steps[e.sequence], e, executed) + rest)
  }

  function Candidates(steps: seq<Step>, log: ParsedLog): Result<seq<Candidate>> {
    var cs :- CandidatesFrom(steps, log.entries, log.mutationExecuted);
    if cs == [] then Err(Conflict) else Ok(cs)
  }

  /** `rollback_candidates`: walks the entries from the last to the first. */
  method RollbackCandidates(steps: seq<Step>, log: ParsedLog) returns (r: Result<seq<Candidate>>)
    ensures r == Candidates(steps, log)
  {
    hide Matches, CandidateOf;
    var executed := log.mutationExecuted;
    var cs: seq<Candidate> := [];
    var i := |log.entries|;
    ghost var whole := CandidatesFrom(steps, log.entries, log.mutationExecuted);
    assert log.entries[..i] == log.entries;
    assert whole.Ok? ==> [] + whole.value == whole.value;
    while i > 0
      invariant 0 <= i <= |log.entries|
      invariant var rest := CandidatesFrom(steps, log.entries[..i], executed);
        whole == if rest.Err? then rest else Ok(cs + rest.value)
    {
      i := i - 1;
      var e := log.entries[i];
      assert log.entries[..i + 1][..i] == log.entries[..i];
      ghost var rest := CandidatesFrom(steps, log.entries[..i], executed);
      if e.sequence >= |steps| { return Err(Conflict); }
      if !Matches(steps[e.sequence], e) { return Err(Conflict); }
      var c := CandidateOf(steps[e.sequence], e, executed);
      assert rest.Ok? ==> cs + (c + rest.value) == (cs + c) + rest.value;
      cs := cs + c;
    }
    assert cs + [] == cs;
    if cs == [] { return Err(Conflict); }
    return Ok(cs);
  }

  /** The first `n` steps, the last of them first. */
  function Reversed(steps: seq<Step>, n: nat): (cs: seq<Candidate>)
    requires n <= |steps|
    ensures |cs| == n
    ensures forall k :: 0 <= k < n ==> cs[k] == Candidate(steps[n - 1 - k], false)
  {
    if n == 0 then [] else [Candidate(steps[n - 1], false)] + Reversed(steps, n - 1)
  }

  function CommittedCount(rs: seq<StepResult>): (n: nat)
    ensures n <= |rs|
  {
    if EndsAborted(rs) then |rs| - 1 else |rs|
  }

  /** The committed steps reversed, preceded by the failing step when it is a Replace and something
      was mutated. */
  function RunCandidates(steps: seq<Step>, rs: seq<StepResult>, executed: bool): seq<Candidate>
    requires |rs| <= |steps|
  {
    var failing :=
      if EndsAborted(rs) && executed && steps[|rs| - 1].operation.Replace? then [Candidate(steps[|rs| - 1], true)]
          else [];
    failing + Reversed(steps, CommittedCount(rs))
  }

  lemma StatusesDiffer()
    ensures STARTED != COMMITTED && STARTED != FAILED && FAILED != COMMITTED
    ensures APPLIED != ROLLBACK_REQUIRED
  {
    assert STARTED[0] == 's' && COMMITTED[0] == 'c' && FAILED[0] == 'f' && APPLIED[0] == 'a'
        && ROLLBACK_REQUIRED[0] == 'r';
  }

  /** The two entries of step `k` add what its outcome contributes. */
  lemma CandidatesOfTwo(steps: seq<Step>, front: seq<Entry>, k: nat, started: Entry, outcome: Entry, executed: bool)
    requires k < |steps| && outcome.sequence == k && started.sequence == k
    requires Matches(steps[k], outcome) && Matches(steps[k], started) && started.status == STARTED
    ensures CandidatesFrom(steps, front + [started, outcome], executed) ==
      var rest := CandidatesFrom(steps, front, executed);
      if rest.Err? then rest else Ok(CandidateOf(steps[k], outcome, executed) + rest.value)
  {
    hide OperationName;
    var es := front + [started, outcome];
    StatusesDiffer();
    assert CandidateOf(steps[k], started, executed) == [];
    var shorter := front + [started];
    assert es[..|es| - 1] == shorter && shorter[..|shorter| - 1] == front;
    var rest := CandidatesFrom(steps, front, executed);
    assert CandidatesFrom(steps, shorter, executed) == rest by {
      assert rest.Ok? ==> [] + rest.value == rest.value;
    }
  }

  function Contribution(step: Step, r: StepResult, executed: bool): seq<Candidate> {
    if r.Committed? then [Candidate(step, false)]
    else if executed && step.operation.Replace? then [Candidate(step, true)]
    else []
  }

  lemma OutcomeContribution(k: nat, step: Step, r: StepResult, describe: nat -> string, executed: bool)
    requires Plain(step.relativePath)
    ensures var e := AsRead(OutcomeEntry(k, step, r, describe));
      && e.sequence == k && Matches(step, e)
      && CandidateOf(step, e, executed) == Contribution(step, r, executed)
  {
    hide OperationName, Stable;
    StatusesDiffer();
  }

  lemma StartedReads(k: nat, step: Step)
    requires Plain(step.relativePath)
    ensures var e := AsRead(StartedEntry(k, step)); e.sequence == k && Matches(step, e) && e.status == STARTED
  {
    hide OperationName, Stable;
  }

  /** A path with a line break reads back as another one. */
  lemma BreakDoesNotMatch(k: nat, step: Step, r: StepResult, describe: nat -> string)
    requires !Plain(step.relativePath)
    ensures !Matches(step, AsRead(OutcomeEntry(k, step, r, describe)))
            && AsRead(OutcomeEntry(k, step, r, describe)).sequence == k
  {
    hide OperationName, Stable;
  }

  lemma RunCandidatesGrow(steps: seq<Step>, rs: seq<StepResult>, executed: bool)
    requires 0 < |rs| <= |steps|
    requires forall k :: 0 <= k < |rs| - 1 ==> rs[k].Committed?
    ensures var k := |rs| - 1;
      RunCandidates(steps, rs, executed) == Contribution(steps[k], rs[k], executed) + RunCandidates(steps, rs[..k],
          executed)
  {
    var k := |rs| - 1;
    assert k > 0 ==> rs[..k][k - 1].Committed?;
    assert RunCandidates(steps, rs[..k], executed) == Reversed(steps, k);
  }

  lemma AllAsReadTwo(front: seq<Entry>, a: Entry, b: Entry)
    ensures AllAsRead(front + [a, b]) == AllAsRead(front) + [AsRead(a), AsRead(b)]
  {
    hide AsRead;
  }

  /** The steps that a run reached have no line break in their paths. */
  predicate PlainPaths(steps: seq<Step>, rs: seq<StepResult>)
    requires |rs| <= |steps|
  {
    forall k :: 0 <= k < |rs| ==> Plain(steps[k].relativePath)
  }

  lemma PlainPathsGrow(steps: seq<Step>, rs: seq<StepResult>)
    requires 0 < |rs| <= |steps|
    ensures PlainPaths(steps, rs) <==> PlainPaths(steps, rs[..|rs| - 1]) && Plain(steps[|rs| - 1].relativePath)
  {
    hide Plain;
  }

  lemma {:induction false} CandidatesOfEntries(
    steps: seq<Step>, rs: seq<StepResult>, describe: nat -> string, executed: bool)
    requires |rs| <= |steps|
    requires forall k :: 0 <= k < |rs| - 1 ==> rs[k].Committed?
    ensures CandidatesFrom(steps, AllAsRead(RunEntries(steps, rs, describe)), executed) ==
      if PlainPaths(steps, rs) then Ok(RunCandidates(steps, rs, executed)) else Err(Conflict)
  {
    if rs == [] {
      assert RunCandidates(steps, rs, executed) == [];
    } else {
      var k := |rs| - 1;
      var front := RunEntries(steps, rs[..k], describe);
      var started, outcome := StartedEntry(k, steps[k]), OutcomeEntry(k, steps[k], rs[k], describe);
      hide OutcomeEntry, StartedEntry, AsRead, AllAsRead, RunCandidates, Contribution, CandidateOf, Matches, PlainPaths;
      hide Plain;
      CandidatesOfEntries(steps, rs[..k], describe, executed);
      PlainPathsGrow(steps, rs);
      AllAsReadTwo(front, started, outcome);
      if Plain(steps[k].relativePath) {
        hide CandidatesFrom;
        StartedReads(k, steps[k]);
        OutcomeContribution(k, steps[k], rs[k], describe, executed);
        CandidatesOfTwo(steps, AllAsRead(front), k, AsRead(started), AsRead(outcome), executed);
        RunCandidatesGrow(steps, rs, executed);
      } else {
        BreakDoesNotMatch(k, steps[k], rs[k], describe);
      }
    }
  }

  /**
   * The candidates of a run that mutated something, read back from its own log: those of the run, if and only if no
   * step that it reached has a line break in its path. Otherwise the log is refused.
   */
  lemma CandidatesOfRun(plan: StagedPlan, rs: seq<StepResult>, describe: nat -> string)
    requires RunResults(plan.steps, rs) && Executed(rs)
    ensures Candidates(plan.steps, ParsedLog(plan.planId, plan.preflightHash, FinalStatus(rs), Executed(rs),
                                             AllAsRead(RunEntries(plan.steps, rs, describe))))
      == if PlainPaths(plan.steps, rs) then Ok(RunCandidates(plan.steps, rs, true)) else Err(Conflict)
  {
    hide Executed, RunEntries, AllAsRead, CandidatesFrom, PlainPaths;
    CandidatesOfEntries(plan.steps, rs, describe, true);
    assert RunCandidates(plan.steps, rs, true) != [] by { ExecutedHasCandidate(plan.steps, rs); }
  }

  lemma ExecutedHasCandidate(steps: seq<Step>, rs: seq<StepResult>)
    requires RunResults(steps, rs) && Executed(rs)
    ensures RunCandidates(steps, rs, true) != []
  {
  }
}
