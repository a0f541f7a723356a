/** What the reader of the transaction log makes of any text, and which texts the rollback accepts. */
module RestoreLogReader {
  import opened Text
  import opened KeyedLines
  import opened RestorePlan
  import opened RestoreLog
  import opened RestoreRollback

  // ---------------------------------------------------------------- one line

  /** Six fields: a number, an operation, a relative path, a status, a digest or `none`, and a text. */
  predicate ReadableStep(value: string) {
    var parts := Split(value, '|');
    && |parts| == 6 && ParseUsize(parts[0]).Some? && ValidRelativePath(parts[2])
    && (parts[4] == "none" || ValidDigest(parts[4]))
  }

  predicate ReadsAs(e: Entry, value: string) {
    var parts := Split(value, '|');
    && |parts| == 6 && ParseUsize(parts[0]) == Some(e.sequence) && parts[1] == e.operation
    && parts[2] == e.relativePath && parts[3] == e.status
    && e.digest == (if parts[4] == "none" then None else Some(parts[4]))
    && e.message == (if parts[5] == "none" then None else Some(parts[5]))
  }

  predicate Readable(line: string) {
    || line == "restore-mutation-transaction:v1"
    || IsBlank(line)
    || (&& SplitOnce(line, '=').Some?
        && (Names(line, "mutation_executed") ==> ValueOf(line) in {"true", "false"})
        && (Names(line, "step") ==> ReadableStep(ValueOf(line))))
  }

  // ---------------------------------------------------------------- all lines

  /** The values on the step lines, in order. */
  function StepValues(lines: seq<string>): seq<string> {
    if lines == [] then []
    else
      var l := lines[|lines| - 1];
      StepValues(lines[..|lines| - 1]) + (if Names(l, "step") then [ValueOf(l)] else [])
  }

  predicate EntriesRead(es: seq<Entry>, values: seq<string>) {
    |es| == |values| && forall i :: 0 <= i < |es| ==> ReadsAs(es[i], values[i])
  }

  predicate Gives(st: Partial, lines: seq<string>) {
    && st.planId == LastValue(lines, "plan_id") && st.preflightHash == LastValue(lines, "preflight_hash")
    && st.status == LastValue(lines, "status")
    && st.mutationExecuted.Some? == LastValue(lines, "mutation_executed").Some?
    && (st.mutationExecuted.Some? ==>
        st.mutationExecuted.value == (LastValue(lines, "mutation_executed") == Some("true")))
    && EntriesRead(st.entries, StepValues(lines))
  }

  lemma KeysDiffer()
    ensures "plan_id" != "preflight_hash" && "plan_id" != "status" && "plan_id" != "mutation_executed"
    ensures "plan_id" != "step" && "preflight_hash" != "status" && "preflight_hash" != "mutation_executed"
    ensures "preflight_hash" != "step" && "status" != "mutation_executed" && "status" != "step"
    ensures "mutation_executed" != "step" && "true" != "false"
  {
    assert |"plan_id"| == 7 && |"preflight_hash"| == 14 && |"status"| == 6 && |"mutation_executed"| == 17;
    assert |"step"| == 4 && |"true"| == 4 && |"false"| == 5;
  }

  lemma StepExactly(value: string)
    ensures ParseStep(value).Ok? <==> ReadableStep(value)
    ensures ParseStep(value).Ok? ==> ReadsAs(ParseStep(value).value, value)
  {
    hide ValidRelativePath, ValidDigest, ParseUsize, Split;
  }

  lemma PairExactly(st: Partial, key: string, value: string)
    ensures var next := ParsePair(st, key, value);
      && (next.Ok? <==> (key == "mutation_executed" ==> value in {"true", "false"}) &&
                        (key == "step" ==> ReadableStep(value)))
      && (next.Ok? ==> PairEffect(st, next.value, key, value))
  {
    hide ParseStep, ReadableStep, ReadsAs;
    KeysDiffer();
    StepExactly(value);
  }

  predicate PairEffect(st: Partial, next: Partial, key: string, value: string) {
    && next.planId == (if key == "plan_id" then Some(value) else st.planId)
    && next.preflightHash == (if key == "preflight_hash" then Some(value) else st.preflightHash)
    && next.status == (if key == "status" then Some(value) else st.status)
    && next.mutationExecuted == (if key == "mutation_executed" then Some(value == "true") else st.mutationExecuted)
    && (if key == "step" then |next.entries| == |st.entries| + 1 && next.entries[..|st.entries|] == st.entries
                              && ReadsAs(next.entries[|st.entries|], value)
        else next.entries == st.entries)
  }

  lemma NoPair(line: string)
    requires line == VERSION_LINE || IsBlank(line)
    ensures SplitOnce(line, '=').None?
  {
    assert forall i :: 0 <= i < |VERSION_LINE| ==> VERSION_LINE[i] != '=';
    assert !IsWhitespace('=');
  }

  lemma {:induction false} LinesExactly(lines: seq<string>)
    ensures ParseLines(START, lines).Ok? <==> forall l :: l in lines ==> Readable(l)
    ensures ParseLines(START, lines).Ok? ==> Gives(ParseLines(START, lines).value, lines)
  {
    hide ParsePair, ReadableStep, ReadsAs, IsBlank, SplitOnce;
    if lines != [] {
      var n := |lines| - 1;
      var front, l := lines[..n], lines[n];
      assert lines == front + [l];
      LinesExactly(front);
      ParseLinesAppend(START, front, [l]);
      assert [l][1..] == [];
      if ParseLines(START, front).Ok? { LineExactly(ParseLines(START, front).value, front, l); }
    }
  }

  lemma LineExactly(st: Partial, front: seq<string>, l: string)
    requires Gives(st, front)
    ensures ParseLines(st, [l]).Ok? <==> Readable(l)
    ensures ParseLines(st, [l]).Ok? ==> Gives(ParseLines(st, [l]).value, front + [l])
  {
    hide ParsePair, ReadableStep, ReadsAs, IsBlank, SplitOnce;
    assert [l][1..] == [];
    assert (front + [l])[..|front|] == front;
    if l == VERSION_LINE || IsBlank(l) {
      NoPair(l);
    } else if SplitOnce(l, '=').Some? {
      PairExactly(st, SplitOnce(l, '=').value.0, SplitOnce(l, '=').value.1);
    }
  }

  /**
   * For every text: it reads as a log exactly when each line is readable and the four fields have a value. The last
   * value of a field counts, and the entries are the step lines in order.
   */
  lemma ParseLogExactly(data: string)
    ensures var ls := Lines(data);
      && (ParseLog(data).Ok? <==>
          && (forall l :: l in ls ==> Readable(l))
          && LastValue(ls, "plan_id").Some? && LastValue(ls, "preflight_hash").Some?
          && LastValue(ls, "status").Some? && LastValue(ls, "mutation_executed").Some?)
      && (ParseLog(data).Ok? ==>
          var log := ParseLog(data).value;
          && LastValue(ls, "plan_id") == Some(log.planId) && LastValue(ls, "preflight_hash") == Some(log.preflightHash)
          && LastValue(ls, "status") == Some(log.status)
          && log.mutationExecuted == (LastValue(ls, "mutation_executed") == Some("true"))
          && EntriesRead(log.entries, StepValues(ls)))
  {
    hide ParseLines, Readable, LastValue, StepValues, EntriesRead, Lines;
    LinesExactly(Lines(data));
  }

  // ---------------------------------------------------------------- what rollback accepts

  predicate KnownStep(steps: seq<Step>, e: Entry) {
    && e.sequence < |steps| && steps[e.sequence].relativePath == e.relativePath
    && e.operation == (match steps[e.sequence].operation
                       case Copy => "copy" case Delete => "delete" case Replace => "replace")
  }

  /** A committed step, or a Replace that failed. */
  predicate Undoable(steps: seq<Step>, e: Entry) {
    && e.sequence < |steps|
    && (e.status == "committed" || (e.status == "failed" && steps[e.sequence].operation.Replace?))
  }

  function UndoableEntries(steps: seq<Step>, entries: seq<Entry>): (es: seq<Entry>)
    ensures forall i :: 0 <= i < |es| ==> Undoable(steps, es[i])
  {
    if entries == [] then []
    else
      var e := entries[|entries| - 1];
      UndoableEntries(steps, entries[..|entries| - 1]) + (if Undoable(steps, e) then [e] else [])
  }

  /** One undo for each entry, the last entry first. */
  predicate UndoesBackwards(steps: seq<Step>, es: seq<Entry>, cs: seq<Candidate>) {
    && |cs| == |es|
    && forall k :: 0 <= k < |es| ==>
        Undoable(steps, es[k]) && cs[|es| - 1 - k] == Candidate(steps[es[k].sequence], es[k].status == "failed")
  }

  lemma MatchesExactly(steps: seq<Step>, e: Entry)
    ensures KnownStep(steps, e) <==> e.sequence < |steps| && Matches(steps[e.sequence], e)
  {
  }

  lemma {:induction false} CandidatesExactly(steps: seq<Step>, entries: seq<Entry>)
    ensures CandidatesFrom(steps, entries, true).Err? ==> CandidatesFrom(steps, entries, true) == Err(Conflict)
    ensures CandidatesFrom(steps, entries, true).Ok? <==> forall e :: e in entries ==> KnownStep(steps, e)
    ensures CandidatesFrom(steps, entries, true).Ok? ==>
            UndoesBackwards(steps, UndoableEntries(steps, entries), CandidatesFrom(steps, entries, true).value)
  {
    hide KnownStep, Matches;
    if entries != [] {
      var n := |entries| - 1;
      var front, e := entries[..n], entries[n];
      assert entries == front + [e];
      CandidatesExactly(steps, front);
      StatusesDiffer();
      MatchesExactly(steps, e);
      assert forall x :: x in entries <==> x in front || x == e;
    }
  }

  /**
   * For every plan and every text: the rollback goes ahead exactly when the text is a log of this very plan and
   * preflight, of a run that failed after a mutation, whose entries all name steps of the plan and of which some can be
   * undone; then it undoes those, the last first.
   */
  lemma AcceptedExactly(plan: StagedPlan, data: string)
    ensures ParseLog(data).Err? ==> Accepted(plan, data) == Err(ParseLog(data).error)
    ensures ParseLog(data).Ok? ==>
      var log, r := ParseLog(data).value, Accepted(plan, data);
      var es := UndoableEntries(plan.steps, log.entries);
      && (r.Ok? <==>
          && log.planId == plan.planId && log.preflightHash == plan.preflightHash && log.status == "rollback_required"
          && log.mutationExecuted && (forall e :: e in log.entries ==> KnownStep(plan.steps, e)) && es != [])
      && (r.Ok? ==> UndoesBackwards(plan.steps, es, r.value))
      && (r.Err? ==> r == Err(Conflict))
  {
    hide ParseLog, CandidatesFrom, KnownStep, UndoableEntries;
    if ParseLog(data).Ok? { CandidatesExactly(plan.steps, ParseLog(data).value.entries); }
  }
}
