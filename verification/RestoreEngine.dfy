/** `RestoreMutationEngine::apply`: the forward loop together with the log it writes. */
module RestoreEngine {
  import opened Text
  import opened Octets
  import opened RestorePlan
  import opened RestoreDisk
  import opened RestoreApply
  import opened RestoreLog

  datatype ApplyReport = ApplyReport(
    status: string,
    mutationExecuted: bool,
    rollbackRequired: bool,
    completedSteps: nat,
    failedStep: Option<string>)

  function ReportOf(steps: seq<Step>, rs: seq<StepResult>): ApplyReport
    requires |rs| <= |steps|
  {
    ApplyReport(FinalStatus(rs), Executed(rs), EndsAborted(rs), CommittedCount(rs),
                if EndsAborted(rs) then Some(steps[|rs| - 1].relativePath) else None)
  }

  lemma EntryLinesTwo(front: seq<Entry>, a: Entry, b: Entry)
    ensures EntryLines(front + [a, b]) == EntryLines(front) + [EntryLine(a)] + [EntryLine(b)]
  {
    hide EntryLine;
    var es := front + [a, b];
    assert es[..|es| - 1] == front + [a] && (front + [a])[..|front|] == front;
  }

  /** The log text after the header and the steps of `rs`. */
  function Written(plan: StagedPlan, root: string, rs: seq<StepResult>, describe: nat -> string): string
    requires |rs| <= |plan.steps|
  {
    Unlines(HeaderLines(plan, root) + EntryLines(RunEntries(plan.steps, rs, describe)))
  }

  lemma WrittenGrows(plan: StagedPlan, root: string, rs: seq<StepResult>, r: StepResult, describe: nat -> string)
    requires |rs| < |plan.steps|
    ensures var k := |rs|;
      Written(plan, root, rs + [r], describe)
      == Written(plan, root, rs, describe)
         + Unlines([EntryLine(StartedEntry(k, plan.steps[k]))])
         + Unlines([EntryLine(OutcomeEntry(k, plan.steps[k], r, describe))])
  {
    hide EntryLine, HeaderLines, Unlines, StartedEntry, OutcomeEntry;
    var k := |rs|;
    var a, b := StartedEntry(k, plan.steps[k]), OutcomeEntry(k, plan.steps[k], r, describe);
    assert (rs + [r])[..k] == rs;
    var front := RunEntries(plan.steps, rs, describe);
    EntryLinesTwo(front, a, b);
    var ls := HeaderLines(plan, root) + EntryLines(front);
    assert HeaderLines(plan, root) + (EntryLines(front) + [EntryLine(a)] + [EntryLine(b)])
        == ls + [EntryLine(a)] + [EntryLine(b)];
    UnlinesAppend(ls + [EntryLine(a)], [EntryLine(b)]);
    UnlinesAppend(ls, [EntryLine(a)]);
  }

  lemma WrittenWhole(plan: StagedPlan, root: string, rs: seq<StepResult>, describe: nat -> string)
    requires |rs| <= |plan.steps|
    ensures Unlines(LogLines(plan, root, rs, describe))
      == Written(plan, root, rs, describe) + Unlines(StatusLines(FinalStatus(rs), Executed(rs)))
  {
    hide HeaderLines, EntryLines, StatusLines, RunEntries, Unlines;
    UnlinesAppend(HeaderLines(plan, root) + EntryLines(RunEntries(plan.steps, rs, describe)),
                  StatusLines(FinalStatus(rs), Executed(rs)));
  }

  /** The tree, the report and the log of a run. `describe` gives the error text of each step. */
  method ApplyPlan(disk: Disk, env: Env, plan: StagedPlan, root: string, describe: nat -> string)
    returns (report: ApplyReport, log: string)
    requires disk.io == env.io
    modifies disk
    ensures var (fs', rs) := Forward(env, plan.steps, 0, old(disk.State()));
      && disk.State() == fs'
      && report == ReportOf(plan.steps, rs)
      && log == Unlines(LogLines(plan, root, rs, describe))
  {
    hide ApplyStep, LogLines, HeaderLines, EntryLines, EntryLine, RunEntries, StatusLines, Unlines, Written;
    var steps := plan.steps;
    log := Unlines(HeaderLines(plan, root));
    var executed := false;
    ghost var whole := Forward(env, steps, 0, disk.State());
    ghost var done: seq<StepResult> := [];
    WrittenNothing(plan, root, describe);
    assert [] + whole.1 == whole.1;
    for i := 0 to |steps|
      invariant |done| == i && forall k :: 0 <= k < i ==> done[k].Committed?
      invariant executed == (i > 0)
      invariant log == Written(plan, root, done, describe)
      invariant var rest := Forward(env, steps, i, disk.State());
        whole == (rest.0, done + rest.1)
    {
      log := log + Unlines([EntryLine(StartedEntry(i, steps[i]))]);
      var r := CheckedStep(disk, env, i, steps[i]);
      log := log + Unlines([EntryLine(OutcomeEntry(i, steps[i], r, describe))]);
      WrittenGrows(plan, root, done, r, describe);
      ghost var before := done;
      done := done + [r];
      if r.Aborted? {
        executed := executed || r.mutationExecuted;
        assert whole.1 == done;
        assert executed == Executed(done) by { ExecutedPrefix(before, r); }
        log := log + Unlines(StatusLines(ROLLBACK_REQUIRED, executed));
        WrittenWhole(plan, root, done, describe);
        report := ApplyReport(ROLLBACK_REQUIRED, executed, true, i, Some(steps[i].relativePath));
        return;
      }
      executed := true;
      ghost var rest := Forward(env, steps, i + 1, disk.State());
      assert before + ([r] + rest.1) == done + rest.1;
    }
    assert whole.1 == done + [] == done;
    assert executed == Executed(done) by { if |steps| > 0 { assert done[0] in done; } }
    log := log + Unlines(StatusLines(APPLIED, executed));
    WrittenWhole(plan, root, done, describe);
    report := ApplyReport(APPLIED, executed, false, |steps|, None);
  }

  lemma WrittenNothing(plan: StagedPlan, root: string, describe: nat -> string)
    ensures Written(plan, root, [], describe) == Unlines(HeaderLines(plan, root))
  {
    hide HeaderLines, Unlines;
    assert HeaderLines(plan, root) + [] == HeaderLines(plan, root);
  }

  lemma ExecutedPrefix(before: seq<StepResult>, r: StepResult)
    requires forall k :: 0 <= k < |before| ==> before[k].Committed?
    requires r.Aborted?
    ensures Executed(before + [r]) == (|before| > 0 || r.mutationExecuted)
  {
    var rs := before + [r];
    if |before| > 0 { assert rs[0] in rs; }
    assert rs[|rs| - 1] == r && r in rs;
  }

  /**
   * What the report of a run says: `applied` exactly if every step was committed, how many were, the path of the one
   * that failed, and whether anything was changed.
   */
  lemma ReportMeansRun(env: Env, steps: seq<Step>, fs: Fs)
    ensures var rs := Forward(env, steps, 0, fs).1;
      var report := ReportOf(steps, rs);
      && (report.status == "applied" <==> |rs| == |steps| && forall k :: 0 <= k < |rs| ==> rs[k].Committed?)
      && (report.status == "applied" || report.status == "rollback_required")
      && (report.rollbackRequired <==> report.status == "rollback_required")
      && report.completedSteps <= |rs| && (forall k :: 0 <= k < report.completedSteps ==> rs[k].Committed?)
      && (report.rollbackRequired ==>
            && report.completedSteps == |rs| - 1 && rs[report.completedSteps].Aborted?
            && report.failedStep == Some(steps[report.completedSteps].relativePath))
      && (!report.rollbackRequired ==> report.completedSteps == |steps| && report.failedStep.None?)
      && (report.mutationExecuted <==>
          report.completedSteps > 0 || (rs != [] && rs[|rs| - 1].Aborted? && rs[|rs| - 1].mutationExecuted))
  {
    hide Forward;
    ForwardShape(env, steps, 0, fs);
    StatusesDiffer();
    var rs := Forward(env, steps, 0, fs).1;
    if rs != [] { assert rs[0] in rs && rs[|rs| - 1] in rs; }
  }
}
