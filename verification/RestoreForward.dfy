/** When the forward engine succeeds, and what it leaves: the planned tree. */
module RestoreForward {
  import opened Text
  import opened Octets
  import opened RestorePlan
  import opened RestoreDisk
  import opened RestoreApply
  import opened RestoreLog
  import opened RestoreUndo

  // ---------------------------------------------------------------- what a step plans

  /** The named artifact is there with these bytes, and artifact, plan and contents agree on the digest. */
  predicate Supplies(env: Env, step: Step, bytes: Bytes) {
    && step.sourceKey.Some? && step.sourceKey.value in env.sources && env.sources[step.sourceKey.value].bytes == bytes
    && step.expectedDigest == Some(env.digest(bytes)) && env.sources[step.sourceKey.value].digest == env.digest(bytes)
  }

  /**
   * The step meets what it plans for: no file to copy over, the planned file to delete or replace, a sound artifact.
   */
  ghost predicate Meets(env: Env, step: Step, v: Files) {
    && T(step) != []
    && (step.operation.Copy? ==> T(step) !in v)
    && (!step.operation.Copy? ==> T(step) in v && step.preRestoreDigest == Some(env.digest(v[T(step)])))
    && (!step.operation.Delete? ==> exists bytes :: Supplies(env, step, bytes))
  }

  /** The tree that the step plans. */
  function Planned(env: Env, step: Step, v: Files): Files {
    if step.operation.Delete? then v - {T(step)}
    else if step.sourceKey.Some? && step.sourceKey.value in env.sources
    then v[T(step) := env.sources[step.sourceKey.value].bytes]
    else v
  }

  /** The tree that the first `k` steps plan. */
  function PlannedTree(env: Env, steps: seq<Step>, k: nat, v: Files): Files
    requires k <= |steps|
  {
    if k == 0 then v else Planned(env, steps[k - 1], PlannedTree(env, steps, k - 1, v))
  }

  /** A source is used exactly if it is the planned one. */
  lemma SourceExactly(env: Env, step: Step, bytes: Bytes)
    ensures SourceBytes(env, step) == Ok(bytes) <==> Supplies(env, step, bytes)
  {
  }

  lemma SourceIsSupplied(env: Env, step: Step)
    ensures SourceBytes(env, step).Ok? <==> exists bytes :: Supplies(env, step, bytes)
  {
    hide Supplies, SourceBytes;
    forall bytes ensures SourceBytes(env, step) == Ok(bytes) <==> Supplies(env, step, bytes) {
      SourceExactly(env, step, bytes);
    }
    if SourceBytes(env, step).Ok? { assert Supplies(env, step, SourceBytes(env, step).value); }
  }

  // ---------------------------------------------------------------- one step

  /** A Copy that sees a file aborts and changes nothing, whatever the later calls would do. */
  lemma CopySeesFile(env: Env, fs: Fs, sequence: nat, step: Step)
    requires step.operation.Copy? && T(step) in fs.files && env.io(fs.tick).Fine? && env.io(fs.tick + 1).Fine?
    ensures var (fs', r) := ApplyStep(env, fs, sequence, step); r == Aborted(false, Conflict) && fs'.files == fs.files
  {
    hide Target, SourceBytes, AtomicWrite;
  }

  /** A staged replace of a file that is there succeeds when no call breaks. */
  lemma AtomicReplaceSucceeds(io: Oracle, fs: Fs, target: Path, sequence: nat, bytes: Bytes)
    requires NeverBreaks(io) && target != [] && !IsTemp(target) && target in fs.files
    ensures AtomicReplace(io, fs, target, sequence, bytes).1.Replaced?
  {
    hide IsTemp, TempPath;
    TempPathIsTemp(target, sequence);
    assert TempPath(target, sequence) != target;
  }

  /**
   * Without I/O failure a step commits if and only if it meets what it plans for, and then leaves the planned tree.
   * Else it changes nothing; a file in the way, and a missing or another file, are conflicts.
   */
  lemma StepExactly(env: Env, fs: Fs, sequence: nat, step: Step)
    requires NeverBreaks(env.io) && !IsTemp(T(step)) && T(step) != []
    ensures var (fs', r) := ApplyStep(env, fs, sequence, step);
            var v := Visible(fs.files);
            && (r.Committed? <==> Meets(env, step, v))
            && (r.Committed? ==> Visible(fs'.files) == Planned(env, step, v))
            && (r.Aborted? ==> Visible(fs'.files) == v && !r.mutationExecuted)
            && (step.operation.Copy? && T(step) in v ==> r == Aborted(false, Conflict))
            && (!step.operation.Copy? && step.preRestoreDigest.Some? && !FoundAsPlanned(env, step, v) ==>
                  r == Aborted(false, Conflict))
  {
    hide IsTemp, AtomicWrite, AtomicReplace, Target, SourceBytes, Supplies;
    var t := T(step);
    assert t in Visible(fs.files) <==> t in fs.files;
    var fs0 := Probe(env.io, fs).0;
    SourceIsSupplied(env, step);
    ApplyStepEffect(env, fs, sequence, step);
    if SourceBytes(env, step).Ok? {
      var bytes := SourceBytes(env, step).value;
      SourceExactly(env, step, bytes);
      assert
        && step.sourceKey.Some? && step.sourceKey.value in env.sources
        && env.sources[step.sourceKey.value].bytes == bytes
      by {
        SuppliedBytes(env, step, bytes);
      }
      if step.operation.Copy? {
        AtomicWriteSucceeds(env.io, Exists(env.io, fs0, t).0, t, sequence, bytes);
      }
      if step.operation.Replace? && t in fs.files {
        AtomicReplaceSucceeds(env.io, VerifyExisting(env, fs0, t, step).0, t, sequence, bytes);
      }
    }
  }

  lemma SuppliedBytes(env: Env, step: Step, bytes: Bytes)
    requires Supplies(env, step, bytes)
    ensures step.sourceKey.Some? && step.sourceKey.value in env.sources
    ensures env.sources[step.sourceKey.value].bytes == bytes
  {
  }

  // ---------------------------------------------------------------- whole runs

  /** Every step names a file, and none a staging file. */
  ghost predicate RealTargets(steps: seq<Step>) {
    forall j :: 0 <= j < |steps| ==> T(steps[j]) != [] && !IsTemp(T(steps[j]))
  }

  /** Whatever breaks, a committed step leaves the tree that it plans. */
  lemma CommittedAsPlanned(env: Env, step: Step, v: Files, v': Files, r: StepResult)
    requires StepEffect(env, step, v, v', r) && r.Committed?
    ensures v' == Planned(env, step, v)
  {
    hide Target;
    if SourceBytes(env, step).Ok? { SourceExactly(env, step, SourceBytes(env, step).value); }
  }

  /** Whatever breaks, the tree after `k` committed steps is the one that they plan. */
  lemma {:induction false} TreeIsPlanned(run: Run, k: nat)
    requires NoTempTargets(run.steps) && k <= |run.Results()| && forall j :: 0 <= j < k ==> run.Results()[j].Committed?
    ensures run.Tree(k) == PlannedTree(run.env, run.steps, k, run.Start())
  {
    hide Forward, StepEffect, IsTemp, Planned, Visible;
    if k > 0 {
      TreeIsPlanned(run, k - 1);
      RunStep(run, k - 1);
      CommittedAsPlanned(run.env, run.steps[k - 1], run.Tree(k - 1), run.Tree(k), run.Results()[k - 1]);
    }
  }

  /** Step `k` meets what it plans for on the tree that the steps before it plan. */
  ghost predicate MeetsAt(run: Run, k: nat)
    requires k < |run.steps|
  {
    Meets(run.env, run.steps[k], PlannedTree(run.env, run.steps, k, run.Start()))
  }

  lemma ReachedExactly(run: Run, k: nat)
    requires NeverBreaks(run.env.io) && RealTargets(run.steps)
    requires k < |run.Results()|
    ensures run.Results()[k].Committed? <==> MeetsAt(run, k)
  {
    hide Forward, ApplyStep, IsTemp, Meets, PlannedTree, Visible, Planned, NeverBreaks;
    ForwardShape(run.env, run.steps, 0, run.fs);
    TreeIsPlanned(run, k);
    ForwardAt(run.env, run.steps, run.fs, 0, k);
    StepExactly(run.env, Before(run.env, run.steps, run.fs, k), k, run.steps[k]);
  }

  /**
   * Without I/O failure, for every plan and tree: the run commits all steps if and only if each of them meets what it
   * plans for on the tree that the ones before it plan, and then ends in the planned tree. Else it stops at the first
   * step that does not, with the tree planned up to there, and has changed nothing since.
   */
  lemma RunSucceedsExactly(run: Run)
    requires NeverBreaks(run.env.io) && RealTargets(run.steps)
    ensures var n := CommittedCount(run.Results());
            && (EndsAborted(run.Results()) <==> exists k :: 0 <= k < |run.steps| && !MeetsAt(run, k))
            && (EndsAborted(run.Results()) ==> n < |run.steps| && !MeetsAt(run, n))
            && (!EndsAborted(run.Results()) ==> n == |run.steps|)
            && (forall k :: 0 <= k < n ==> MeetsAt(run, k))
            && Visible(run.End().files) == PlannedTree(run.env, run.steps, n, run.Start())
  {
    hide Forward, IsTemp, NeverBreaks, MeetsAt, PlannedTree, Visible;
    var rs := run.Results();
    ForwardShape(run.env, run.steps, 0, run.fs);
    forall k | 0 <= k < |rs| ensures rs[k].Committed? <==> MeetsAt(run, k) { ReachedExactly(run, k); }
    var n := CommittedCount(rs);
    TreeIsPlanned(run, n);
    RunEnd(run);
    if EndsAborted(rs) { AbortedLeavesTree(run); }
  }

  lemma AbortedLeavesTree(run: Run)
    requires NeverBreaks(run.env.io) && RealTargets(run.steps)
    requires EndsAborted(run.Results())
    ensures run.Tree(|run.Results()|) == run.Tree(|run.Results()| - 1)
  {
    hide Forward, ApplyStep, IsTemp, Meets, Visible, Planned, NeverBreaks;
    var k := |run.Results()| - 1;
    ForwardAt(run.env, run.steps, run.fs, 0, k);
    StepExactly(run.env, Before(run.env, run.steps, run.fs, k), k, run.steps[k]);
  }

  /** Without I/O failure a committed Copy found no file at its target. */
  lemma CopiesFoundNothing(run: Run, k: nat)
    requires NeverBreaks(run.env.io) && RealTargets(run.steps)
    requires k < |run.Results()| && run.Results()[k].Committed? && run.steps[k].operation.Copy?
    ensures T(run.steps[k]) !in run.Tree(k)
  {
    hide Forward, IsTemp, Visible, NeverBreaks, PlannedTree, Target, Supplies;
    ForwardShape(run.env, run.steps, 0, run.fs);
    ReachedExactly(run, k);
    TreeIsPlanned(run, k);
  }
}
