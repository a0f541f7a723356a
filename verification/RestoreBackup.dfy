/** From the backup to the rolled back tree: both engines, the log and the archive as text. */
module RestoreBackup {
  import opened Text
  import opened Octets
  import opened RestorePlan
  import opened RestoreDisk
  import opened RestoreApply
  import opened RestoreLog
  import opened RestoreRollback
  import opened RestoreUndo
  import opened RestoreTheorem
  import opened BackupArchive

  /** The last entry of the path has these bytes. */
  predicate Holds(es: seq<BackupEntry>, path: string, bytes: Bytes) {
    exists i :: 0 <= i < |es| && es[i].path == path && es[i].bytes == bytes && forall j :: i < j < |es| ==>
        es[j].path != path
  }

  /** The backup has the starting content of every file that a Delete or Replace of the plan names. */
  ghost predicate HoldsOriginals(backup: BackupPlan, run: Run) {
    forall k :: 0 <= k < |run.steps| && !run.steps[k].operation.Copy? && T(run.steps[k]) in run.Start() ==>
      Holds(backup.entries, run.steps[k].relativePath, run.Start()[T(run.steps[k])])
  }

  lemma HeldIsArchived(digest: DigestFn, backup: BackupPlan, uenv: UndoEnv, step: Step, bytes: Bytes)
    requires PrintablePlan(backup) && ParseArchive(digest, Payload(backup)) == Ok(uenv.archive)
    requires Holds(backup.entries, step.relativePath, bytes) && step.preRestoreDigest == Some(digest(bytes))
    ensures ArchivedFor(uenv, step).Ok?
  {
    hide PrintablePlan, ParseArchive, Payload, LastEntries;
    ArchiveRoundTrip(digest, backup);
    var es, path := backup.entries, step.relativePath;
    var i :| 0 <= i < |es| && es[i].path == path && es[i].bytes == bytes && forall j :: i < j < |es| ==>
        es[j].path != path;
    LastEntryWins(digest, es, i);
  }

  /** An undone Delete or Replace found its target on the starting tree at the planned digest. */
  lemma UndoneFoundAtStart(run: Run, k: nat)
    requires NoTempTargets(run.steps) && DistinctTargets(run.steps) && EndsAborted(run.Results()) && Restorable(run)
    requires IsUndone(run, k) && !run.steps[k].operation.Copy?
    ensures FoundAsPlanned(run.env, run.steps[k], run.Start())
  {
    hide Forward, IsTemp, Target, NoTempTargets, Restorable;
    FirstIsUndoable(run, k);
  }

  lemma BackupCovers(run: Run, backup: BackupPlan, uenv: UndoEnv)
    requires NoTempTargets(run.steps) && DistinctTargets(run.steps) && EndsAborted(run.Results()) && Restorable(run)
    requires PrintablePlan(backup) && ParseArchive(run.env.digest, Payload(backup)) == Ok(uenv.archive)
    requires HoldsOriginals(backup, run)
    ensures Covers(uenv, run) && HonestArchive(run.env.digest, uenv.archive) && Recognised(run)
  {
    hide Forward, PrintablePlan, ParseArchive, Payload, ArchivedFor, Holds, Target, NoTempTargets, DistinctTargets;
    hide Restorable;
    ParsedArchiveIsHonest(run.env.digest, Payload(backup));
    forall k | IsUndone(run, k) && !run.steps[k].operation.Copy? ensures ArchivedFor(uenv, run.steps[k]).Ok? {
      UndoneFoundAtStart(run, k);
      HeldIsArchived(run.env.digest, backup, uenv, run.steps[k], run.Start()[T(run.steps[k])]);
    }
    if FailingReplace(run) { UndoneFoundAtStart(run, |run.Results()| - 1); }
  }

  /**
   * A restore of a plan with distinct paths fails half way. From its own log and the text of a backup of the starting
   * contents, with no I/O failure, rollback reports `rolled_back` and every file is as before the restore, for every
   * restorable run.
   */
  lemma BackupThenRollback(
    run: Run, plan: StagedPlan, root: string, describe: nat -> string, backup: BackupPlan, uenv: UndoEnv, fs: Fs)
    requires plan.steps == run.steps && PlainPlan(plan, root) && PlainPaths(run.steps, run.Results())
    requires forall k :: 0 <= k < |run.steps| ==> ValidStep(run.steps[k])
    requires NoTempTargets(run.steps) && DistinctTargets(run.steps)
    requires EndsAborted(run.Results()) && Executed(run.Results()) && Restorable(run)
    requires PrintablePlan(backup) && HoldsOriginals(backup, run)
    requires uenv.digest == run.env.digest && ParseArchive(run.env.digest, Payload(backup)) == Ok(uenv.archive)
    requires NeverBreaks(uenv.io) && NoCollision(run.env, run.Start(), uenv.archive)
    requires Visible(fs.files) == Visible(run.End().files)
    ensures var accepted := Accepted(plan, LogOf(run, plan, root, describe));
      && accepted.Ok?
      && var (fs', us) := UndoAll(uenv, accepted.value, 0, fs);
         ReportOf(accepted.value, us).status == ROLLED_BACK && Visible(fs'.files) == run.Start()
  {
    hide Forward, Accepted, LogOf, PlainPlan, NoTempTargets, DistinctTargets, UndoAll, AllUndone, Restorable;
    hide CandidatesOf, NoCollision, HonestArchive, Visible, ReportOf, Covers, Recognised, HoldsOriginals, ParseArchive;
    hide Payload, PrintablePlan, ValidStep, Executed, NeverBreaks, PlainPaths;
    OwnLogAccepted(run, plan, root, describe);
    BackupCovers(run, backup, uenv);
    RollbackSucceedsExactly(run, uenv, fs);
    ReportMeansUndone(uenv, CandidatesOf(run), fs);
    UndoExactly(run, uenv, fs);
  }

  // ---------------------------------------------------------------- instances

  /** Deletes `a`, then fails to delete `b`, which is missing. */
  function FailedRun(d: DigestFn, was: Bytes): Run { DeletingRun(d, "a", was) }

  function FailedPlan(d: DigestFn, was: Bytes): StagedPlan { StagedPlan("p", "h", FailedRun(d, was).steps) }

  function BackupOfA(was: Bytes): BackupPlan {
    BackupPlan("x", "r", "g", "p", "c", "w", [BackupEntry("a", was, false)], false)
  }

  lemma FailedRunShape(d: DigestFn, was: Bytes)
    ensures var run := FailedRun(d, was);
      && EndsAborted(run.Results()) && Executed(run.Results()) && Restorable(run)
          && PlainPaths(run.steps, run.Results())
      && NoTempTargets(run.steps) && DistinctTargets(run.steps)
      && run.Start() == map[["a"] := was] && run.End().files == map[]
  {
    SimpleTarget("a");
    SimpleTarget("b");
    ShortNameIsNotTemp("a");
    ShortNameIsNotTemp("b");
    hide Target, IsTemp, ApplyStep, Forward;
    DeletingRunShape(d, "a", was);
    assert Plain("a") && Plain("b");
  }

  lemma FailedPlanIsPlain(d: DigestFn, was: Bytes)
    requires ValidDigest(d(was)) && Plain(d(was))
    ensures PlainPlan(FailedPlan(d, was), "t") && forall k :: 0 <= k < 2 ==> ValidStep(FailedRun(d, was).steps[k])
  {
    StepsAreValid(d, was, was);
    hide ValidStep;
    assert Plain("a") && Plain("b");
  }

  lemma BackupHoldsA(d: DigestFn, was: Bytes)
    requires |was| <= USIZE_MAX
    ensures PrintablePlan(BackupOfA(was)) && HoldsOriginals(BackupOfA(was), FailedRun(d, was))
    ensures ParseArchive(d, Payload(BackupOfA(was))) == Ok(map["a" := ArchiveEntry("a", was, d(was), false)])
  {
    hide ParseArchive, Payload, Forward, ValidRelativePath, Target;
    ShortPathIsValid('a');
    SimpleTarget("a");
    SimpleTarget("b");
    assert "a" == ['a'];
    var es := BackupOfA(was).entries;
    assert PrintableEntry(es[0]);
    ArchiveRoundTrip(d, BackupOfA(was));
    assert es[..0] == [];
    assert Holds(es, "a", was);
  }

  /**
   * For every digest and every content, the hypotheses can be met with a file to give back: `a` is deleted, the next
   * step fails, and rollback writes `a` again from the backup.
   */
  lemma DeletedFileComesBack(d: DigestFn, was: Bytes, describe: nat -> string)
    requires ValidDigest(d(was)) && Plain(d(was)) && |was| <= USIZE_MAX
    ensures var run, plan := FailedRun(d, was), FailedPlan(d, was);
      var uenv := UndoEnv(ALWAYS_FINE, d, map["a" := ArchiveEntry("a", was, d(was), false)]);
      var accepted := Accepted(plan, LogOf(run, plan, "t", describe));
      && accepted.Ok? && ["a"] !in run.End().files
      && Visible(UndoAll(uenv, accepted.value, 0, run.End()).0.files) == map[["a"] := was]
  {
    var run, plan := FailedRun(d, was), FailedPlan(d, was);
    var uenv := UndoEnv(ALWAYS_FINE, d, map["a" := ArchiveEntry("a", was, d(was), false)]);
    assert NeverBreaks(uenv.io);
    FailedRunShape(d, was);
    assert NoCollision(run.env, run.Start(), uenv.archive) by { hide Forward, Visible; }
    hide Accepted, LogOf, PlainPlan, NoTempTargets, DistinctTargets, UndoAll, Restorable, HoldsOriginals, ParseArchive;
    hide Payload, NeverBreaks, NoCollision, ValidStep, Forward, PrintablePlan, ReportOf, Executed, EndsAborted, Visible;
    hide PlainPaths;
    FailedPlanIsPlain(d, was);
    BackupHoldsA(d, was);
    BackupThenRollback(run, plan, "t", describe, BackupOfA(was), uenv, run.End());
  }
}
