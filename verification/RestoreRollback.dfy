/** The rollback engine: re-reads the log, derives the candidates and undoes them one by one. */
module RestoreRollback {
  import opened Text
  import opened Octets
  import opened RestorePlan
  import opened RestoreDisk
  import opened RestoreApply
  import opened RestoreLog

  /** One file of the pre-restore archive. */
  datatype ArchiveEntry = ArchiveEntry(relativePath: string, bytes: Bytes, digest: string, redacted: bool)

  type Archive = map<string, ArchiveEntry>

  datatype UndoEnv = UndoEnv(io: Oracle, digest: DigestFn, archive: Archive)

  // ---------------------------------------------------------------- one undo

  /** `verify_restore_rollback_restore_target`, on the outcome of its read. */
  function TargetRestorable(digest: DigestFn, current: Outcome<Bytes>, c: Candidate, pre: string): Result<()> {
    match (c.step.operation, current)
    case (Delete, Missing) => Ok(())
    case (Delete, Done(bytes)) => if digest(bytes) == pre then Ok(()) else Err(Conflict)
    case (Replace, Missing) => if c.failedReplace then Ok(()) else Err(Conflict)
    case (Replace, Done(bytes)) =>
      if c.step.expectedDigest.None? then Err(InvalidArgument)
      else if digest(bytes) == c.step.expectedDigest.value || digest(bytes) == pre then Ok(())
      else Err(Conflict)
    case (_, Failed) => Err(Conflict)
    case (Copy, _) => Ok(())
  }

  /** The undo of a Copy deletes the copied file if it is still the planned one. */
  function UndoCopy(env: UndoEnv, fs: Fs, step: Step, target: Path): (Fs, Result<Option<string>>) {
    if step.expectedDigest.None? then (fs, Err(InvalidArgument)) else
    var (fs1, current) := Read(env.io, fs, target);
    if !current.Done? || env.digest(current.value) != step.expectedDigest.value then (fs1, Err(Conflict)) else
    var (fs2, removed) := Remove(env.io, fs1, target);
    (fs2, if removed then Ok(None) else Err(Internal))
  }

  /** The archived bytes that a Delete or Replace is undone with. */
  function ArchivedFor(env: UndoEnv, step: Step): Result<ArchiveEntry> {
    if step.relativePath !in env.archive then Err(NotFound)
    else if step.preRestoreDigest.None? then Err(InvalidArgument)
    else if env.archive[step.relativePath].digest != step.preRestoreDigest.value then Err(Conflict)
    else Ok(env.archive[step.relativePath])
  }

  function UndoRestore(env: UndoEnv, fs: Fs, index: nat, c: Candidate, target: Path): (Fs, Result<Option<string>>) {
    var entry := ArchivedFor(env, c.step);
    if entry.Err? then (fs, Err(entry.error)) else
    var (fs1, current) := Read(env.io, fs, target);
    var verified := TargetRestorable(env.digest, current, c, entry.value.digest);
    if verified.Err? then (fs1, Err(verified.error)) else
    var (fs2, ok) := AtomicWrite(env.io, fs1, target, index, entry.value.bytes);
    (fs2, if ok then Ok(Some(entry.value.digest)) else Err(Internal))
  }

  /** `apply_restore_rollback_step` */
  function Undo(env: UndoEnv, fs: Fs, index: nat, c: Candidate): (Fs, Result<Option<string>>) {
    var target := Target(c.step.relativePath);
    var (fs0, plain) := Probe(env.io, fs);
    if !plain then (fs0, Err(PermissionDenied))
    else if c.step.operation.Copy? then UndoCopy(env, fs0, c.step, target)
    else UndoRestore(env, fs0, index, c, target)
  }

  // ---------------------------------------------------------------- the run

  /** The tree after undoing `cs` in order, and one result for each undo reached. */
  function UndoAll(env: UndoEnv, cs: seq<Candidate>, index: nat, fs: Fs): (run: (Fs, seq<Result<Option<string>>>))
    ensures |run.1| <= |cs|
    decreases |cs|
  {
    if cs == [] then (fs, []) else
    var (fs1, r) := Undo(env, fs, index, cs[0]);
    if r.Err? then (fs1, [r]) else
    var (fs2, rs) := UndoAll(env, cs[1..], index + 1, fs1);
    (fs2, [r] + rs)
  }

  predicate AllUndone(rs: seq<Result<Option<string>>>) {
    forall r :: r in rs ==> r.Ok?
  }

  const ROLLED_BACK := "rolled_back"
  const ROLLBACK_FAILED := "rollback_failed"

  datatype RollbackReport = RollbackReport(
    status: string, rollbackExecuted: bool, completedSteps: nat, failedStep: Option<string>)

  function ReportOf(cs: seq<Candidate>, rs: seq<Result<Option<string>>>): RollbackReport
    requires |rs| <= |cs|
  {
    if rs != [] && rs[|rs| - 1].Err? then
      RollbackReport(ROLLBACK_FAILED, |rs| > 1, |rs| - 1, Some(cs[|rs| - 1].step.relativePath))
    else RollbackReport(ROLLED_BACK, |rs| > 0, |rs|, None)
  }

  /** The checks before the first undo. */
  function Accepted(plan: StagedPlan, data: string): Result<seq<Candidate>> {
    var log :- ParseLog(data);
    if log.planId != plan.planId then Err(Conflict)
    else if log.preflightHash != plan.preflightHash then Err(Conflict)
    else if log.status != ROLLBACK_REQUIRED then Err(Conflict)
    else if !log.mutationExecuted then Err(Conflict)
    else Candidates(plan.steps, log)
  }

  /** Every undo before the last one of a run succeeded; the last failed or none is left. */
  lemma {:induction false} UndoAllShape(env: UndoEnv, cs: seq<Candidate>, index: nat, fs: Fs)
    ensures var rs := UndoAll(env, cs, index, fs).1;
      && (forall k :: 0 <= k < |rs| - 1 ==> rs[k].Ok?)
      && (AllUndone(rs) ==> |rs| == |cs|)
      && (cs != [] ==> rs != [])
    decreases |cs|
  {
    hide Undo;
    if cs != [] {
      var (fs1, r) := Undo(env, fs, index, cs[0]);
      if r.Ok? {
        UndoAllShape(env, cs[1..], index + 1, fs1);
        var rs1 := UndoAll(env, cs[1..], index + 1, fs1).1;
        var rs := UndoAll(env, cs, index, fs).1;
        assert rs == [r] + rs1;
        assert AllUndone(rs) ==> AllUndone(rs1) by {
          assert forall x :: x in rs1 ==> x in rs;
        }
      } else {
        assert r in [r];
      }
    }
  }

  /**
   * The report says `rolled_back` exactly when every candidate was undone. Else it counts the undos before the one that
   * failed, names that one, and says whether there were any.
   */
  lemma ReportMeansUndone(env: UndoEnv, cs: seq<Candidate>, fs: Fs)
    ensures var rs := UndoAll(env, cs, 0, fs).1;
      var report := ReportOf(cs, rs);
      && (report.status == ROLLED_BACK <==> AllUndone(rs))
      && (report.status == ROLLED_BACK || report.status == ROLLBACK_FAILED)
      && (AllUndone(rs) ==>
          report.completedSteps == |cs| && report.failedStep.None? && report.rollbackExecuted == (cs != []))
      && (!AllUndone(rs) ==>
            && report.completedSteps < |cs| && (forall k :: 0 <= k < report.completedSteps ==> rs[k].Ok?)
            && |rs| == report.completedSteps + 1 && rs[report.completedSteps].Err?
            && report.failedStep == Some(cs[report.completedSteps].step.relativePath)
            && report.rollbackExecuted == (report.completedSteps > 0))
  {
    hide UndoAll;
    UndoAllShape(env, cs, 0, fs);
    var rs := UndoAll(env, cs, 0, fs).1;
    assert ROLLED_BACK != ROLLBACK_FAILED by { assert ROLLED_BACK[4] == 'e' && ROLLBACK_FAILED[4] == 'b'; }
    if rs != [] {
      var last := rs[|rs| - 1];
      assert last in rs;
      assert last.Ok? ==> forall k :: 0 <= k < |rs| ==> rs[k].Ok?;
    }
  }

  // ---------------------------------------------------------------- the engine

  method CheckedUndo(disk: Disk, env: UndoEnv, index: nat, c: Candidate) returns (r: Result<Option<string>>)
    requires disk.io == env.io
    modifies disk
    ensures (disk.State(), r) == Undo(env, old(disk.State()), index, c)
  {
    hide AtomicWrite, Target, TargetRestorable, ArchivedFor;
    var target := Target(c.step.relativePath);
    var plain := disk.ProbeFile();
    if !plain { return Err(PermissionDenied); }
    if c.step.operation.Copy? {
      if c.step.expectedDigest.None? { return Err(InvalidArgument); }
      var current := disk.ReadFile(target);
      if !current.Done? || env.digest(current.value) != c.step.expectedDigest.value { return Err(Conflict); }
      var removed := disk.RemoveFile(target);
      return if removed then Ok(None) else Err(Internal);
    }
    var entry := ArchivedFor(env, c.step);
    if entry.Err? { return Err(entry.error); }
    var current := disk.ReadFile(target);
    var verified := TargetRestorable(env.digest, current, c, entry.value.digest);
    if verified.Err? { return Err(verified.error); }
    var ok := disk.WriteAtomically(target, index, entry.value.bytes);
    return if ok then Ok(Some(entry.value.digest)) else Err(Internal);
  }

  /** `RestoreRollbackEngine::apply` on the text of the transaction log. */
  method RollbackApply(disk: Disk, env: UndoEnv, plan: StagedPlan, data: string) returns (r: Result<RollbackReport>)
    requires disk.io == env.io
    modifies disk
    ensures var accepted := Accepted(plan, data);
      if accepted.Err? then r == Err(accepted.error) && disk.State() == old(disk.State())
      else
        var (fs', rs) := UndoAll(env, accepted.value, 0, old(disk.State()));
        disk.State() == fs' && r == Ok(ReportOf(accepted.value, rs))
  {
    hide Candidates, ParseLog;
    var parsed := ParseTransactionLog(data);
    if parsed.Err? { return Err(parsed.error); }
    var log := parsed.value;
    if log.planId != plan.planId { return Err(Conflict); }
    if log.preflightHash != plan.preflightHash { return Err(Conflict); }
    if log.status != ROLLBACK_REQUIRED { return Err(Conflict); }
    if !log.mutationExecuted { return Err(Conflict); }
    var candidates := RollbackCandidates(plan.steps, log);
    if candidates.Err? { return Err(candidates.error); }
    var report := UndoLoop(disk, env, candidates.value);
    return Ok(report);
  }

  /** The undo loop of the engine: stops at the first failure. */
  method UndoLoop(disk: Disk, env: UndoEnv, cs: seq<Candidate>) returns (report: RollbackReport)
    requires disk.io == env.io
    modifies disk
    ensures var (fs', rs) := UndoAll(env, cs, 0, old(disk.State()));
      disk.State() == fs' && report == ReportOf(cs, rs)
  {
    hide Undo;
    ghost var whole := UndoAll(env, cs, 0, disk.State());
    ghost var done: seq<Result<Option<string>>> := [];
    assert cs[0..] == cs && [] + whole.1 == whole.1;
    for i := 0 to |cs|
      invariant |done| == i && forall k :: 0 <= k < i ==> done[k].Ok?
      invariant var rest := UndoAll(env, cs[i..], i, disk.State());
        whole == (rest.0, done + rest.1)
    {
      ghost var before := disk.State();
      assert cs[i..][1..] == cs[i + 1..];
      var r := CheckedUndo(disk, env, i, cs[i]);
      if r.Err? {
        assert whole.1 == done + [r];
        return RollbackReport(ROLLBACK_FAILED, i > 0, i, Some(cs[i].step.relativePath));
      }
      ghost var rest := UndoAll(env, cs[i + 1..], i + 1, disk.State());
      assert done + ([r] + rest.1) == (done + [r]) + rest.1;
      done := done + [r];
    }
    assert whole.1 == done + [] == done;
    return RollbackReport(ROLLED_BACK, |cs| > 0, |cs|, None);
  }
}
