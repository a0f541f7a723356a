/** The two restore engines together, through the text of the log, and two families of inputs on which a
    rollback that reports success does not give the tree back. */
module RestoreTheorem {
  import opened Text
  import opened Octets
  import opened RestorePlan
  import opened RestoreDisk
  import opened RestoreApply
  import opened RestoreLog
  import opened RestoreRollback
  import opened RestoreUndo
  import Preflight

  /** The log text that the forward engine leaves behind. */
  function LogOf(run: Run, plan: StagedPlan, root: string, describe: nat -> string): string
    requires plan.steps == run.steps
  {
    Unlines(LogLines(plan, root, run.Results(), describe))
  }

  /**
   * For every run: rollback accepts the log that it left, and undoes exactly its committed steps reversed, after the
   * failing step when that is a Replace, if and only if the run failed, mutated something, and reached no step with a
   * line break in its path. Otherwise, a run that was applied included, it refuses the log that its own engine wrote.
   */
  lemma OwnLogAccepted(run: Run, plan: StagedPlan, root: string, describe: nat -> string)
    requires plan.steps == run.steps && PlainPlan(plan, root)
    ensures var rs := run.Results();
      Accepted(plan, LogOf(run, plan, root, describe)) ==
        if EndsAborted(rs) && Executed(rs) && PlainPaths(run.steps, rs) then Ok(CandidatesOf(run)) else Err(Conflict)
  {
    hide Forward, ParseLog, Candidates, LogLines, PlainPlan, RunEntries, AllAsRead, RunResults, Executed, PlainPaths;
    ForwardResults(run.env, run.steps, run.fs);
    LogRoundTrip(plan, root, run.Results(), describe);
    StatusesDiffer();
    if Executed(run.Results()) { CandidatesOfRun(plan, run.Results(), describe); }
  }

  /** The log of a run of another plan, by its id or its preflight hash, is refused. */
  lemma OtherLogRefused(run: Run, written: StagedPlan, plan: StagedPlan, root: string, describe: nat -> string)
    requires written.steps == run.steps && PlainPlan(written, root)
    requires plan.planId != written.planId || plan.preflightHash != written.preflightHash
    ensures Accepted(plan, LogOf(run, written, root, describe)) == Err(Conflict)
  {
    hide Forward, ParseLog, Candidates, LogLines, PlainPlan, RunEntries, AllAsRead, RunResults, Executed;
    ForwardResults(run.env, run.steps, run.fs);
    LogRoundTrip(written, root, run.Results(), describe);
  }

  /** A run that mutated something and one that did not are told apart by the log: without a
      mutation rollback refuses, and the tree is as before. */
  lemma NothingExecuted(run: Run, plan: StagedPlan, root: string, describe: nat -> string)
    requires plan.steps == run.steps && PlainPlan(plan, root) && NoTempTargets(run.steps)
    requires EndsAborted(run.Results()) && !Executed(run.Results())
    ensures Accepted(plan, LogOf(run, plan, root, describe)) == Err(Conflict)
    ensures Visible(run.End().files) == run.Start()
  {
    hide Forward, ParseLog, Candidates, LogLines, PlainPlan, RunEntries, AllAsRead, RunResults, Executed, NoTempTargets;
    ForwardResults(run.env, run.steps, run.fs);
    LogRoundTrip(plan, root, run.Results(), describe);
    OnlyStepFailed(run);
  }

  lemma OnlyStepFailed(run: Run)
    requires EndsAborted(run.Results()) && !Executed(run.Results()) && NoTempTargets(run.steps)
    ensures Visible(run.End().files) == run.Start()
  {
    hide Forward, IsTemp, Visible;
    ForwardShape(run.env, run.steps, 0, run.fs);
    var rs := run.Results();
    assert rs[0] in rs;
    assert |rs| == 1;
    RunEnd(run);
    RunStep(run, 0);
    NothingChanged(run.env, run.steps[0], run.Tree(0), run.Tree(1), rs[0]);
    assert run.Tree(0) == run.Start();
  }

  lemma NothingChanged(env: Env, step: Step, v: Files, v': Files, r: StepResult)
    requires StepEffect(env, step, v, v', r) && r.Aborted? && !r.mutationExecuted
    ensures v' == v
  {
  }

  /** Apply, then rollback from the log: a reported success means that every file is as before the run, if and only if
      the run was restorable. */
  lemma RollbackUndoesApply(run: Run, plan: StagedPlan, root: string, describe: nat -> string, uenv: UndoEnv, fs: Fs)
    requires plan.steps == run.steps && PlainPlan(plan, root)
    requires NoTempTargets(run.steps)
    requires EndsAborted(run.Results()) && Executed(run.Results())
    requires uenv.digest == run.env.digest && HonestArchive(run.env.digest, uenv.archive)
    requires NoCollision(run.env, run.Start(), uenv.archive)
    requires Visible(fs.files) == Visible(run.End().files)
    ensures var accepted := Accepted(plan, LogOf(run, plan, root, describe));
      && (accepted.Ok? <==> PlainPaths(run.steps, run.Results()))
      && (accepted.Ok? ==>
            var (fs', us) := UndoAll(uenv, accepted.value, 0, fs);
            ReportOf(accepted.value, us).status == ROLLED_BACK ==>
              (Visible(fs'.files) == run.Start() <==> Restorable(run)))
  {
    hide Forward, Accepted, LogOf, PlainPlan, PlainPaths, NoTempTargets, UndoAll, AllUndone, Restorable, CandidatesOf;
    hide NoCollision, HonestArchive, Visible, ReportOf;
    OwnLogAccepted(run, plan, root, describe);
    ReportMeansUndone(uenv, CandidatesOf(run), fs);
    if AllUndone(UndoAll(uenv, CandidatesOf(run), 0, fs).1) {
      UndoExactly(run, uenv, fs);
    }
  }

  /**
   * The rollback manifest of the plan says what an undo does: it announces a removal exactly for the steps whose undo
   * removes the file, and else the digest of the content that the undo puts back.
   */
  lemma ManifestTellsUndo(uenv: UndoEnv, fs: Fs, index: nat, c: Candidate)
    requires !IsTemp(T(c.step)) && HonestArchive(uenv.digest, uenv.archive) && Undo(uenv, fs, index, c).1.Ok?
    ensures var v := Visible(Undo(uenv, fs, index, c).0.files);
            var entry := Preflight.RollbackEntryOf(c.step);
            && entry.relativePath == c.step.relativePath
            && (entry.action == "delete_restored_path" <==> T(c.step) !in v)
            && (entry.action == "restore_pre_restore_digest" <==> T(c.step) in v)
            && entry.preRestoreDigest == if T(c.step) in v then Some(uenv.digest(v[T(c.step)])) else None
  {
    hide Undo, IsTemp, Target;
    UndoHasEffect(uenv, fs, index, c);
    assert "delete_restored_path"[0] == 'd' && "restore_pre_restore_digest"[0] == 'r';
  }

  // ---------------------------------------------------------------- steps on the files `a` and `b`

  lemma SimpleTarget(name: string)
    requires '/' !in name && name != "."
    ensures Target(name) == [name]
  {
    assert Split(name, '/') == [name];
    assert [name][1..] == [] && WithoutDots([]) == [];
  }

  lemma ShortNameIsNotTemp(name: string)
    requires |name| == 1
    ensures !IsTemp([name])
  {
  }

  lemma ShortPathIsValid(c: char)
    requires 'a' <= c <= 'z'
    ensures ValidRelativePath([c]) && Plain([c])
  {
    assert Split([c], '/') == [[c]];
    assert [c][0] == c && !IsWhitespace(c);
  }

  function Sources(d: DigestFn, bytes: Bytes): map<string, Artifact> { map["k" := Artifact("k", bytes, d(bytes))] }

  function CopyA(d: DigestFn, bytes: Bytes): Step { Step(Copy, "a", Some("k"), Some(d(bytes)), None) }

  function DeleteOf(path: string, d: DigestFn, was: Bytes): Step { Step(Delete, path, None, None, Some(d(was))) }

  function ReplaceB(d: DigestFn, bytes: Bytes, was: Bytes): Step {
    Step(Replace, "b", Some("k"), Some(d(bytes)), Some(d(was)))
  }

  lemma StepsAreValid(d: DigestFn, bytes: Bytes, was: Bytes)
    requires ValidDigest(d(bytes)) && ValidDigest(d(was))
    ensures ValidStep(CopyA(d, bytes)) && ValidStep(ReplaceB(d, bytes, was))
    ensures ValidStep(DeleteOf("a", d, was)) && ValidStep(DeleteOf("b", d, was))
  {
    hide ValidRelativePath, ValidDigest;
    ShortPathIsValid('a');
    ShortPathIsValid('b');
    ShortPathIsValid('k');
    assert "a" == ['a'] && "b" == ['b'] && "k" == ['k'];
  }

  const ALWAYS_FINE: Oracle := _ => Fine

  lemma TwoSteps(env: Env, steps: seq<Step>, fs: Fs)
    requires |steps| == 2
    ensures var (fs1, r0) := ApplyStep(env, fs, 0, steps[0]);
      var (fs2, r1) := ApplyStep(env, fs1, 1, steps[1]);
      r0.Committed? && r1.Aborted? ==> Forward(env, steps, 0, fs) == (fs2, [r0, r1])
  {
    hide ApplyStep;
    var (fs1, r0) := ApplyStep(env, fs, 0, steps[0]);
    var (fs2, r1) := ApplyStep(env, fs1, 1, steps[1]);
    if r0.Committed? && r1.Aborted? {
      assert Forward(env, steps, 1, fs1) == (fs2, [r1]);
      assert [r0] + [r1] == [r0, r1];
    }
  }

  /** Deleting or replacing the missing `b` fails and changes nothing. */
  lemma NoFileB(env: Env, fs: Fs, step: Step)
    requires ["b"] !in fs.files && env.io(fs.tick).Fine?
    requires step.relativePath == "b" && !step.operation.Copy? && step.preRestoreDigest.Some?
    ensures var (fs', r) := ApplyStep(env, fs, 1, step);
      r == Aborted(false, Conflict) && fs'.files == fs.files
  {
    SimpleTarget("b");
    hide Target, AtomicReplace, AtomicWrite;
  }

  /** A Copy of `a` puts the bytes there if it does not see a file. */
  lemma CopiedA(env: Env, d: DigestFn, bytes: Bytes, fs: Fs)
    requires env.digest == d && env.sources == Sources(d, bytes) && fs.files.Keys <= {["a"]}
    requires forall n: nat :: n != fs.tick + 1 ==> env.io(n).Fine?
    requires fs.files == map[] || env.io(fs.tick + 1).Broken?
    ensures var (fs1, r) := ApplyStep(env, fs, 0, CopyA(d, bytes));
      r == Committed(Some(d(bytes))) && fs1.files == map[["a"] := bytes] && fs1.tick >= fs.tick + 2
  {
    SimpleTarget("a");
    ShortNameIsNotTemp("a");
    hide Target;
    assert SourceBytes(env, CopyA(d, bytes)) == Ok(bytes);
    var temp := TempPath(["a"], 0);
    TempPathIsTemp(["a"], 0);
    assert temp != ["a"];
    var fs2 := fs.(tick := fs.tick + 2);
    assert AtomicWrite(env.io, fs2, ["a"], 0, bytes).0.files == map[["a"] := bytes];
  }

  // ---------------------------------------------------------------- a Replace that failed on a missing file

  /** Copies `a`, then fails to replace `b`, which is missing. */
  function MissingRun(d: DigestFn, bytes: Bytes, was: Bytes): Run {
    Run(Env(ALWAYS_FINE, d, Sources(d, bytes)), [CopyA(d, bytes), ReplaceB(d, bytes, was)], Fs(map[], 0))
  }

  /** The archive has the `b` that the plan expected. */
  function MissingUndo(d: DigestFn, was: Bytes): UndoEnv {
    UndoEnv(ALWAYS_FINE, d, map["b" := ArchiveEntry("b", was, d(was), false)])
  }

  /**
   * For every digest and all contents, rollback of that run reports success and leaves a file `b` that never existed.
   */
  lemma FailedReplaceCreatesAFile(d: DigestFn, bytes: Bytes, was: Bytes)
    ensures var run := MissingRun(d, bytes, was);
      && run.Results() == [Committed(Some(d(bytes))), Aborted(false, Conflict)]
      && HonestArchive(d, MissingUndo(d, was).archive) && !Restorable(run)
      && var (fs', us) := UndoAll(MissingUndo(d, was), CandidatesOf(run), 0, run.End());
         AllUndone(us) && ["b"] in fs'.files && ["b"] !in run.fs.files
  {
    SimpleTarget("a");
    SimpleTarget("b");
    ShortNameIsNotTemp("a");
    ShortNameIsNotTemp("b");
    hide Target, IsTemp, ApplyStep, Forward, Undo, UndoAll;
    var run := MissingRun(d, bytes, was);
    CopiedA(run.env, d, bytes, run.fs);
    var fs1 := ApplyStep(run.env, run.fs, 0, run.steps[0]).0;
    NoFileB(run.env, fs1, run.steps[1]);
    TwoSteps(run.env, run.steps, run.fs);
    assert run.Start() == map[];
    assert FailingReplace(run) && FirstOn(run.steps, 1);
    var cs := [Candidate(run.steps[1], true), Candidate(run.steps[0], false)];
    assert CandidatesOf(run) == cs by {
      CandidatesShape(run);
      assert Reversed(run.steps, 1) == [Candidate(run.steps[0], false)];
    }
    UndoMissing(d, bytes, was, run.End());
  }

  lemma UndoMissing(d: DigestFn, bytes: Bytes, was: Bytes, fs: Fs)
    requires fs.files == map[["a"] := bytes]
    ensures var (fs', us) := UndoAll(MissingUndo(d, was), [Candidate(ReplaceB(d, bytes, was), true),
            Candidate(CopyA(d, bytes), false)], 0, fs);
      AllUndone(us) && ["b"] in fs'.files
  {
    SimpleTarget("a");
    SimpleTarget("b");
    ShortNameIsNotTemp("a");
    ShortNameIsNotTemp("b");
    hide Target, Undo, IsTemp;
    var uenv := MissingUndo(d, was);
    var cs := [Candidate(ReplaceB(d, bytes, was), true), Candidate(CopyA(d, bytes), false)];
    assert NeverBreaks(uenv.io);
    forall c | c in cs ensures T(c.step) != [] && !IsTemp(T(c.step)) {}
    var v := Visible(fs.files);
    assert ["a"] in v && ["b"] !in v;
    assert ArchivedFor(uenv, cs[0].step).Ok?;
    assert UndoReady(uenv, cs[0], v) && UndoReady(uenv, cs[1], v);
    UndoAllSucceeds(uenv, cs, 0, fs);
    UndoAllLeaves(uenv, cs, 0, fs, 0);
  }

  // ---------------------------------------------------------------- a Copy over a file that was not seen

  /** The metadata call of the existence test breaks. */
  const OVERWRITE_IO: Oracle := n => if n == 1 then Broken(None) else Fine

  /** The Copy overwrites `a`; the Delete of the missing `b` fails. */
  function OverwriteRun(d: DigestFn, bytes: Bytes, users: Bytes, was: Bytes): Run {
    Run(Env(OVERWRITE_IO, d, Sources(d, bytes)), [CopyA(d, bytes), DeleteOf("b", d, was)], Fs(map[["a"] := users], 0))
  }

  /**
   * For every digest, all contents and every archive, rollback of that run reports success and has deleted the user's
   * file.
   */
  lemma CopyOverUnseenFileIsLost(d: DigestFn, bytes: Bytes, users: Bytes, was: Bytes, archive: Archive)
    ensures var run := OverwriteRun(d, bytes, users, was);
      && run.Results() == [Committed(Some(d(bytes))), Aborted(false, Conflict)] && !Restorable(run)
      && var (fs', us) := UndoAll(UndoEnv(ALWAYS_FINE, d, archive), CandidatesOf(run), 0, run.End());
         AllUndone(us) && ["a"] !in fs'.files && ["a"] in run.fs.files
  {
    SimpleTarget("a");
    SimpleTarget("b");
    ShortNameIsNotTemp("a");
    hide Target, IsTemp, ApplyStep, Forward, Undo, UndoAll;
    var run := OverwriteRun(d, bytes, users, was);
    CopiedA(run.env, d, bytes, run.fs);
    var fs1 := ApplyStep(run.env, run.fs, 0, run.steps[0]).0;
    NoFileB(run.env, fs1, run.steps[1]);
    TwoSteps(run.env, run.steps, run.fs);
    assert ["a"] in run.Start();
    assert FirstOn(run.steps, 0);
    var c := Candidate(run.steps[0], false);
    assert CandidatesOf(run) == [c] by {
      CandidatesShape(run);
      assert Reversed(run.steps, 1) == [c];
    }
    UndoOverwrite(UndoEnv(ALWAYS_FINE, d, archive), bytes, run.End());
  }

  lemma UndoOverwrite(uenv: UndoEnv, bytes: Bytes, fs: Fs)
    requires fs.files == map[["a"] := bytes] && uenv.io == ALWAYS_FINE
    ensures var (fs', us) := UndoAll(uenv, [Candidate(CopyA(uenv.digest, bytes), false)], 0, fs);
      AllUndone(us) && ["a"] !in fs'.files
  {
    SimpleTarget("a");
    hide Target;
    var c := Candidate(CopyA(uenv.digest, bytes), false);
    var (fs1, u) := Undo(uenv, fs, 0, c);
    assert u.Ok? && ["a"] !in fs1.files;
    hide Undo;
    assert [c][1..] == [] && UndoAll(uenv, [], 1, fs1) == (fs1, []);
    assert UndoAll(uenv, [c], 0, fs) == (fs1, [u] + []);
  }

  // ---------------------------------------------------------------- a log that its own engine refuses

  lemma DeletedFile(env: Env, path: string, was: Bytes)
    requires env.io == ALWAYS_FINE && '/' !in path && path != "."
    ensures var (fs1, r) := ApplyStep(env, Fs(map[[path] := was], 0), 0, DeleteOf(path, env.digest, was));
      r == Committed(Some(env.digest(was))) && fs1.files == map[]
  {
    SimpleTarget(path);
    hide Target;
    assert map[[path] := was] - {[path]} == map[];
  }

  /** Deletes the file `path`, then fails to delete `b`, which is missing. */
  function DeletingRun(d: DigestFn, path: string, was: Bytes): Run {
    Run(Env(ALWAYS_FINE, d, map[]), [DeleteOf(path, d, was), DeleteOf("b", d, was)], Fs(map[[path] := was], 0))
  }

  lemma DeletingRunShape(d: DigestFn, path: string, was: Bytes)
    requires '/' !in path && path != "."
    ensures var run := DeletingRun(d, path, was);
      && run.Results() == [Committed(Some(d(was))), Aborted(false, Conflict)] && run.End().files == map[]
      && EndsAborted(run.Results()) && Executed(run.Results())
  {
    var run := DeletingRun(d, path, was);
    DeletedFile(run.env, path, was);
    hide ApplyStep, Forward;
    NoFileB(run.env, ApplyStep(run.env, run.fs, 0, run.steps[0]).0, run.steps[1]);
    TwoSteps(run.env, run.steps, run.fs);
    assert run.Results()[0] in run.Results();
  }

  const BROKEN := ['a', '\n', 'b']

  lemma BrokenIsValid()
    ensures ValidRelativePath(BROKEN) && '\n' in BROKEN && '/' !in BROKEN
  {
    assert BROKEN[0] == 'a' && BROKEN[1] == '\n' && BROKEN[2] == 'b';
    assert Split(BROKEN, '/') == [BROKEN];
    assert !IsWhitespace('a') && !IsWhitespace('b');
  }

  lemma BrokenPlanIsPlain(d: DigestFn, was: Bytes)
    requires ValidDigest(d(was)) && Plain(d(was))
    ensures PlainPlan(StagedPlan("p", "h", DeletingRun(d, BROKEN, was).steps), "t")
  {
    hide ValidRelativePath, ValidDigest;
    BrokenIsValid();
    StepsAreValid(d, was, was);
  }

  lemma BrokenIsNotPlain(d: DigestFn, was: Bytes)
    requires DeletingRun(d, BROKEN, was).Results() != []
    ensures var run := DeletingRun(d, BROKEN, was); !PlainPaths(run.steps, run.Results())
  {
    hide Forward;
    assert '\n' in BROKEN by { BrokenIsValid(); }
    assert !Plain(DeletingRun(d, BROKEN, was).steps[0].relativePath);
  }

  /** For every digest and content: a plan of valid steps whose run deletes a file, and whose log rollback refuses. */
  lemma BrokenPathIsRefused(d: DigestFn, was: Bytes, describe: nat -> string)
    requires ValidDigest(d(was)) && Plain(d(was))
    ensures var run := DeletingRun(d, BROKEN, was);
      var plan := StagedPlan("p", "h", run.steps);
      && PlainPlan(plan, "t") && [BROKEN] in run.fs.files && [BROKEN] !in run.End().files
      && Accepted(plan, LogOf(run, plan, "t", describe)) == Err(Conflict)
  {
    hide Accepted, LogOf, PlainPlan, Forward, ApplyStep, ValidStep, Executed, EndsAborted, PlainPaths, ValidDigest;
    var run := DeletingRun(d, BROKEN, was);
    var plan := StagedPlan("p", "h", run.steps);
    BrokenPlanIsPlain(d, was);
    BrokenIsValid();
    DeletingRunShape(d, BROKEN, was);
    BrokenIsNotPlain(d, was);
    OwnLogAccepted(run, plan, "t", describe);
  }
}
