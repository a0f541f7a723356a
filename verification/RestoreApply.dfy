/** The forward engine: runs the staged steps in order and stops at the first failure. */
module RestoreApply {
  import opened Text
  import opened Octets
  import opened RestorePlan
  import opened RestoreDisk

  /** What a run depends on besides the plan and the tree. */
  datatype Env = Env(io: Oracle, digest: DigestFn, sources: map<string, Artifact>)

  /** A committed step keeps the digest that its log entry carries. */
  datatype StepResult = Committed(digest: Option<string>) | Aborted(mutationExecuted: bool, error: ErrorKind)

  // ---------------------------------------------------------------- one step

  /** `checked_restore_source_artifact` */
  function SourceBytes(env: Env, step: Step): Result<Bytes> {
    if step.sourceKey.None? then Err(InvalidArgument)
    else if step.sourceKey.value !in env.sources then Err(NotFound)
    else if step.expectedDigest.None? then Err(InvalidArgument)
    else
      var artifact := env.sources[step.sourceKey.value];
      var actual := env.digest(artifact.bytes);
      if actual != artifact.digest || artifact.digest != step.expectedDigest.value then Err(Conflict)
      else Ok(artifact.bytes)
  }

  /** `verify_existing_target_digest` */
  function VerifyExisting(env: Env, fs: Fs, target: Path, step: Step): (Fs, Result<()>) {
    if step.preRestoreDigest.None? then (fs, Err(InvalidArgument)) else
    var (fs1, read) := Read(env.io, fs, target);
    (fs1, if read.Done? && env.digest(read.value) == step.preRestoreDigest.value then Ok(()) else Err(Conflict))
  }

  /** `apply_restore_mutation_step` */
  function ApplyStep(env: Env, fs: Fs, sequence: nat, step: Step): (Fs, StepResult) {
    var target := Target(step.relativePath);
    var (fs0, plain) := Probe(env.io, fs);
    if !plain then (fs0, Aborted(false, PermissionDenied)) else
    match step.operation
    case Copy => ApplyCopy(env, fs0, sequence, step, target)
    case Delete =>
      var (fs1, verified) := VerifyExisting(env, fs0, target, step);
      if verified.Err? then (fs1, Aborted(false, verified.error)) else
      var (fs2, removed) := Remove(env.io, fs1, target);
      (fs2, if removed then Committed(step.preRestoreDigest) else Aborted(false, Internal))
    case Replace => ApplyReplace(env, fs0, sequence, step, target)
  }

  function ApplyCopy(env: Env, fs: Fs, sequence: nat, step: Step, target: Path): (Fs, StepResult) {
    var (fs1, present) := Exists(env.io, fs, target);
    if present then (fs1, Aborted(false, Conflict)) else
    var source := SourceBytes(env, step);
    if source.Err? then (fs1, Aborted(false, source.error)) else
    var (fs2, ok) := AtomicWrite(env.io, fs1, target, sequence, source.value);
    (fs2, if ok then Committed(Some(env.digest(source.value))) else Aborted(false, Internal))
  }

  function ApplyReplace(env: Env, fs: Fs, sequence: nat, step: Step, target: Path): (Fs, StepResult) {
    var (fs1, verified) := VerifyExisting(env, fs, target, step);
    if verified.Err? then (fs1, Aborted(false, verified.error)) else
    var source := SourceBytes(env, step);
    if source.Err? then (fs1, Aborted(false, source.error)) else
    var (fs2, r) := AtomicReplace(env.io, fs1, target, sequence, source.value);
    (fs2, match r
          case Replaced => Committed(Some(env.digest(source.value)))
          case NotReplaced(executed) => Aborted(executed, Internal))
  }

  // ---------------------------------------------------------------- the run

  /** The tree after the run that starts at step `i`, and one result for each step it reached. */
  function Forward(env: Env, steps: seq<Step>, i: nat, fs: Fs): (run: (Fs, seq<StepResult>))
    requires i <= |steps|
    ensures i + |run.1| <= |steps|
    decreases |steps| - i
  {
    if i == |steps| then (fs, []) else
    var (fs1, r) := ApplyStep(env, fs, i, steps[i]);
    if r.Aborted? then (fs1, [r]) else
    var (fs2, rs) := Forward(env, steps, i + 1, fs1);
    (fs2, [r] + rs)
  }

  /** Whether any result changed the tree: the `mutation_executed` flag. */
  predicate Executed(rs: seq<StepResult>) {
    exists r :: r in rs && (r.Committed? || r.mutationExecuted)
  }

  predicate EndsAborted(rs: seq<StepResult>) {
    rs != [] && rs[|rs| - 1].Aborted?
  }

  /** Only the last step of a run can be the failing one, and a run without one did every step. */
  lemma {:induction false} ForwardShape(env: Env, steps: seq<Step>, i: nat, fs: Fs)
    requires i <= |steps|
    ensures var rs := Forward(env, steps, i, fs).1;
      && (forall k :: 0 <= k < |rs| - 1 ==> rs[k].Committed?)
      && (!EndsAborted(rs) ==> i + |rs| == |steps|)
    decreases |steps| - i
  {
    if i < |steps| {
      var (fs1, r) := ApplyStep(env, fs, i, steps[i]);
      if r.Committed? {
        ForwardShape(env, steps, i + 1, fs1);
        var rs1 := Forward(env, steps, i + 1, fs1).1;
        var rs := [r] + rs1;
        assert forall k :: 0 < k < |rs| ==> rs[k] == rs1[k - 1];
        if rs1 != [] { assert rs[|rs| - 1] == rs1[|rs1| - 1]; }
      }
    }
  }

  // ---------------------------------------------------------------- what a step does to the tree

  /** The visible effect of every kind of result. */
  ghost predicate StepEffect(env: Env, step: Step, v: Files, v': Files, r: StepResult) {
    var t := Target(step.relativePath);
    match r
    case Aborted(false, _) => v' == v
    case Aborted(true, _) => step.operation.Replace? && FoundAsPlanned(env, step, v) && v' == v - {t}
    case Committed(_) =>
      match step.operation
      case Copy => SourceBytes(env, step).Ok? && v' == v[t := SourceBytes(env, step).value]
      case Delete => FoundAsPlanned(env, step, v) && v' == v - {t}
      case Replace =>
        FoundAsPlanned(env, step, v) && SourceBytes(env, step).Ok? && v' == v[t := SourceBytes(env, step).value]
  }

  /** The target is there with the digest the plan recorded. */
  predicate FoundAsPlanned(env: Env, step: Step, v: Files) {
    var t := Target(step.relativePath);
    t in v && step.preRestoreDigest == Some(env.digest(v[t]))
  }

  lemma ApplyStepEffect(env: Env, fs: Fs, sequence: nat, step: Step)
    requires !IsTemp(Target(step.relativePath))
    ensures var (fs', r) := ApplyStep(env, fs, sequence, step);
      StepEffect(env, step, Visible(fs.files), Visible(fs'.files), r)
  {
    hide IsTemp, AtomicWrite, AtomicReplace, Target;
    var t := Target(step.relativePath);
    var fs0 := Probe(env.io, fs).0;
    match step.operation
    case Copy =>
      if SourceBytes(env, step).Ok? {
        AtomicWriteEffect(env.io, Exists(env.io, fs0, t).0, t, sequence, SourceBytes(env, step).value);
      }
    case Delete =>
      RemoveShows(env.io, VerifyExisting(env, fs0, t, step).0, t);
    case Replace =>
      if SourceBytes(env, step).Ok? {
        AtomicReplaceEffect(env.io, VerifyExisting(env, fs0, t, step).0, t, sequence, SourceBytes(env, step).value);
      }
  }

  // ---------------------------------------------------------------- the engine

  method CheckedStep(disk: Disk, env: Env, sequence: nat, step: Step) returns (r: StepResult)
    requires disk.io == env.io
    modifies disk
    ensures (disk.State(), r) == ApplyStep(env, old(disk.State()), sequence, step)
  {
    hide AtomicWrite, AtomicReplace, Target, SourceBytes;
    var target := Target(step.relativePath);
    var plain := disk.ProbeFile();
    if !plain { return Aborted(false, PermissionDenied); }
    match step.operation
    case Copy =>
      var present := disk.FileExists(target);
      if present { return Aborted(false, Conflict); }
      var source := SourceBytes(env, step);
      if source.Err? { return Aborted(false, source.error); }
      var ok := disk.WriteAtomically(target, sequence, source.value);
      return if ok then Committed(Some(env.digest(source.value))) else Aborted(false, Internal);
    case Delete =>
      var verified := VerifiedTarget(disk, env, target, step);
      if verified.Err? { return Aborted(false, verified.error); }
      var removed := disk.RemoveFile(target);
      return if removed then Committed(step.preRestoreDigest) else Aborted(false, Internal);
    case Replace =>
      var verified := VerifiedTarget(disk, env, target, step);
      if verified.Err? { return Aborted(false, verified.error); }
      var source := SourceBytes(env, step);
      if source.Err? { return Aborted(false, source.error); }
      var replaced := disk.ReplaceAtomically(target, sequence, source.value);
      return match replaced
             case Replaced => Committed(Some(env.digest(source.value)))
             case NotReplaced(executed) => Aborted(executed, Internal);
  }

  method VerifiedTarget(disk: Disk, env: Env, target: Path, step: Step) returns (r: Result<()>)
    requires disk.io == env.io
    modifies disk
    ensures (disk.State(), r) == VerifyExisting(env, old(disk.State()), target, step)
  {
    if step.preRestoreDigest.None? { return Err(InvalidArgument); }
    var read := disk.ReadFile(target);
    return if read.Done? && env.digest(read.value) == step.preRestoreDigest.value then Ok(()) else Err(Conflict);
  }
}
