/** What a rollback restores. A run that failed half-way, undone from its own log, gives back the
    tree it started from, exactly when no Copy overwrote a file and a failing Replace had found
    its target as planned. */
module RestoreUndo {
  import opened Text
  import opened Octets
  import opened RestorePlan
  import opened RestoreDisk
  import opened RestoreApply
  import opened RestoreLog
  import opened RestoreRollback

  function T(step: Step): Path { Target(step.relativePath) }

  ghost predicate NoTempTargets(steps: seq<Step>) {
    forall k :: 0 <= k < |steps| ==> !IsTemp(T(steps[k]))
  }

  predicate DistinctTargets(steps: seq<Step>) {
    forall j, k :: 0 <= j < k < |steps| ==> T(steps[j]) != T(steps[k])
  }

  // ---------------------------------------------------------------- the trees of a run

  /** The tree before step `k` of the run. */
  function Before(env: Env, steps: seq<Step>, fs: Fs, k: nat): Fs
    requires k <= |steps|
  {
    if k == 0 then fs else ApplyStep(env, Before(env, steps, fs, k - 1), k - 1, steps[k - 1]).0
  }

  function ResultAt(env: Env, steps: seq<Step>, fs: Fs, k: nat): StepResult
    requires k < |steps|
  {
    ApplyStep(env, Before(env, steps, fs, k), k, steps[k]).1
  }

  ghost function V(env: Env, steps: seq<Step>, fs: Fs, k: nat): Files
    requires k <= |steps|
  {
    Visible(Before(env, steps, fs, k).files)
  }

  lemma {:induction false} ForwardEnds(env: Env, steps: seq<Step>, fs: Fs, i: nat)
    requires i <= |steps|
    ensures var (fs', rs) := Forward(env, steps, i, Before(env, steps, fs, i));
      fs' == Before(env, steps, fs, i + |rs|)
    decreases |steps| - i
  {
    hide ApplyStep;
    if i < |steps| && ResultAt(env, steps, fs, i).Committed? {
      ForwardEnds(env, steps, fs, i + 1);
    }
  }

  lemma {:induction false} ForwardAt(env: Env, steps: seq<Step>, fs: Fs, i: nat, k: nat)
    requires i <= |steps| && k < |Forward(env, steps, i, Before(env, steps, fs, i)).1|
    ensures Forward(env, steps, i, Before(env, steps, fs, i)).1[k] == ResultAt(env, steps, fs, i + k)
    decreases |steps| - i
  {
    hide ApplyStep;
    if k > 0 {
      assert Before(env, steps, fs, i + 1) == ApplyStep(env, Before(env, steps, fs, i), i, steps[i]).0;
      ForwardAt(env, steps, fs, i + 1, k - 1);
    }
  }

  /** A run: its environment, steps and starting tree. */
  datatype Run = Run(env: Env, steps: seq<Step>, fs: Fs) {
    function Results(): seq<StepResult> { Forward(env, steps, 0, fs).1 }
    function End(): Fs { Forward(env, steps, 0, fs).0 }
    ghost function Start(): Files { Visible(fs.files) }
    ghost function Tree(k: nat): Files requires k <= |steps| { V(env, steps, fs, k) }
  }

  lemma RunStep(run: Run, k: nat)
    requires NoTempTargets(run.steps) && k < |run.Results()|
    ensures StepEffect(run.env, run.steps[k], run.Tree(k), run.Tree(k + 1), run.Results()[k])
  {
    hide ApplyStep, StepEffect, Forward, IsTemp, Visible;
    ForwardAt(run.env, run.steps, run.fs, 0, k);
    ApplyStepEffect(run.env, Before(run.env, run.steps, run.fs, k), k, run.steps[k]);
  }

  lemma RunEnd(run: Run)
    ensures Visible(run.End().files) == run.Tree(|run.Results()|)
  {
    hide Forward, Visible;
    ForwardEnds(run.env, run.steps, run.fs, 0);
  }

  // ---------------------------------------------------------------- one undo

  /** The visible effect of an undo. */
  ghost predicate UndoEffect(env: UndoEnv, c: Candidate, v: Files, v': Files, r: Result<Option<string>>) {
    var t := T(c.step);
    if r.Err? then v' == v
    else if c.step.operation.Copy? then
      t in v && c.step.expectedDigest == Some(env.digest(v[t])) && v' == v - {t}
    else
      var entry := ArchivedFor(env, c.step);
      && entry.Ok?
      && TargetRestorable(env.digest, if t in v then Done(v[t]) else Missing, c, entry.value.digest).Ok?
      && v' == v[t := entry.value.bytes]
  }

  lemma UndoHasEffect(env: UndoEnv, fs: Fs, index: nat, c: Candidate)
    requires !IsTemp(T(c.step))
    ensures var (fs', r) := Undo(env, fs, index, c);
      UndoEffect(env, c, Visible(fs.files), Visible(fs'.files), r)
  {
    hide IsTemp, AtomicWrite, Target, ArchivedFor;
    var t := T(c.step);
    var fs0 := Probe(env.io, fs).0;
    var fs1 := Read(env.io, fs0, t).0;
    if c.step.operation.Copy? {
      RemoveShows(env.io, fs1, t);
    } else if ArchivedFor(env, c.step).Ok? {
      AtomicWriteEffect(env.io, fs1, t, index, ArchivedFor(env, c.step).value.bytes);
    }
  }

  // ---------------------------------------------------------------- hypotheses

  /** A content that the run can have seen: a file of the starting tree or a source artifact. */
  ghost predicate Known(env: Env, start: Files, bytes: Bytes) {
    || (exists p :: p in start && start[p] == bytes)
    || (exists key :: key in env.sources && env.sources[key].bytes == bytes)
  }

  /** No content of the run collides with an archived one. */
  ghost predicate NoCollision(env: Env, start: Files, archive: Archive) {
    forall path, bytes :: path in archive && Known(env, start, bytes) ==>
      env.digest(bytes) == env.digest(archive[path].bytes) ==> bytes == archive[path].bytes
  }

  /** Archive digests are those of the archived bytes, as the archive parser computes them. */
  predicate HonestArchive(digest: DigestFn, archive: Archive) {
    forall path :: path in archive ==> archive[path].digest == digest(archive[path].bytes)
  }

  ghost predicate KnownTree(env: Env, start: Files, v: Files) {
    forall p :: p in v ==> Known(env, start, v[p])
  }

  lemma StepKeepsKnown(env: Env, step: Step, start: Files, v: Files, v': Files, r: StepResult)
    requires KnownTree(env, start, v) && StepEffect(env, step, v, v', r)
    ensures KnownTree(env, start, v')
  {
    hide Target;
    forall p | p in v' ensures Known(env, start, v'[p]) {
      if p in v && v'[p] == v[p] {
      } else {
        assert SourceBytes(env, step).Ok? && v'[p] == SourceBytes(env, step).value;
        assert step.sourceKey.value in env.sources;
      }
    }
  }

  lemma {:induction false} TreesAreKnown(run: Run, k: nat)
    requires NoTempTargets(run.steps) && k <= |run.Results()|
    ensures KnownTree(run.env, run.Start(), run.Tree(k))
  {
    hide Forward, StepEffect, IsTemp;
    if k == 0 {
      assert run.Tree(0) == run.Start();
    } else {
      hide KnownTree;
      TreesAreKnown(run, k - 1);
      RunStep(run, k - 1);
      StepKeepsKnown(run.env, run.steps[k - 1], run.Start(), run.Tree(k - 1), run.Tree(k), run.Results()[k - 1]);
    }
  }

  /** What must hold of the tree a step met for its undo to give that tree back. */
  predicate UndoableAt(env: Env, step: Step, v: Files) {
    if step.operation.Copy? then T(step) !in v else FoundAsPlanned(env, step, v)
  }

  /** Undoing a committed step, or a failed Replace that had found its target as planned, gives
      back the tree before the step. */
  lemma UndoInvertsStep(
    env: Env, uenv: UndoEnv, start: Files, c: Candidate, r: StepResult, v: Files, v': Files, v'': Files,
    u: Result<Option<string>>)
    requires uenv.digest == env.digest && HonestArchive(env.digest, uenv.archive)
    requires KnownTree(env, start, v) && NoCollision(env, start, uenv.archive)
    requires StepEffect(env, c.step, v, v', r)
    requires r.Committed? || c.step.operation.Replace?
    requires UndoEffect(uenv, c, v', v'', u) && u.Ok?
    requires UndoableAt(env, c.step, v)
    ensures v'' == v
  {
    hide Target, SourceBytes, TargetRestorable;
    var t := T(c.step);
    if c.step.operation.Copy? {
      assert v'' == v;
    } else {
      var entry := ArchivedFor(uenv, c.step).value;
      assert Known(env, start, v[t]);
      assert env.digest(v[t]) == env.digest(entry.bytes);
      assert v[t] == entry.bytes;
      assert v'' == v;
    }
  }

  /** In a run: the undo of a step, on the tree that the step left, gives back the tree that it met. */
  lemma UndoGivesBack(run: Run, uenv: UndoEnv, k: nat, c: Candidate, index: nat, fs: Fs)
    requires NoTempTargets(run.steps) && k < |run.Results()| && c.step == run.steps[k]
    requires run.Results()[k].Committed? || run.steps[k].operation.Replace?
    requires uenv.digest == run.env.digest && HonestArchive(run.env.digest, uenv.archive)
    requires NoCollision(run.env, run.Start(), uenv.archive)
    requires UndoableAt(run.env, run.steps[k], run.Tree(k)) && Visible(fs.files) == run.Tree(k + 1)
    requires Undo(uenv, fs, index, c).1.Ok?
    ensures Visible(Undo(uenv, fs, index, c).0.files) == run.Tree(k)
  {
    hide Forward, StepEffect, UndoEffect, Undo, IsTemp, UndoableAt, NoCollision, HonestArchive, KnownTree, V, Visible;
    var (fs1, u) := Undo(uenv, fs, index, c);
    UndoHasEffect(uenv, fs, index, c);
    RunStep(run, k);
    TreesAreKnown(run, k);
    UndoInvertsStep(run.env, uenv, run.Start(), c, run.Results()[k], run.Tree(k), run.Tree(k + 1), Visible(fs1.files),
        u);
  }

  lemma CommittedResult(run: Run, k: nat)
    requires k < CommittedCount(run.Results())
    ensures run.Results()[k].Committed?
  {
    hide Forward;
    ForwardShape(run.env, run.steps, 0, run.fs);
  }

  lemma AllUndoneCons(uenv: UndoEnv, cs: seq<Candidate>, index: nat, fs: Fs)
    requires cs != [] && AllUndone(UndoAll(uenv, cs, index, fs).1)
    ensures var (fs1, u) := Undo(uenv, fs, index, cs[0]);
      && u.Ok?
      && AllUndone(UndoAll(uenv, cs[1..], index + 1, fs1).1)
      && UndoAll(uenv, cs, index, fs).0 == UndoAll(uenv, cs[1..], index + 1, fs1).0
  {
    hide Undo;
    var (fs1, u) := Undo(uenv, fs, index, cs[0]);
    var rs := UndoAll(uenv, cs, index, fs).1;
    assert rs[0] == u && u in rs;
    var rs1 := UndoAll(uenv, cs[1..], index + 1, fs1).1;
    assert rs == [u] + rs1;
    assert forall x :: x in rs1 ==> x in rs;
  }

  // ---------------------------------------------------------------- the undo theorem

  /** Whether the failing step is undone too. */
  predicate FailingReplace(run: Run) {
    var rs := run.Results();
    EndsAborted(rs) && run.steps[|rs| - 1].operation.Replace?
  }

  /** The candidates that the log of the run yields. */
  function CandidatesOf(run: Run): seq<Candidate> {
    RunCandidates(run.steps, run.Results(), true)
  }

  lemma CandidatesShape(run: Run)
    requires EndsAborted(run.Results())
    ensures var n := |run.Results()| - 1;
      CandidatesOf(run) ==
        if FailingReplace(run) then [Candidate(run.steps[n], true)] + Reversed(run.steps, n) else Reversed(run.steps, n)
  {
    hide Forward;
    var n := |run.Results()| - 1;
    assert [] + Reversed(run.steps, n) == Reversed(run.steps, n);
  }

  /** A failing step other than a Replace leaves the tree alone. */
  lemma AbortedUnchanged(run: Run, n: nat)
    requires n < |run.Results()| && run.Results()[n].Aborted?
    requires !run.steps[n].operation.Replace?
    requires StepEffect(run.env, run.steps[n], run.Tree(n), run.Tree(n + 1), run.Results()[n])
    ensures run.Tree(n + 1) == run.Tree(n)
  {
    hide Forward, V;
  }

  // ---------------------------------------------------------------- framing

  predicate SameAt(v: Files, v': Files, p: Path) {
    (p in v <==> p in v') && (p in v ==> v[p] == v'[p])
  }

  lemma StepKeepsOthers(env: Env, step: Step, v: Files, v': Files, r: StepResult, p: Path)
    requires StepEffect(env, step, v, v', r) && p != T(step)
    ensures SameAt(v, v', p)
  {
    hide Target, SourceBytes;
  }

  lemma UndoKeepsOthers(env: UndoEnv, c: Candidate, v: Files, v': Files, r: Result<Option<string>>, p: Path)
    requires UndoEffect(env, c, v, v', r) && p != T(c.step)
    ensures SameAt(v, v', p)
  {
    hide Target, ArchivedFor, TargetRestorable;
  }

  lemma {:induction false} RunKeepsOthers(run: Run, k: nat, m: nat, p: Path)
    requires NoTempTargets(run.steps) && k <= m <= |run.Results()|
    requires forall j :: k <= j < m ==> p != T(run.steps[j])
    ensures SameAt(run.Tree(k), run.Tree(m), p)
    decreases m
  {
    hide Forward, StepEffect, V, IsTemp;
    if k < m {
      RunKeepsOthers(run, k, m - 1, p);
      RunStep(run, m - 1);
      StepKeepsOthers(run.env, run.steps[m - 1], run.Tree(m - 1), run.Tree(m), run.Results()[m - 1], p);
    }
  }

  lemma {:induction false} UndoAllKeepsOthers(uenv: UndoEnv, cs: seq<Candidate>, index: nat, fs: Fs, p: Path)
    requires forall c :: c in cs ==> !IsTemp(T(c.step)) && p != T(c.step)
    ensures SameAt(Visible(fs.files), Visible(UndoAll(uenv, cs, index, fs).0.files), p)
    decreases |cs|
  {
    if cs != [] {
      hide UndoEffect, Undo, IsTemp, Visible;
      var (fs1, u) := Undo(uenv, fs, index, cs[0]);
      UndoHasEffect(uenv, fs, index, cs[0]);
      UndoKeepsOthers(uenv, cs[0], Visible(fs.files), Visible(fs1.files), u, p);
      if u.Ok? { UndoAllKeepsOthers(uenv, cs[1..], index + 1, fs1, p); }
    }
  }

  // ---------------------------------------------------------------- the undo theorem

  /** The first step of the plan on its file. */
  predicate FirstOn(steps: seq<Step>, k: int) {
    0 <= k < |steps| && forall j :: 0 <= j < k ==> T(steps[j]) != T(steps[k])
  }

  /** On the starting tree: no committed Copy that is the first step on its file had a file in its way, and a failing
      Replace that is the first step on its file finds it at the planned digest. */
  ghost predicate Restorable(run: Run) {
    var rs := run.Results();
    && (forall k :: 0 <= k < CommittedCount(rs) && run.steps[k].operation.Copy? && FirstOn(run.steps, k) ==>
          T(run.steps[k]) !in run.Start())
    && (FailingReplace(run) && FirstOn(run.steps, |rs| - 1) ==>
        FoundAsPlanned(run.env, run.steps[|rs| - 1], run.Start()))
  }

  /** A step that rollback undoes: a committed one, or the failing one if it is a Replace. */
  predicate IsUndone(run: Run, k: int) {
    0 <= k < |run.Results()| && (k < CommittedCount(run.Results()) || run.steps[k].operation.Replace?)
  }

  lemma TargetAsAtStart(run: Run, k: nat)
    requires NoTempTargets(run.steps) && FirstOn(run.steps, k) && k < |run.Results()|
    ensures SameAt(run.Start(), run.Tree(k), T(run.steps[k]))
  {
    hide Forward, IsTemp;
    RunKeepsOthers(run, 0, k, T(run.steps[k]));
    assert run.Tree(0) == run.Start();
  }

  /** In a restorable run the first undone step on each file found what its undo puts back. */
  lemma FirstIsUndoable(run: Run, k: nat)
    requires NoTempTargets(run.steps) && EndsAborted(run.Results()) && IsUndone(run, k) && FirstOn(run.steps, k)
    ensures Restorable(run) ==> UndoableAt(run.env, run.steps[k], run.Start())
  {
    hide Forward, IsTemp, V, Visible, FoundAsPlanned, Target, StepEffect;
    if k < CommittedCount(run.Results()) && !run.steps[k].operation.Copy? {
      TargetAsAtStart(run, k);
      CommittedResult(run, k);
      RunStep(run, k);
      CommittedFoundAsPlanned(run.env, run.steps[k], run.Tree(k), run.Tree(k + 1), run.Results()[k]);
      FoundAsPlannedMoves(run.env, run.steps[k], run.Tree(k), run.Start());
    }
  }

  lemma CommittedFoundAsPlanned(env: Env, step: Step, v: Files, v': Files, r: StepResult)
    requires StepEffect(env, step, v, v', r) && r.Committed? && !step.operation.Copy?
    ensures FoundAsPlanned(env, step, v)
  {
  }

  lemma FoundAsPlannedMoves(env: Env, step: Step, v: Files, w: Files)
    requires SameAt(v, w, T(step)) && FoundAsPlanned(env, step, v)
    ensures FoundAsPlanned(env, step, w)
  {
  }

  /** What a completed rollback leaves at the target of candidate `j`. */
  lemma {:induction false} UndoAllLeaves(uenv: UndoEnv, cs: seq<Candidate>, index: nat, fs: Fs, j: nat)
    requires j < |cs| && AllUndone(UndoAll(uenv, cs, index, fs).1)
    requires forall c :: c in cs ==> !IsTemp(T(c.step))
    requires forall i :: j < i < |cs| ==> T(cs[i].step) != T(cs[j].step)
    ensures var v := Visible(UndoAll(uenv, cs, index, fs).0.files);
      var t := T(cs[j].step);
      if cs[j].step.operation.Copy? then t !in v
      else ArchivedFor(uenv, cs[j].step).Ok? && t in v && v[t] == ArchivedFor(uenv, cs[j].step).value.bytes
    decreases j
  {
    hide Undo, UndoAll, IsTemp, Visible, Target, ArchivedFor, AllUndone, TargetRestorable;
    AllUndoneCons(uenv, cs, index, fs);
    var (fs1, u) := Undo(uenv, fs, index, cs[0]);
    if j == 0 {
      UndoHasEffect(uenv, fs, index, cs[0]);
      UndoAllKeepsOthers(uenv, cs[1..], index + 1, fs1, T(cs[0].step));
    } else {
      UndoAllLeaves(uenv, cs[1..], index + 1, fs1, j - 1);
    }
  }

  /** Candidate `i` undoes step `|cs| - 1 - i`, and exactly the undone steps have one. */
  lemma CandidateAt(run: Run, i: nat)
    requires EndsAborted(run.Results())
    ensures |CandidatesOf(run)| <= |run.Results()|
    ensures i < |CandidatesOf(run)| ==> CandidatesOf(run)[i].step == run.steps[|CandidatesOf(run)| - 1 - i]
    ensures forall k :: IsUndone(run, k) <==> 0 <= k < |CandidatesOf(run)|
  {
    hide Forward, CandidatesOf;
    CandidatesShape(run);
  }

  lemma CandidatesAreNotTemp(run: Run)
    requires EndsAborted(run.Results()) && NoTempTargets(run.steps)
    ensures forall c :: c in CandidatesOf(run) ==> !IsTemp(T(c.step))
  {
    hide Forward, IsTemp, Target, CandidatesOf;
    var cs := CandidatesOf(run);
    forall c | c in cs ensures !IsTemp(T(c.step)) {
      var i :| 0 <= i < |cs| && cs[i] == c;
      CandidateAt(run, i);
    }
  }

  lemma CandidateTargets(run: Run)
    requires EndsAborted(run.Results()) && DistinctTargets(run.steps)
    ensures var cs := CandidatesOf(run); forall i, j :: 0 <= j < i < |cs| ==> T(cs[i].step) != T(cs[j].step)
  {
    hide Forward, IsTemp, Target, CandidatesOf;
    var cs := CandidatesOf(run);
    forall i, j | 0 <= j < i < |cs| ensures T(cs[i].step) != T(cs[j].step) {
      CandidateAt(run, i);
      CandidateAt(run, j);
    }
  }

  /** A rollback of the run, from its own candidates, on the tree that it left; every undo succeeded. */
  ghost predicate RolledBack(run: Run, uenv: UndoEnv, fs: Fs) {
    && NoTempTargets(run.steps) && EndsAborted(run.Results())
    && uenv.digest == run.env.digest && HonestArchive(run.env.digest, uenv.archive)
    && NoCollision(run.env, run.Start(), uenv.archive)
    && Visible(fs.files) == Visible(run.End().files)
    && AllUndone(UndoAll(uenv, CandidatesOf(run), 0, fs).1)
  }

  ghost function RolledBackTree(run: Run, uenv: UndoEnv, fs: Fs): Files {
    Visible(UndoAll(uenv, CandidatesOf(run), 0, fs).0.files)
  }

  /** The undo of the first step on a file decides what is left there. */
  lemma FirstStepDecides(run: Run, uenv: UndoEnv, fs: Fs, k: nat)
    requires RolledBack(run, uenv, fs) && IsUndone(run, k) && FirstOn(run.steps, k)
    ensures SameAt(run.Start(), RolledBackTree(run, uenv, fs), T(run.steps[k])) <==>
            UndoableAt(run.env, run.steps[k], run.Start())
  {
    hide Forward, IsTemp, UndoAll, AllUndone, Visible, CandidatesOf, Target, NoTempTargets;
    var cs, step, start := CandidatesOf(run), run.steps[k], run.Start();
    CandidatesAreNotTemp(run);
    CandidateAt(run, 0);
    var j := |cs| - 1 - k;
    CandidateAt(run, j);
    forall i | j < i < |cs| ensures T(cs[i].step) != T(cs[j].step) { CandidateAt(run, i); }
    UndoAllLeaves(uenv, cs, 0, fs, j);
    if T(step) in start { assert Known(run.env, start, start[T(step)]); }
  }

  /** A file that no undone step names is as before the run. */
  lemma OthersAsAtStart(run: Run, uenv: UndoEnv, fs: Fs, p: Path)
    requires RolledBack(run, uenv, fs) && forall k :: IsUndone(run, k) ==> T(run.steps[k]) != p
    ensures SameAt(run.Start(), RolledBackTree(run, uenv, fs), p)
  {
    hide Forward, IsTemp, UndoAll, AllUndone, Visible, CandidatesOf, Target, NoTempTargets, V, StepEffect, NoCollision;
    hide HonestArchive;
    var n := |run.Results()| - 1;
    RunEnd(run);
    RunKeepsOthers(run, 0, n, p);
    RunStep(run, n);
    if T(run.steps[n]) == p {
      AbortedUnchanged(run, n);
    } else {
      StepKeepsOthers(run.env, run.steps[n], run.Tree(n), run.Tree(n + 1), run.Results()[n], p);
    }
    assert run.Tree(0) == run.Start() by { TreeZero(run); }
    var cs := CandidatesOf(run);
    CandidatesAreNotTemp(run);
    forall c | c in cs ensures p != T(c.step) {
      var i :| 0 <= i < |cs| && cs[i] == c;
      CandidateAt(run, i);
    }
    UndoAllKeepsOthers(uenv, cs, 0, fs, p);
  }

  lemma TreeZero(run: Run)
    ensures run.Tree(0) == run.Start()
  {
    hide Visible;
  }

  /** The first undone step on the file of an undone step. */
  lemma {:induction false} FirstUndone(run: Run, k: nat) returns (m: nat)
    requires EndsAborted(run.Results()) && IsUndone(run, k)
    ensures IsUndone(run, m) && FirstOn(run.steps, m) && T(run.steps[m]) == T(run.steps[k])
    decreases k
  {
    hide Forward, Target;
    if j :| 0 <= j < k && T(run.steps[j]) == T(run.steps[k]) {
      m := FirstUndone(run, j);
    } else {
      m := k;
    }
  }

  lemma RestorableIsRestored(run: Run, uenv: UndoEnv, fs: Fs, p: Path)
    requires RolledBack(run, uenv, fs) && Restorable(run)
    ensures SameAt(run.Start(), RolledBackTree(run, uenv, fs), p)
  {
    hide Forward, IsTemp, RolledBack, RolledBackTree, Target, Restorable, SameAt, FirstOn, UndoableAt;
    RolledBackMeans(run, uenv, fs);
    if k: nat :| IsUndone(run, k) && T(run.steps[k]) == p {
      var m := FirstUndone(run, k);
      FirstIsUndoable(run, m);
      FirstStepDecides(run, uenv, fs, m);
    } else {
      OthersAsAtStart(run, uenv, fs, p);
    }
  }

  lemma RolledBackMeans(run: Run, uenv: UndoEnv, fs: Fs)
    requires RolledBack(run, uenv, fs)
    ensures NoTempTargets(run.steps) && EndsAborted(run.Results())
  {
  }

  lemma RestoredIsRestorable(run: Run, uenv: UndoEnv, fs: Fs)
    requires RolledBack(run, uenv, fs) && RolledBackTree(run, uenv, fs) == run.Start()
    ensures Restorable(run)
  {
    hide Forward, IsTemp, RolledBack, RolledBackTree, Target, FoundAsPlanned, FirstOn, Visible;
    RolledBackMeans(run, uenv, fs);
    var n := |run.Results()| - 1;
    forall k: nat | k <= n && IsUndone(run, k) && FirstOn(run.steps, k) ensures UndoableAt(run.env, run.steps[k],
        run.Start()) {
      FirstStepDecides(run, uenv, fs, k);
    }
    if FailingReplace(run) && FirstOn(run.steps, n) { assert UndoableAt(run.env, run.steps[n], run.Start()); }
    forall k | 0 <= k < n && run.steps[k].operation.Copy? && FirstOn(run.steps,
        k) ensures T(run.steps[k]) !in run.Start() {
      assert UndoableAt(run.env, run.steps[k], run.Start());
    }
  }

  /** For every plan, repeated paths included, every tree and every I/O failure of the run: a rollback that reports
      success has given the starting tree back if and only if the run was restorable. */
  lemma UndoExactly(run: Run, uenv: UndoEnv, fs: Fs)
    requires RolledBack(run, uenv, fs)
    ensures RolledBackTree(run, uenv, fs) == run.Start() <==> Restorable(run)
  {
    hide Forward, RolledBack, RolledBackTree, Restorable, Visible;
    if Restorable(run) {
      forall p ensures SameAt(run.Start(), RolledBackTree(run, uenv, fs), p) { RestorableIsRestored(run, uenv, fs, p); }
      SameEverywhere(run.Start(), RolledBackTree(run, uenv, fs));
    }
    if RolledBackTree(run, uenv, fs) == run.Start() { RestoredIsRestorable(run, uenv, fs); }
  }

  lemma SameEverywhere(v: Files, w: Files)
    requires forall p :: SameAt(v, w, p)
    ensures w == v
  {
    forall p ensures (p in v <==> p in w) && (p in v ==> w[p] == v[p]) { assert SameAt(v, w, p); }
  }

  // ---------------------------------------------------------------- when a rollback succeeds

  /** The tree is in a state that the undo accepts. */
  ghost predicate UndoReady(uenv: UndoEnv, c: Candidate, v: Files) {
    var t := T(c.step);
    if c.step.operation.Copy? then t in v && c.step.expectedDigest == Some(uenv.digest(v[t]))
    else
      var entry := ArchivedFor(uenv, c.step);
      entry.Ok? && TargetRestorable(uenv.digest, if t in v then Done(v[t]) else Missing, c, entry.value.digest).Ok?
  }

  /** Without I/O failure an undo succeeds exactly on such a tree. */
  lemma UndoSucceeds(uenv: UndoEnv, fs: Fs, index: nat, c: Candidate)
    requires NeverBreaks(uenv.io) && T(c.step) != [] && !IsTemp(T(c.step))
    ensures Undo(uenv, fs, index, c).1.Ok? <==> UndoReady(uenv, c, Visible(fs.files))
  {
    hide Target, AtomicWrite, ArchivedFor, IsTemp;
    UndoHasEffect(uenv, fs, index, c);
    var t := T(c.step);
    if UndoReady(uenv, c, Visible(fs.files)) && !c.step.operation.Copy? {
      var fs1 := Read(uenv.io, Probe(uenv.io, fs).0, t).0;
      AtomicWriteSucceeds(uenv.io, fs1, t, index, ArchivedFor(uenv, c.step).value.bytes);
    }
  }

  /** The archive has the path, at the digest that the plan recorded. */
  predicate Archived(uenv: UndoEnv, step: Step) {
    step.relativePath in uenv.archive && step.preRestoreDigest == Some(uenv.archive[step.relativePath].digest)
  }

  /**
   * What an undo asks of the tree: the copied file as it was written; the deleted file still missing, or back already;
   * the replaced file as it was written or as it was before, or missing if the Replace had failed.
   */
  predicate UndoAccepts(uenv: UndoEnv, c: Candidate, v: Files) {
    var t, step := T(c.step), c.step;
    var now := if t in v then Some(uenv.digest(v[t])) else None;
    match step.operation
    case Copy => now.Some? && now == step.expectedDigest
    case Delete => Archived(uenv, step) && (now.None? || now == step.preRestoreDigest)
    case Replace =>
      && Archived(uenv, step)
      && if now.None? then c.failedReplace
         else step.expectedDigest.Some? && (now == step.expectedDigest || now == step.preRestoreDigest)
  }

  /**
   * Without I/O failure an undo succeeds exactly on such a tree: it removes what was copied, or puts the archived bytes
   * back. Else it changes nothing.
   */
  lemma UndoAcceptsExactly(uenv: UndoEnv, fs: Fs, index: nat, c: Candidate)
    requires NeverBreaks(uenv.io) && T(c.step) != [] && !IsTemp(T(c.step))
    ensures var (fs', r) := Undo(uenv, fs, index, c);
            var v := Visible(fs.files);
            && (r.Ok? <==> UndoAccepts(uenv, c, v))
            && (r.Err? ==> Visible(fs'.files) == v)
            && (r.Ok? && c.step.operation.Copy? ==> Visible(fs'.files) == v - {T(c.step)})
            && (r.Ok? && !c.step.operation.Copy? ==>
                  Visible(fs'.files) == v[T(c.step) := uenv.archive[c.step.relativePath].bytes])
  {
    hide Target, AtomicWrite, IsTemp, Undo;
    UndoSucceeds(uenv, fs, index, c);
    UndoHasEffect(uenv, fs, index, c);
  }

  lemma UndoReadyMoves(uenv: UndoEnv, c: Candidate, v: Files, w: Files)
    requires SameAt(v, w, T(c.step))
    ensures UndoReady(uenv, c, v) == UndoReady(uenv, c, w)
  {
    hide Target, ArchivedFor, TargetRestorable;
  }

  /** Candidates on distinct targets are all undone exactly when each is ready at the start. */
  lemma {:induction false} UndoAllSucceeds(uenv: UndoEnv, cs: seq<Candidate>, index: nat, fs: Fs)
    requires NeverBreaks(uenv.io)
    requires forall c :: c in cs ==> T(c.step) != [] && !IsTemp(T(c.step))
    requires forall i, j :: 0 <= j < i < |cs| ==> T(cs[i].step) != T(cs[j].step)
    ensures AllUndone(UndoAll(uenv, cs, index, fs).1) <==> forall c :: c in cs ==> UndoReady(uenv, c, Visible(fs.files))
    decreases |cs|
  {
    if cs != [] {
      hide Undo, UndoReady, UndoEffect, IsTemp, Visible, Target, NeverBreaks;
      var (fs1, u) := Undo(uenv, fs, index, cs[0]);
      UndoSucceeds(uenv, fs, index, cs[0]);
      if u.Ok? {
        UndoHasEffect(uenv, fs, index, cs[0]);
        var rest := cs[1..];
        UndoAllSucceeds(uenv, rest, index + 1, fs1);
        forall c | c in rest
          ensures UndoReady(uenv, c, Visible(fs.files)) == UndoReady(uenv, c, Visible(fs1.files))
        {
          var i :| 0 <= i < |rest| && rest[i] == c;
          assert T(cs[i + 1].step) != T(cs[0].step);
          UndoKeepsOthers(uenv, cs[0], Visible(fs.files), Visible(fs1.files), u, T(c.step));
          UndoReadyMoves(uenv, c, Visible(fs.files), Visible(fs1.files));
        }
        assert forall c :: c in cs <==> c == cs[0] || c in rest;
        UndoneOfCons(uenv, cs, index, fs);
      } else {
        assert cs[0] in cs;
        assert u in UndoAll(uenv, cs, index, fs).1;
      }
    }
  }

  lemma UndoneOfCons(uenv: UndoEnv, cs: seq<Candidate>, index: nat, fs: Fs)
    requires cs != [] && Undo(uenv, fs, index, cs[0]).1.Ok?
    ensures var fs1 := Undo(uenv, fs, index, cs[0]).0;
      AllUndone(UndoAll(uenv, cs, index, fs).1) <==> AllUndone(UndoAll(uenv, cs[1..], index + 1, fs1).1)
  {
    hide Undo;
    var (fs1, u) := Undo(uenv, fs, index, cs[0]);
    var rs1 := UndoAll(uenv, cs[1..], index + 1, fs1).1;
    assert UndoAll(uenv, cs, index, fs).1 == [u] + rs1;
    assert forall x :: x in [u] + rs1 <==> x == u || x in rs1;
  }

  /** The target of a failing Replace is missing or at one of the two planned digests. */
  ghost predicate Recognised(run: Run) {
    FailingReplace(run) ==>
      var step := run.steps[|run.Results()| - 1];
      var t := T(step);
      t in run.Start() ==>
        || step.expectedDigest == Some(run.env.digest(run.Start()[t]))
        || step.preRestoreDigest == Some(run.env.digest(run.Start()[t]))
  }

  /** The archive holds what the undo of each such step needs. */
  ghost predicate Covers(uenv: UndoEnv, run: Run) {
    forall k :: IsUndone(run, k) && !run.steps[k].operation.Copy? ==> ArchivedFor(uenv, run.steps[k]).Ok?
  }

  lemma CommittedIsReady(env: Env, uenv: UndoEnv, step: Step, v: Files, v': Files, r: StepResult)
    requires StepEffect(env, step, v, v', r) && r.Committed? && uenv.digest == env.digest
    requires !step.operation.Copy? ==> ArchivedFor(uenv, step).Ok?
    ensures UndoReady(uenv, Candidate(step, false), v')
  {
    hide Target;
  }

  lemma FailingReplaceReady(env: Env, uenv: UndoEnv, step: Step, v: Files, v': Files, r: StepResult)
    requires StepEffect(env, step, v, v', r) && r.Aborted? && step.operation.Replace? && uenv.digest == env.digest
    requires ArchivedFor(uenv, step).Ok? && step.expectedDigest.Some?
    ensures UndoReady(uenv, Candidate(step, true), v') <==>
      (T(step) in v ==>
          step.expectedDigest == Some(env.digest(v[T(step)])) || step.preRestoreDigest == Some(env.digest(v[T(step)])))
  {
    hide Target;
  }

  lemma CommittedReadyAtEnd(run: Run, uenv: UndoEnv, k: nat, v: Files)
    requires NoTempTargets(run.steps) && DistinctTargets(run.steps) && uenv.digest == run.env.digest
            && Covers(uenv, run)
    requires k < CommittedCount(run.Results()) && v == run.Tree(|run.Results()|)
    ensures UndoReady(uenv, Candidate(run.steps[k], false), v)
  {
    hide Forward, StepEffect, UndoReady, IsTemp, V, Target, ArchivedFor;
    CommittedResult(run, k);
    RunStep(run, k);
    CommittedIsReady(run.env, uenv, run.steps[k], run.Tree(k), run.Tree(k + 1), run.Results()[k]);
    RunKeepsOthers(run, k + 1, |run.Results()|, T(run.steps[k]));
    UndoReadyMoves(uenv, Candidate(run.steps[k], false), run.Tree(k + 1), v);
  }

  lemma FailingReadyAtEnd(run: Run, uenv: UndoEnv, v: Files)
    requires NoTempTargets(run.steps) && DistinctTargets(run.steps) && uenv.digest == run.env.digest
            && Covers(uenv, run)
    requires FailingReplace(run) && run.steps[|run.Results()| - 1].expectedDigest.Some?
    requires v == run.Tree(|run.Results()|)
    ensures UndoReady(uenv, Candidate(run.steps[|run.Results()| - 1], true), v) <==> Recognised(run)
  {
    hide Forward, StepEffect, UndoReady, IsTemp, V, Target, ArchivedFor, Visible;
    var n := |run.Results()| - 1;
    RunStep(run, n);
    TargetAsAtStart(run, n);
    FailingReplaceReady(run.env, uenv, run.steps[n], run.Tree(n), v, run.Results()[n]);
  }

  /** Distinct valid paths, an archive with the planned contents and no I/O failure: rollback
      reaches `rolled_back` if and only if the failing Replace's target is recognised. */
  lemma RollbackSucceedsExactly(run: Run, uenv: UndoEnv, fs: Fs)
    requires NoTempTargets(run.steps) && DistinctTargets(run.steps) && EndsAborted(run.Results())
    requires forall k :: 0 <= k < |run.steps| ==> ValidStep(run.steps[k])
    requires NeverBreaks(uenv.io) && uenv.digest == run.env.digest && Covers(uenv, run)
    requires Visible(fs.files) == Visible(run.End().files)
    ensures AllUndone(UndoAll(uenv, CandidatesOf(run), 0, fs).1) <==> Recognised(run)
  {
    hide Forward, UndoReady, IsTemp, V, Target, ArchivedFor, Visible, UndoAll, AllUndone, CandidatesOf, NeverBreaks;
    hide NoTempTargets, DistinctTargets, Covers, Recognised, ValidStep;
    RunEnd(run);
    CandidatesAreNotTemp(run);
    CandidatesHaveTargets(run);
    CandidateTargets(run);
    UndoAllSucceeds(uenv, CandidatesOf(run), 0, fs);
    CandidatesReady(run, uenv, Visible(fs.files));
  }

  lemma CandidatesHaveTargets(run: Run)
    requires EndsAborted(run.Results()) && forall k :: 0 <= k < |run.steps| ==> ValidStep(run.steps[k])
    ensures forall c :: c in CandidatesOf(run) ==> T(c.step) != []
  {
    hide Forward, CandidatesOf, Target, ValidRelativePath;
    var cs := CandidatesOf(run);
    forall c | c in cs ensures T(c.step) != [] {
      var i :| 0 <= i < |cs| && cs[i] == c;
      CandidateAt(run, i);
      assert ValidStep(run.steps[|cs| - 1 - i]);
    }
  }

  lemma CandidatesReady(run: Run, uenv: UndoEnv, v: Files)
    requires NoTempTargets(run.steps) && DistinctTargets(run.steps) && EndsAborted(run.Results())
    requires forall k :: 0 <= k < |run.steps| ==> ValidStep(run.steps[k])
    requires uenv.digest == run.env.digest && Covers(uenv, run) && v == run.Tree(|run.Results()|)
    ensures (forall c :: c in CandidatesOf(run) ==> UndoReady(uenv, c, v)) <==> Recognised(run)
  {
    hide Forward, UndoReady, V, Target, CandidatesOf, NoTempTargets, DistinctTargets, Covers, Recognised;
    hide ValidRelativePath;
    var cs := CandidatesOf(run);
    var n := |run.Results()| - 1;
    CandidatesShape(run);
    forall k | 0 <= k < n ensures UndoReady(uenv, Candidate(run.steps[k], false), v) {
      CommittedReadyAtEnd(run, uenv, k, v);
    }
    if FailingReplace(run) {
      assert ValidStep(run.steps[n]);
      FailingReadyAtEnd(run, uenv, v);
      var failing := Candidate(run.steps[n], true);
      assert cs[0] == failing && failing in cs;
      forall c | c in cs && c != failing ensures UndoReady(uenv, c, v) {
        var i :| 0 <= i < |cs| && cs[i] == c;
        assert c == Candidate(run.steps[n - i], false);
      }
    } else {
      forall c | c in cs ensures UndoReady(uenv, c, v) {
        var i :| 0 <= i < |cs| && cs[i] == c;
        assert c == Candidate(run.steps[n - 1 - i], false);
      }
      NotFailingIsRecognised(run);
    }
  }

  lemma NotFailingIsRecognised(run: Run)
    requires !FailingReplace(run)
    ensures Recognised(run)
  {
    hide Forward;
  }

  // ---------------------------------------------------------------- edited trees

  /** A content that no candidate on its path planned: neither its new nor its old digest. */
  ghost predicate Foreign(uenv: UndoEnv, cs: seq<Candidate>, v: Files, p: Path) {
    p in v && forall c :: c in cs && T(c.step) == p ==>
      c.step.expectedDigest != Some(uenv.digest(v[p])) && c.step.preRestoreDigest != Some(uenv.digest(v[p]))
  }

  lemma ForeignIsNotReady(uenv: UndoEnv, c: Candidate, v: Files, v': Files, r: Result<Option<string>>)
    requires UndoEffect(uenv, c, v, v', r) && Foreign(uenv, [c], v, T(c.step))
    ensures r.Err?
  {
    hide Target;
    assert c in [c];
  }

  /** Rollback on any tree keeps every file whose content was not planned, byte for byte. */
  lemma {:induction false} ForeignFilesKept(uenv: UndoEnv, cs: seq<Candidate>, index: nat, fs: Fs, p: Path)
    requires forall c :: c in cs ==> !IsTemp(T(c.step))
    requires Foreign(uenv, cs, Visible(fs.files), p)
    ensures SameAt(Visible(fs.files), Visible(UndoAll(uenv, cs, index, fs).0.files), p)
    decreases |cs|
  {
    if cs != [] {
      hide UndoEffect, Undo, IsTemp, Visible, Target;
      var c := cs[0];
      var (fs1, u) := Undo(uenv, fs, index, c);
      UndoHasEffect(uenv, fs, index, c);
      if T(c.step) == p {
        assert Foreign(uenv, [c], Visible(fs.files), p);
        ForeignIsNotReady(uenv, c, Visible(fs.files), Visible(fs1.files), u);
        UndoErrKeeps(uenv, c, Visible(fs.files), Visible(fs1.files), u);
      } else {
        UndoKeepsOthers(uenv, c, Visible(fs.files), Visible(fs1.files), u, p);
        if u.Ok? { ForeignFilesKept(uenv, cs[1..], index + 1, fs1, p); }
      }
    }
  }

  lemma UndoErrKeeps(uenv: UndoEnv, c: Candidate, v: Files, v': Files, r: Result<Option<string>>)
    requires UndoEffect(uenv, c, v, v', r) && r.Err?
    ensures v' == v
  {
  }

  /** `completed_steps` of a rollback. */
  function Completed(rs: seq<Result<Option<string>>>): (n: nat)
    ensures n <= |rs|
  {
    if rs != [] && rs[|rs| - 1].Err? then |rs| - 1 else |rs|
  }

  lemma CompletedOfCons(u: Result<Option<string>>, rs: seq<Result<Option<string>>>)
    requires u.Ok?
    ensures Completed([u] + rs) == 1 + Completed(rs)
  {
    if rs != [] { assert ([u] + rs)[|rs|] == rs[|rs| - 1]; }
  }

  lemma UndoAllOfCons(uenv: UndoEnv, cs: seq<Candidate>, index: nat, fs: Fs)
    requires cs != [] && Undo(uenv, fs, index, cs[0]).1.Ok?
    ensures var (fs1, u) := Undo(uenv, fs, index, cs[0]);
      var rest := UndoAll(uenv, cs[1..], index + 1, fs1);
      UndoAll(uenv, cs, index, fs) == (rest.0, [u] + rest.1)
  {
    hide Undo;
  }

  /** A rollback that stops has done exactly its completed undos: the failing one shows nothing. */
  lemma {:induction false} StoppedRollbackIsAPrefix(uenv: UndoEnv, cs: seq<Candidate>, index: nat, fs: Fs)
    requires forall c :: c in cs ==> !IsTemp(T(c.step))
    ensures var (fs', rs) := UndoAll(uenv, cs, index, fs);
      var (done, us) := UndoAll(uenv, cs[..Completed(rs)], index, fs);
      AllUndone(us) && |us| == Completed(rs) && Visible(done.files) == Visible(fs'.files)
    decreases |cs|
  {
    hide UndoEffect, Undo, IsTemp, Visible, Target;
    if cs != [] {
      var (fs1, u) := Undo(uenv, fs, index, cs[0]);
      if u.Err? {
        UndoHasEffect(uenv, fs, index, cs[0]);
        UndoErrKeeps(uenv, cs[0], Visible(fs.files), Visible(fs1.files), u);
        assert UndoAll(uenv, cs, index, fs) == (fs1, [u]);
        assert cs[..0] == [];
      } else {
        hide UndoAll, Completed, AllUndone;
        StoppedRollbackIsAPrefix(uenv, cs[1..], index + 1, fs1);
        var rs1 := UndoAll(uenv, cs[1..], index + 1, fs1).1;
        UndoAllOfCons(uenv, cs, index, fs);
        CompletedOfCons(u, rs1);
        var done := cs[..1 + Completed(rs1)];
        assert done[0] == cs[0] && done[1..] == cs[1..][..Completed(rs1)];
        UndoAllOfCons(uenv, done, index, fs);
        UndoneOfCons(uenv, done, index, fs);
      }
    }
  }
}
