/** Restore plans: mutation steps, their validators and the file a relative path names. */
module RestorePlan {
  import opened Text
  import opened Octets

  datatype Operation = Copy | Delete | Replace

  /** The name written to the log and to the preflight payload. */
  function OperationName(op: Operation): string {
    match op case Copy => "copy" case Delete => "delete" case Replace => "replace"
  }

  /** One file mutation. The target kind is always a plain file. */
  datatype Step = Step(
    operation: Operation,
    relativePath: string,
    sourceKey: Option<string>,
    expectedDigest: Option<string>,
    preRestoreDigest: Option<string>)

  datatype StagedPlan = StagedPlan(planId: string, preflightHash: string, steps: seq<Step>)

  datatype Artifact = Artifact(key: string, bytes: Bytes, digest: string)

  /** A digest function; the theorems hold for every one of them. */
  type DigestFn = Bytes -> string

  // ---------------------------------------------------------------- validators

  /** `validate_restore_relative_path`. `Path::components` reports `.` only in front, so an
      inner `.` passes. */
  predicate ValidRelativePath(v: string) {
    && !IsBlank(v) && IsTrimmed(v) && '\0' !in v
    && '\\' !in v && ':' !in v && '|' !in v
    && (forall s :: s in Split(v, '/') ==> s != "" && s != "..")
    && Split(v, '/')[0] != "."
  }

  /** `validate_restore_digest` */
  predicate ValidDigest(v: string) {
    "sha256:" <= v && IsTrimmed(v)
  }

  /** The field combinations `RestoreMutationStep::new` accepts. */
  predicate ValidStep(s: Step) {
    && ValidRelativePath(s.relativePath)
    && (s.sourceKey.Some? ==> ValidRelativePath(s.sourceKey.value))
    && (s.expectedDigest.Some? ==> ValidDigest(s.expectedDigest.value))
    && (s.preRestoreDigest.Some? ==> ValidDigest(s.preRestoreDigest.value))
    && match s.operation
       case Copy => s.sourceKey.Some? && s.expectedDigest.Some? && s.preRestoreDigest.None?
       case Replace => s.sourceKey.Some? && s.expectedDigest.Some? && s.preRestoreDigest.Some?
       case Delete => s.sourceKey.None? && s.expectedDigest.None? && s.preRestoreDigest.Some?
  }

  // ---------------------------------------------------------------- paths

  /** A file below the target root, by its path components. */
  type Path = seq<string>

  function WithoutDots(segments: seq<string>): (p: Path)
    ensures segments != [] && segments[0] != "." ==> p != []
  {
    if segments == [] then []
    else if segments[0] == "." then WithoutDots(segments[1..])
    else [segments[0]] + WithoutDots(segments[1..])
  }

  /** The file that a relative path opens: `a/./b` and `a/b` are the same file. */
  function Target(relativePath: string): (p: Path)
    ensures ValidRelativePath(relativePath) ==> p != []
  {
    WithoutDots(Split(relativePath, '/'))
  }

  lemma {:induction false} WithoutDotsParts(segments: seq<string>)
    ensures forall s :: s in WithoutDots(segments) <==> s in segments && s != "."
  {
    if segments != [] {
      WithoutDotsParts(segments[1..]);
      assert forall s :: s in segments <==> s == segments[0] || s in segments[1..];
    }
  }

  lemma {:induction false} PartsHaveNoSeparator(v: string, c: char)
    ensures forall s :: s in Split(v, c) ==> c !in s && forall x :: x in s ==> x in v
    decreases |v|
  {
    var i := IndexOf(v, c);
    if i < |v| { PartsHaveNoSeparator(v[i + 1..], c); }
  }

  /** An accepted path names a file below the root: no component leaves the directory or starts over. */
  lemma AcceptedPathStaysBelow(v: string)
    requires ValidRelativePath(v)
    ensures Target(v) != []
    ensures forall s :: s in Target(v) ==> s != "" && s != "." && s != ".."
    ensures forall s, c :: s in Target(v) && c in s ==> c !in {'/', '\\', ':', '|', '\0'}
  {
    hide Split, IsBlank, IsTrimmed, WithoutDots;
    WithoutDotsParts(Split(v, '/'));
    PartsHaveNoSeparator(v, '/');
  }

  function TempName(sequence: nat): string {
    ".eva-restore-" + Decimal(sequence) + ".tmp"
  }

  /** The staging file next to a target. */
  function TempPath(target: Path, sequence: nat): Path
    requires target != []
  {
    target[..|target| - 1] + [TempName(sequence)]
  }

  ghost predicate IsTemp(p: Path) {
    p != [] && exists n: nat :: p[|p| - 1] == TempName(n)
  }

  lemma TempPathIsTemp(target: Path, sequence: nat)
    requires target != []
    ensures IsTemp(TempPath(target, sequence))
  {
  }
}
