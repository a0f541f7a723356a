/** The staged mutation planner: the canonical payload whose digest binds a plan to its log. */
module Preflight {
  import opened Text
  import opened Octets
  import opened RestorePlan
  import opened Ordering

  datatype ApplyPlan = ApplyPlan(
    planId: string, backupArtifactId: string, preRestoreArtifactId: Option<string>, targetRoot: string,
        steps: seq<Step>)

  datatype RollbackEntry = RollbackEntry(relativePath: string, action: string, preRestoreDigest: Option<string>)

  const NONE := "none"

  /** `validate_restore_target_root` */
  predicate ValidTargetRoot(v: string) {
    !IsBlank(v) && IsTrimmed(v) && '\0' !in v && !ContainsDotDot(v)
  }

  // ---------------------------------------------------------------- parts of the payload

  function OrNone(v: Option<string>): string { if v.Some? then v.value else NONE }

  function RollbackEntryOf(step: Step): RollbackEntry {
    if step.operation.Copy? then RollbackEntry(step.relativePath, "delete_restored_path", None)
    else RollbackEntry(step.relativePath, "restore_pre_restore_digest", step.preRestoreDigest)
  }

  function Manifest(steps: seq<Step>): (m: seq<RollbackEntry>)
    ensures |m| == |steps|
    ensures forall i :: 0 <= i < |steps| ==> m[i] == RollbackEntryOf(steps[i])
  {
    if steps == [] then [] else Manifest(steps[..|steps| - 1]) + [RollbackEntryOf(steps[|steps| - 1])]
  }

  /** Insertion into a `BTreeSet`, seen as its sorted sequence. */
  function InsertUnique(s: seq<string>, x: string): seq<string> {
    if x in s then s else Insert(StringLe, x, s)
  }

  function AffectedPaths(steps: seq<Step>): seq<string> {
    if steps == [] then [] else InsertUnique(AffectedPaths(steps[..|steps| - 1]), steps[|steps| - 1].relativePath)
  }

  /** The affected paths are the paths of the steps, sorted, each once. */
  lemma {:induction false} AffectedPathsMeaning(steps: seq<Step>)
    ensures SortedBy(StringLe, AffectedPaths(steps))
    ensures forall p :: p in AffectedPaths(steps) <==> exists s :: s in steps && s.relativePath == p
    ensures forall p :: multiset(AffectedPaths(steps))[p] <= 1
  {
    if steps != [] {
      var front, last := steps[..|steps| - 1], steps[|steps| - 1];
      AffectedPathsMeaning(front);
      var a, x := AffectedPaths(front), last.relativePath;
      StringOrder();
      InsertSorts(StringLe, x, a);
      InsertElements(StringLe, x, a);
      assert forall s :: s in steps <==> s in front || s == last;
      assert x !in a ==> multiset(a)[x] == 0;
    }
  }

  // ---------------------------------------------------------------- the payload

  function StepFields(s: Step): seq<string> {
    [OperationName(s.operation), s.relativePath, OrNone(s.sourceKey), OrNone(s.expectedDigest),
        OrNone(s.preRestoreDigest), "file"]
  }

  function StepLine(index: nat, s: Step): string {
    "step[" + Decimal(index) + "]=" + Join(StepFields(s), '|')
  }

  function StepLines(steps: seq<Step>): (ls: seq<string>)
    ensures |ls| == |steps|
    ensures forall i :: 0 <= i < |steps| ==> ls[i] == StepLine(i, steps[i])
  {
    if steps == [] then [] else StepLines(steps[..|steps| - 1]) + [StepLine(|steps| - 1, steps[|steps| - 1])]
  }

  function AffectedLines(paths: seq<string>): seq<string> {
    if paths == [] then [] else AffectedLines(paths[..|paths| - 1]) + ["affected=" + paths[|paths| - 1]]
  }

  function RollbackLine(index: nat, e: RollbackEntry): string {
    "rollback[" + Decimal(index) + "]=" + Join([e.relativePath, e.action, OrNone(e.preRestoreDigest)], '|')
  }

  function RollbackLines(m: seq<RollbackEntry>): (ls: seq<string>)
    ensures |ls| == |m|
    ensures forall i :: 0 <= i < |m| ==> ls[i] == RollbackLine(i, m[i])
  {
    if m == [] then [] else RollbackLines(m[..|m| - 1]) + [RollbackLine(|m| - 1, m[|m| - 1])]
  }

  function ArtifactKey(id: string): string { "backup/" + id }

  function PreRestoreKey(id: Option<string>): string {
    if id.Some? then ArtifactKey(id.value) else "<missing>"
  }

  function HeaderLines(plan: ApplyPlan): seq<string> {
    ["restore-mutation-plan:v1", "plan_id=" + plan.planId, "target_root=" + plan.targetRoot,
     "backup_artifact_key=" + ArtifactKey(plan.backupArtifactId),
     "pre_restore_backup_artifact_key=" + PreRestoreKey(plan.preRestoreArtifactId),
     "steps=" + Decimal(|plan.steps|)]
  }

  function TailLines(steps: seq<Step>): seq<string> {
    var paths, manifest := AffectedPaths(steps), Manifest(steps);
    ["affected_paths=" + Decimal(|paths|)] + AffectedLines(paths)
    + ["rollback_entries=" + Decimal(|manifest|)] + RollbackLines(manifest) + ["mutation_executed=false"]
  }

  function PayloadLines(plan: ApplyPlan): seq<string> {
    HeaderLines(plan) + StepLines(plan.steps) + TailLines(plan.steps)
  }

  /** `canonical_mutation_plan_payload` */
  function Payload(plan: ApplyPlan): string { Unlines(PayloadLines(plan)) }

  // ---------------------------------------------------------------- the planner

  datatype Staged = Staged(
    planId: string, targetRoot: string, mutationPlanned: bool, steps: seq<Step>,
    affectedPaths: seq<string>, preflightHash: string, manifest: seq<RollbackEntry>)

  /** `RestoreStagedMutationPlanner::plan`, for a digest of text. */
  method StagePlan(plan: ApplyPlan, digest: string -> string) returns (r: Result<Staged>)
    ensures !ValidTargetRoot(plan.targetRoot) ==> r == Err(InvalidArgument)
    ensures ValidTargetRoot(plan.targetRoot) ==>
      r == Ok(Staged(plan.planId, plan.targetRoot, plan.steps != [], plan.steps, AffectedPaths(plan.steps),
                     digest(Payload(plan)), Manifest(plan.steps)))
  {
    hide InsertUnique, RollbackEntryOf, PayloadLines;
    if !ValidTargetRoot(plan.targetRoot) { return Err(InvalidArgument); }
    var affected: seq<string> := [];
    var manifest: seq<RollbackEntry> := [];
    for i := 0 to |plan.steps|
      invariant affected == AffectedPaths(plan.steps[..i])
      invariant manifest == Manifest(plan.steps[..i])
    {
      assert plan.steps[..i + 1][..i] == plan.steps[..i];
      affected := InsertUnique(affected, plan.steps[i].relativePath);
      manifest := manifest + [RollbackEntryOf(plan.steps[i])];
    }
    assert plan.steps[..|plan.steps|] == plan.steps;
    var payload := CanonicalPayload(plan, affected, manifest);
    return Ok(Staged(plan.planId, plan.targetRoot, plan.steps != [], plan.steps, affected, digest(payload), manifest));
  }

  /** The payload buffer, appended to in three loops. */
  method CanonicalPayload(
    plan: ApplyPlan, affected: seq<string>, manifest: seq<RollbackEntry>) returns (payload: string)
    requires affected == AffectedPaths(plan.steps) && manifest == Manifest(plan.steps)
    ensures payload == Payload(plan)
  {
    hide HeaderLines, StepLine, RollbackLine, RollbackLines, AffectedLines, AffectedPaths, Manifest, Unlines, Decimal;
    var ls := HeaderLines(plan);
    payload := Unlines(ls);
    ghost var done := ls;
    assert ls + [] == ls;
    for i := 0 to |plan.steps|
      invariant done == ls + StepLines(plan.steps[..i]) && payload == Unlines(done)
    {
      var line := StepLine(i, plan.steps[i]);
      assert plan.steps[..i + 1][..i] == plan.steps[..i];
      UnlinesAppend(done, [line]);
      payload := payload + Unlines([line]);
      done := done + [line];
    }
    assert plan.steps[..|plan.steps|] == plan.steps;
    payload := AppendAffected(payload, affected, done);
    done := done + (["affected_paths=" + Decimal(|affected|)] + AffectedLines(affected));
    payload := FinishPayload(payload, manifest, done);
    assert done + (["rollback_entries=" + Decimal(|manifest|)] + RollbackLines(manifest) + ["mutation_executed=false"])
        == PayloadLines(plan);
  }

  method AppendAffected(start: string, affected: seq<string>, ghost before: seq<string>) returns (payload: string)
    requires start == Unlines(before)
    ensures payload == Unlines(before + (["affected_paths=" + Decimal(|affected|)] + AffectedLines(affected)))
  {
    hide Unlines, Decimal;
    ghost var done := before;
    var count := "affected_paths=" + Decimal(|affected|);
    UnlinesAppend(done, [count]);
    payload := start + Unlines([count]);
    done := done + [count];
    ghost var base := done;
    for i := 0 to |affected|
      invariant done == base + AffectedLines(affected[..i]) && payload == Unlines(done)
    {
      var line := "affected=" + affected[i];
      assert affected[..i + 1][..i] == affected[..i];
      UnlinesAppend(done, [line]);
      payload := payload + Unlines([line]);
      done := done + [line];
    }
    assert affected[..|affected|] == affected;
    assert done == before + ([count] + AffectedLines(affected));
  }

  method FinishPayload(start: string, manifest: seq<RollbackEntry>, ghost before: seq<string>) returns (payload: string)
    requires start == Unlines(before)
    ensures payload == Unlines(before + (["rollback_entries=" + Decimal(|manifest|)] + RollbackLines(manifest)
                                         + ["mutation_executed=false"]))
  {
    hide RollbackLine, Unlines, Decimal;
    ghost var done := before;
    var count := "rollback_entries=" + Decimal(|manifest|);
    UnlinesAppend(done, [count]);
    payload := start + Unlines([count]);
    done := done + [count];
    ghost var base := done;
    for i := 0 to |manifest|
      invariant done == base + RollbackLines(manifest[..i]) && payload == Unlines(done)
    {
      var line := RollbackLine(i, manifest[i]);
      assert manifest[..i + 1][..i] == manifest[..i];
      UnlinesAppend(done, [line]);
      payload := payload + Unlines([line]);
      done := done + [line];
    }
    assert manifest[..|manifest|] == manifest;
    UnlinesAppend(done, ["mutation_executed=false"]);
    payload := payload + Unlines(["mutation_executed=false"]);
    assert done + ["mutation_executed=false"]
        == before + ([count] + RollbackLines(manifest) + ["mutation_executed=false"]);
  }

  lemma {:induction false} AffectedLinesTell(paths: seq<string>, p: string)
    requires p in paths
    ensures "affected=" + p in AffectedLines(paths)
  {
    var n := |paths| - 1;
    if p in paths[..n] { AffectedLinesTell(paths[..n], p); }
  }

  lemma RollbackLineSpelled(i: nat, path: string, action: string, digest: Option<string>)
    ensures RollbackLine(i, RollbackEntry(path, action, digest)) ==
      "rollback[" + Decimal(i) + "]=" + (path + ['|'] + (action + ['|'] + OrNone(digest)))
  {
    hide Join, Decimal;
    var parts := [path, action, OrNone(digest)];
    JoinCons(parts);
    JoinCons(parts[1..]);
    assert Join([OrNone(digest)], '|') == OrNone(digest) by { JoinOne(OrNone(digest)); }
    assert parts[1..][1..] == [OrNone(digest)];
  }

  /**
   * The payload tells of each step that its path is affected and how it is undone: a copy by deleting the copied file,
   * a delete or a replace by the file of that digest.
   */
  lemma PayloadTells(plan: ApplyPlan, i: nat)
    requires i < |plan.steps|
    ensures var s, ls := plan.steps[i], PayloadLines(plan);
      && "affected=" + s.relativePath in ls
      && "rollback[" + Decimal(i) + "]=" + (s.relativePath + ['|'] +
           (if s.operation.Copy? then "delete_restored_path" + ['|'] + "none"
            else "restore_pre_restore_digest" + ['|'] +
                 (match s.preRestoreDigest case None => "none" case Some(d) => d))) in ls
      && "plan_id=" + plan.planId in ls && "target_root=" + plan.targetRoot in ls
      && ls[|ls| - 1] == "mutation_executed=false"
  {
    hide AffectedPaths, RollbackLine, StepLine, Decimal, AffectedLines;
    var s := plan.steps[i];
    var e := RollbackEntryOf(s);
    AffectedPathsMeaning(plan.steps);
    AffectedLinesTell(AffectedPaths(plan.steps), s.relativePath);
    RollbackLineSpelled(i, e.relativePath, e.action, e.preRestoreDigest);
    var m := Manifest(plan.steps);
    assert RollbackLines(m)[i] == RollbackLine(i, e);
    assert RollbackLine(i, e) in RollbackLines(m);
    TailTells(plan);
  }

  lemma TailTells(plan: ApplyPlan)
    ensures var ls := PayloadLines(plan);
      && (forall l :: l in AffectedLines(AffectedPaths(plan.steps)) ==> l in ls)
      && (forall l :: l in RollbackLines(Manifest(plan.steps)) ==> l in ls)
      && "plan_id=" + plan.planId in ls && "target_root=" + plan.targetRoot in ls
      && ls[|ls| - 1] == "mutation_executed=false"
  {
    hide AffectedPaths, Manifest, StepLines, RollbackLines, AffectedLines, Decimal;
    var head := HeaderLines(plan);
    assert head[1] in head && head[2] in head;
  }

  // ---------------------------------------------------------------- binding

  predicate NoBreak(v: Option<string>) { v.Some? ==> '\n' !in v.value }

  /** A valid step whose strings have no line break. Its digests may even contain the separator. */
  predicate BindableStep(s: Step) {
    && ValidStep(s)
    && '\n' !in s.relativePath && NoBreak(s.sourceKey) && NoBreak(s.expectedDigest) && NoBreak(s.preRestoreDigest)
  }

  predicate BindablePlan(plan: ApplyPlan) {
    && '\n' !in plan.planId && '\n' !in plan.targetRoot && '\n' !in plan.backupArtifactId
        && NoBreak(plan.preRestoreArtifactId)
    && forall s :: s in plan.steps ==> BindableStep(s)
  }

  lemma OperationNameInjective(a: Operation, b: Operation)
    requires OperationName(a) == OperationName(b)
    ensures a == b
  {
    assert "copy"[0] == 'c' && "delete"[0] == 'd' && "replace"[0] == 'r';
  }

  lemma DigestFieldInjective(a: Option<string>, b: Option<string>)
    requires (a.Some? ==> ValidDigest(a.value)) && (b.Some? ==> ValidDigest(b.value))
    requires OrNone(a) == OrNone(b)
    ensures a == b
  {
    assert "sha256:"[0] == 's' && NONE[0] == 'n';
  }

  lemma FieldsHaveNoBar(s: Step)
    requires BindableStep(s)
    ensures '|' !in OperationName(s.operation) && '|' !in s.relativePath && '|' !in OrNone(s.sourceKey)
    ensures '|' !in RollbackEntryOf(s).action
  {
    hide ValidDigest;
    assert '|' !in NONE;
    assert '|' !in "delete_restored_path" && '|' !in "restore_pre_restore_digest";
  }

  lemma FirstField(a: string, b: string, r: string, s: string)
    requires a + ['|'] + r == b + ['|'] + s && '|' !in a && '|' !in b
    ensures a == b && r == s
  {
    SplitOnceKey(a, '|', r);
    SplitOnceKey(b, '|', s);
  }

  lemma JoinCons(parts: seq<string>)
    requires |parts| > 1
    ensures Join(parts, '|') == parts[0] + ['|'] + Join(parts[1..], '|')
  {
  }

  /** The digests of a step, as its line ends. */
  function DigestFields(s: Step): string { Join([OrNone(s.expectedDigest), OrNone(s.preRestoreDigest), "file"], '|') }

  lemma StepLineSpelled(s: Step)
    ensures Join(StepFields(s), '|') ==
            OperationName(s.operation) + ['|']
            + (s.relativePath + ['|'] + (OrNone(s.sourceKey) + ['|'] + DigestFields(s)))
  {
    hide Join;
    var f := StepFields(s);
    JoinCons(f);
    JoinCons(f[1..]);
    JoinCons(f[1..][1..]);
    assert f[1..][1..][1..] == [OrNone(s.expectedDigest), OrNone(s.preRestoreDigest), "file"];
  }

  /** A step line determines all of its step but the border between its digests. */
  lemma StepLineBinds(i: nat, a: Step, b: Step)
    requires BindableStep(a) && BindableStep(b) && StepLine(i, a) == StepLine(i, b)
    ensures a.operation == b.operation && a.relativePath == b.relativePath && OrNone(a.sourceKey) == OrNone(b.sourceKey)
    ensures DigestFields(a) == DigestFields(b)
  {
    hide BindableStep, Decimal, Join, OperationName;
    PrefixCancels("step[" + Decimal(i) + "]=", Join(StepFields(a), '|'), Join(StepFields(b), '|'));
    StepLineSpelled(a);
    StepLineSpelled(b);
    FieldsHaveNoBar(a);
    FieldsHaveNoBar(b);
    var ra := OrNone(a.sourceKey) + ['|'] + DigestFields(a);
    var rb := OrNone(b.sourceKey) + ['|'] + DigestFields(b);
    FirstField(OperationName(a.operation), OperationName(b.operation), a.relativePath + ['|'] + ra,
        b.relativePath + ['|'] + rb);
    OperationNameInjective(a.operation, b.operation);
    FirstField(a.relativePath, b.relativePath, ra, rb);
    FirstField(OrNone(a.sourceKey), OrNone(b.sourceKey), DigestFields(a), DigestFields(b));
  }

  /** The rollback line of a step determines its pre-restore digest. */
  lemma RollbackLineBinds(i: nat, a: Step, b: Step)
    requires BindableStep(a) && BindableStep(b) && a.operation == b.operation && a.relativePath == b.relativePath
    requires RollbackLine(i, RollbackEntryOf(a)) == RollbackLine(i, RollbackEntryOf(b))
    ensures a.preRestoreDigest == b.preRestoreDigest
  {
    hide ValidRelativePath, ValidDigest, Decimal, Join;
    var x, y := RollbackEntryOf(a), RollbackEntryOf(b);
    var da, db := OrNone(x.preRestoreDigest), OrNone(y.preRestoreDigest);
    var fa, fb := [x.relativePath, x.action, da], [y.relativePath, y.action, db];
    PrefixCancels("rollback[" + Decimal(i) + "]=", Join(fa, '|'), Join(fb, '|'));
    JoinCons(fa);
    JoinCons(fb);
    PrefixCancels(x.relativePath + ['|'], Join(fa[1..], '|'), Join(fb[1..], '|'));
    JoinCons(fa[1..]);
    JoinCons(fb[1..]);
    assert fa[1..][1..] == [da] && fb[1..][1..] == [db];
    JoinOne(da);
    JoinOne(db);
    PrefixCancels(x.action + ['|'], da, db);
    DigestFieldInjective(x.preRestoreDigest, y.preRestoreDigest);
  }

  lemma JoinOne(v: string)
    ensures Join([v], '|') == v
  {
  }

  /** Together the two lines of a step determine it. */
  lemma StepLinesBind(i: nat, a: Step, b: Step)
    requires BindableStep(a) && BindableStep(b) && StepLine(i, a) == StepLine(i, b)
    requires RollbackLine(i, RollbackEntryOf(a)) == RollbackLine(i, RollbackEntryOf(b))
    ensures a == b
  {
    hide ValidRelativePath, ValidDigest, StepLine, RollbackLine, DigestFields;
    StepLineBinds(i, a, b);
    RollbackLineBinds(i, a, b);
    DigestsSplit(a, b);
    DigestFieldInjective(a.expectedDigest, b.expectedDigest);
  }

  lemma DigestsSplit(a: Step, b: Step)
    requires DigestFields(a) == DigestFields(b) && a.preRestoreDigest == b.preRestoreDigest
    ensures OrNone(a.expectedDigest) == OrNone(b.expectedDigest)
  {
    hide Join;
    var tail := [OrNone(a.preRestoreDigest), "file"];
    JoinCons([OrNone(a.expectedDigest)] + tail);
    JoinCons([OrNone(b.expectedDigest)] + tail);
    var x, y, rest := OrNone(a.expectedDigest), OrNone(b.expectedDigest), ['|'] + Join(tail, '|');
    assert ([x] + tail)[1..] == tail && ([y] + tail)[1..] == tail;
    assert [x] + tail == [x, tail[0], "file"] && [y] + tail == [y, tail[0], "file"];
    assert x + ['|'] + Join(tail, '|') == x + rest && y + ['|'] + Join(tail, '|') == y + rest;
    SuffixCancels(x, y, rest);
  }

  lemma PreRestoreKeyInjective(a: Option<string>, b: Option<string>)
    requires PreRestoreKey(a) == PreRestoreKey(b)
    ensures a == b
  {
    assert "<missing>"[0] == '<' && "backup/"[0] == 'b';
    if a.Some? && b.Some? { PrefixCancels("backup/", a.value, b.value); }
  }

  lemma HeaderInjective(a: ApplyPlan, b: ApplyPlan)
    requires HeaderLines(a) == HeaderLines(b)
    ensures a.planId == b.planId && a.targetRoot == b.targetRoot && a.backupArtifactId == b.backupArtifactId
    ensures a.preRestoreArtifactId == b.preRestoreArtifactId && |a.steps| == |b.steps|
  {
    hide Decimal, PreRestoreKey, ArtifactKey;
    var x, y := HeaderLines(a), HeaderLines(b);
    assert x[1] == y[1] && x[2] == y[2] && x[3] == y[3] && x[4] == y[4] && x[5] == y[5];
    PrefixCancels("plan_id=", a.planId, b.planId);
    PrefixCancels("target_root=", a.targetRoot, b.targetRoot);
    PrefixCancels("backup_artifact_key=", ArtifactKey(a.backupArtifactId), ArtifactKey(b.backupArtifactId));
    ArtifactKeyInjective(a.backupArtifactId, b.backupArtifactId);
    PrefixCancels("pre_restore_backup_artifact_key=", PreRestoreKey(a.preRestoreArtifactId),
        PreRestoreKey(b.preRestoreArtifactId));
    PreRestoreKeyInjective(a.preRestoreArtifactId, b.preRestoreArtifactId);
    PrefixCancels("steps=", Decimal(|a.steps|), Decimal(|b.steps|));
    DecimalInjective(|a.steps|, |b.steps|);
  }

  lemma ArtifactKeyInjective(a: string, b: string)
    requires ArtifactKey(a) == ArtifactKey(b)
    ensures a == b
  {
    PrefixCancels("backup/", a, b);
  }

  /** Two plans have the same payload only if they agree in everything. */
  lemma PayloadBindsPlan(a: ApplyPlan, b: ApplyPlan)
    requires BindablePlan(a) && BindablePlan(b) && Payload(a) == Payload(b)
    ensures a == b
  {
    hide BindableStep, HeaderLines, StepLine, TailLines, Unlines, RollbackLine;
    PayloadHasNoBreak(a);
    PayloadHasNoBreak(b);
    UnlinesInjective(PayloadLines(a), PayloadLines(b));
    var x, y := PayloadLines(a), PayloadLines(b);
    assert |HeaderLines(a)| == 6 && |HeaderLines(b)| == 6 by { HeaderLength(a); HeaderLength(b); }
    assert HeaderLines(a) == x[..6] && HeaderLines(b) == y[..6];
    HeaderInjective(a, b);
    forall i | 0 <= i < |a.steps| ensures a.steps[i] == b.steps[i] {
      assert x[6 + i] == StepLine(i, a.steps[i]) && y[6 + i] == StepLine(i, b.steps[i]);
      RollbackLineAt(a, i);
      RollbackLineAt(b, i);
      StepLinesBind(i, a.steps[i], b.steps[i]);
    }
  }

  /** The rollback lines are the last but one. */
  lemma RollbackLineAt(plan: ApplyPlan, i: nat)
    requires i < |plan.steps|
    ensures var ls := PayloadLines(plan);
            |ls| > |plan.steps| && ls[|ls| - 1 - |plan.steps| + i] == RollbackLine(i, RollbackEntryOf(plan.steps[i]))
  {
    hide HeaderLines, StepLine, StepLines, RollbackLine, AffectedLines, AffectedPaths, RollbackEntryOf, Decimal;
    var m := Manifest(plan.steps);
    assert RollbackLines(m)[i] == RollbackLine(i, m[i]);
  }

  lemma HeaderLength(a: ApplyPlan)
    ensures |HeaderLines(a)| == 6
  {
  }

  /** With a collision-free digest the preflight hash identifies the plan. */
  lemma PreflightHashBindsPlan(a: ApplyPlan, b: ApplyPlan, digest: string -> string)
    requires BindablePlan(a) && BindablePlan(b)
    requires digest(Payload(a)) == digest(Payload(b)) ==> Payload(a) == Payload(b)
    ensures digest(Payload(a)) == digest(Payload(b)) <==> a == b
  {
    hide Payload, BindablePlan;
    if digest(Payload(a)) == digest(Payload(b)) { PayloadBindsPlan(a, b); }
  }

  // ---------------------------------------------------------------- no line break inside a line

  lemma PayloadHasNoBreak(plan: ApplyPlan)
    requires BindablePlan(plan)
    ensures forall l :: l in PayloadLines(plan) ==> '\n' !in l
  {
    hide BindableStep, HeaderLines, StepLines, TailLines;
    HeaderHasNoBreak(plan);
    StepsHaveNoBreak(plan.steps);
    TailHasNoBreak(plan.steps);
  }

  lemma DecimalHasNoBreak(n: nat)
    ensures '\n' !in Decimal(n)
  {
    assert !IsDigit('\n');
  }

  lemma KeysHaveNoBreak(plan: ApplyPlan)
    requires '\n' !in plan.backupArtifactId && NoBreak(plan.preRestoreArtifactId)
    ensures '\n' !in PreRestoreKey(plan.preRestoreArtifactId) && '\n' !in ArtifactKey(plan.backupArtifactId)
  {
    assert '\n' !in "backup/" && '\n' !in "<missing>";
  }

  lemma HeaderHasNoBreak(plan: ApplyPlan)
    requires BindablePlan(plan)
    ensures forall l :: l in HeaderLines(plan) ==> '\n' !in l
  {
    hide BindableStep, Decimal, PreRestoreKey, ArtifactKey;
    DecimalHasNoBreak(|plan.steps|);
    KeysHaveNoBreak(plan);
  }

  lemma {:induction false} JoinHasNoBreak(parts: seq<string>)
    requires |parts| >= 1 && forall p :: p in parts ==> '\n' !in p
    ensures '\n' !in Join(parts, '|')
  {
    assert '\n' !in parts[0];
    if |parts| > 1 { JoinHasNoBreak(parts[1..]); }
  }

  lemma StepLineHasNoBreak(i: nat, s: Step)
    requires BindableStep(s)
    ensures '\n' !in StepLine(i, s)
  {
    hide ValidRelativePath, ValidDigest, Decimal, Join;
    DecimalHasNoBreak(i);
    assert '\n' !in OperationName(s.operation) && '\n' !in "file" && '\n' !in NONE;
    JoinHasNoBreak(StepFields(s));
  }

  lemma StepsHaveNoBreak(steps: seq<Step>)
    requires forall s :: s in steps ==> BindableStep(s)
    ensures forall l :: l in StepLines(steps) ==> '\n' !in l
  {
    hide BindableStep, StepLine;
    forall l | l in StepLines(steps) ensures '\n' !in l {
      var i :| 0 <= i < |steps| && StepLines(steps)[i] == l;
      StepLineHasNoBreak(i, steps[i]);
    }
  }

  lemma {:induction false} AffectedHaveNoBreak(paths: seq<string>)
    requires forall p :: p in paths ==> '\n' !in p
    ensures forall l :: l in AffectedLines(paths) ==> '\n' !in l
  {
    if paths != [] { AffectedHaveNoBreak(paths[..|paths| - 1]); }
  }

  lemma {:induction false} RollbackHaveNoBreak(steps: seq<Step>)
    requires forall s :: s in steps ==> BindableStep(s)
    ensures forall l :: l in RollbackLines(Manifest(steps)) ==> '\n' !in l
  {
    hide BindableStep, RollbackLine, RollbackEntryOf;
    if steps != [] {
      var front, last := steps[..|steps| - 1], steps[|steps| - 1];
      RollbackHaveNoBreak(front);
      RollbackLineHasNoBreak(|steps| - 1, last);
      assert Manifest(steps)[..|steps| - 1] == Manifest(front);
    }
  }

  lemma ActionHasNoBreak(s: Step)
    ensures '\n' !in RollbackEntryOf(s).action && '\n' !in NONE
  {
    assert '\n' !in "delete_restored_path" && '\n' !in "restore_pre_restore_digest";
  }

  lemma RollbackLineHasNoBreak(i: nat, s: Step)
    requires BindableStep(s)
    ensures '\n' !in RollbackLine(i, RollbackEntryOf(s))
  {
    hide ValidRelativePath, ValidDigest, Decimal, Join;
    DecimalHasNoBreak(i);
    var e := RollbackEntryOf(s);
    ActionHasNoBreak(s);
    JoinHasNoBreak([e.relativePath, e.action, OrNone(e.preRestoreDigest)]);
  }

  lemma TailHasNoBreak(steps: seq<Step>)
    requires forall s :: s in steps ==> BindableStep(s)
    ensures forall l :: l in TailLines(steps) ==> '\n' !in l
  {
    hide AffectedLines, RollbackLines, Decimal, Manifest, AffectedPaths, SortedBy;
    AffectedPathsMeaning(steps);
    forall p | p in AffectedPaths(steps) ensures '\n' !in p {
      var s :| s in steps && s.relativePath == p;
      assert BindableStep(s);
    }
    AffectedHaveNoBreak(AffectedPaths(steps));
    RollbackHaveNoBreak(steps);
    DecimalHasNoBreak(|AffectedPaths(steps)|);
    DecimalHasNoBreak(|Manifest(steps)|);
  }
}
