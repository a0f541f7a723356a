/** The file tree under the restore root, with an oracle that may break any I/O call, and the
    two staging protocols built on it. */
module RestoreDisk {
  import opened Text
  import opened Octets
  import opened RestorePlan

  /** What the operating system does with one call. A broken write may leave bytes behind. */
  datatype Fault = Fine | Broken(residue: Option<Bytes>)

  type Oracle = nat -> Fault

  type Files = map<Path, Bytes>

  /** The tree and the number of I/O calls made so far. */
  datatype Fs = Fs(files: Files, tick: nat)

  datatype Outcome<+T> = Done(value: T) | Missing | Failed

  // ---------------------------------------------------------------- single calls

  function Tick(fs: Fs): Fs { fs.(tick := fs.tick + 1) }

  function Read(io: Oracle, fs: Fs, p: Path): (Fs, Outcome<Bytes>) {
    (Tick(fs),
     if io(fs.tick).Broken? then Failed
     else if p in fs.files then Done(fs.files[p]) else Missing)
  }

  function Remove(io: Oracle, fs: Fs, p: Path): (Fs, bool) {
    if io(fs.tick).Broken? || p !in fs.files then (Tick(fs), false)
    else (Fs(fs.files - {p}, fs.tick + 1), true)
  }

  function Write(io: Oracle, fs: Fs, p: Path, bytes: Bytes): (Fs, bool) {
    match io(fs.tick)
    case Fine => (Fs(fs.files[p := bytes], fs.tick + 1), true)
    case Broken(None) => (Tick(fs), false)
    case Broken(Some(part)) => (Fs(fs.files[p := part], fs.tick + 1), false)
  }

  function Rename(io: Oracle, fs: Fs, a: Path, b: Path): (Fs, bool) {
    if io(fs.tick).Broken? || a !in fs.files then (Tick(fs), false)
    else (Fs((fs.files - {a})[b := fs.files[a]], fs.tick + 1), true)
  }

  /** `Path::exists` answers no when the metadata call breaks. */
  function Exists(io: Oracle, fs: Fs, p: Path): (Fs, bool) {
    (Tick(fs), io(fs.tick).Fine? && p in fs.files)
  }

  /** A call with no effect on the tree: a directory creation, a link check. */
  function Probe(io: Oracle, fs: Fs): (Fs, bool) {
    (Tick(fs), io(fs.tick).Fine?)
  }

  /** The tree as a class whose methods change it in place. */
  class Disk {
    var files: Files
    var tick: nat
    const io: Oracle

    function State(): Fs reads this { Fs(files, tick) }

    constructor (files: Files, io: Oracle)
      ensures this.files == files && tick == 0 && this.io == io
    {
      this.files := files;
      this.tick := 0;
      this.io := io;
    }

    method ReadFile(p: Path) returns (r: Outcome<Bytes>)
      modifies this
      ensures (State(), r) == Read(io, old(State()), p)
    {
      if io(tick).Broken? { r := Failed; }
      else if p in files { r := Done(files[p]); }
      else { r := Missing; }
      tick := tick + 1;
    }

    method RemoveFile(p: Path) returns (ok: bool)
      modifies this
      ensures (State(), ok) == Remove(io, old(State()), p)
    {
      ok := io(tick).Fine? && p in files;
      if ok { files := files - {p}; }
      tick := tick + 1;
    }

    method WriteFile(p: Path, bytes: Bytes) returns (ok: bool)
      modifies this
      ensures (State(), ok) == Write(io, old(State()), p, bytes)
    {
      ok := io(tick).Fine?;
      if ok { files := files[p := bytes]; }
      else if io(tick).residue.Some? { files := files[p := io(tick).residue.value]; }
      tick := tick + 1;
    }

    method RenameFile(a: Path, b: Path) returns (ok: bool)
      modifies this
      ensures (State(), ok) == Rename(io, old(State()), a, b)
    {
      ok := io(tick).Fine? && a in files;
      if ok {
        var bytes := files[a];
        files := files - {a};
        files := files[b := bytes];
      }
      tick := tick + 1;
    }

    method FileExists(p: Path) returns (yes: bool)
      modifies this
      ensures (State(), yes) == Exists(io, old(State()), p)
    {
      yes := io(tick).Fine? && p in files;
      tick := tick + 1;
    }

    method ProbeFile() returns (ok: bool)
      modifies this
      ensures (State(), ok) == Probe(io, old(State()))
    {
      ok := io(tick).Fine?;
      tick := tick + 1;
    }

    /** `write_restore_bytes_atomically`: stage in the same directory, then rename. */
    method WriteAtomically(target: Path, sequence: nat, bytes: Bytes) returns (ok: bool)
      modifies this
      ensures (State(), ok) == AtomicWrite(io, old(State()), target, sequence, bytes)
    {
      if target == [] { return false; }
      ok := ProbeFile();
      if !ok { return; }
      var temp := TempPath(target, sequence);
      var stale := FileExists(temp);
      if stale {
        ok := RemoveFile(temp);
        if !ok { return; }
      }
      ok := WriteFile(temp, bytes);
      if !ok { return; }
      ok := RenameFile(temp, target);
      if !ok {
        var _ := RemoveFile(temp);
      }
    }

    /** `replace_restore_target_atomically`: the old file goes before the rename. */
    method ReplaceAtomically(target: Path, sequence: nat, bytes: Bytes) returns (r: ReplaceOutcome)
      modifies this
      ensures (State(), r) == AtomicReplace(io, old(State()), target, sequence, bytes)
    {
      if target == [] { return NotReplaced(false); }
      var temp := TempPath(target, sequence);
      var ok: bool;
      var stale := FileExists(temp);
      if stale {
        ok := RemoveFile(temp);
        if !ok { return NotReplaced(false); }
      }
      ok := WriteFile(temp, bytes);
      if !ok { return NotReplaced(false); }
      ok := RemoveFile(target);
      if !ok { return NotReplaced(false); }
      ok := RenameFile(temp, target);
      if ok { return Replaced; }
      var _ := RemoveFile(temp);
      return NotReplaced(true);
    }
  }

  // ---------------------------------------------------------------- staging protocols

  /** A stale staging file is removed first. */
  function ClearStale(io: Oracle, fs: Fs, temp: Path): (Fs, bool) {
    var (fs1, stale) := Exists(io, fs, temp);
    if stale then Remove(io, fs1, temp) else (fs1, true)
  }

  function AtomicWrite(io: Oracle, fs: Fs, target: Path, sequence: nat, bytes: Bytes): (Fs, bool) {
    if target == [] then (fs, false) else
    var (fs1, made) := Probe(io, fs);
    if !made then (fs1, false) else
    var temp := TempPath(target, sequence);
    var (fs2, cleared) := ClearStale(io, fs1, temp);
    if !cleared then (fs2, false) else
    var (fs3, written) := Write(io, fs2, temp, bytes);
    if !written then (fs3, false) else
    var (fs4, renamed) := Rename(io, fs3, temp, target);
    if renamed then (fs4, true) else (Remove(io, fs4, temp).0, false)
  }

  /** `mutationExecuted` says that the old file is gone. */
  datatype ReplaceOutcome = Replaced | NotReplaced(mutationExecuted: bool)

  function AtomicReplace(io: Oracle, fs: Fs, target: Path, sequence: nat, bytes: Bytes): (Fs, ReplaceOutcome) {
    if target == [] then (fs, NotReplaced(false)) else
    var temp := TempPath(target, sequence);
    var (fs1, cleared) := ClearStale(io, fs, temp);
    if !cleared then (fs1, NotReplaced(false)) else
    var (fs2, written) := Write(io, fs1, temp, bytes);
    if !written then (fs2, NotReplaced(false)) else
    var (fs3, removed) := Remove(io, fs2, target);
    if !removed then (fs3, NotReplaced(false)) else
    var (fs4, renamed) := Rename(io, fs3, temp, target);
    if renamed then (fs4, Replaced) else (Remove(io, fs4, temp).0, NotReplaced(true))
  }

  // ---------------------------------------------------------------- what a user sees

  /** The tree without staging files. */
  ghost function Visible(files: Files): Files {
    map p | p in files && !IsTemp(p) :: files[p]
  }

  /** Calls on a staging file change nothing visible. */
  lemma StagingInvisible(io: Oracle, fs: Fs, temp: Path, bytes: Bytes)
    requires IsTemp(temp)
    ensures Visible(Remove(io, fs, temp).0.files) == Visible(fs.files)
    ensures Visible(ClearStale(io, fs, temp).0.files) == Visible(fs.files)
    ensures Visible(Write(io, fs, temp, bytes).0.files) == Visible(fs.files)
    ensures Write(io, fs, temp, bytes).1 ==>
      var files := Write(io, fs, temp, bytes).0.files; temp in files && files[temp] == bytes
  {
  }

  lemma RenameShows(io: Oracle, fs: Fs, temp: Path, target: Path)
    requires IsTemp(temp) && !IsTemp(target)
    ensures var (fs', ok) := Rename(io, fs, temp, target);
      && (ok ==> temp in fs.files && Visible(fs'.files) == Visible(fs.files)[target := fs.files[temp]])
      && (!ok ==> Visible(fs'.files) == Visible(fs.files))
  {
    var (fs', ok) := Rename(io, fs, temp, target);
    if ok {
      assert Visible(fs'.files) == Visible(fs.files)[target := fs.files[temp]];
    }
  }

  lemma RemoveShows(io: Oracle, fs: Fs, target: Path)
    requires !IsTemp(target)
    ensures var (fs', ok) := Remove(io, fs, target);
      Visible(fs'.files) == if ok then Visible(fs.files) - {target} else Visible(fs.files)
  {
    var (fs', ok) := Remove(io, fs, target);
    if ok {
      assert Visible(fs'.files) == Visible(fs.files) - {target};
    }
  }

  lemma PutAfterRemove(v: Files, p: Path, bytes: Bytes)
    ensures (v - {p})[p := bytes] == v[p := bytes]
  {
  }

  /** An atomic write either puts exactly the bytes in place or changes nothing visible. */
  lemma AtomicWriteEffect(io: Oracle, fs: Fs, target: Path, sequence: nat, bytes: Bytes)
    requires !IsTemp(target)
    ensures var (fs', ok) := AtomicWrite(io, fs, target, sequence, bytes);
      Visible(fs'.files) == if ok then Visible(fs.files)[target := bytes] else Visible(fs.files)
  {
    if target != [] {
      hide IsTemp, Visible, TempPath;
      var temp := TempPath(target, sequence);
      TempPathIsTemp(target, sequence);
      var fs1 := Probe(io, fs).0;
      StagingInvisible(io, fs1, temp, bytes);
      var fs2 := ClearStale(io, fs1, temp).0;
      StagingInvisible(io, fs2, temp, bytes);
      var fs3 := Write(io, fs2, temp, bytes).0;
      RenameShows(io, fs3, temp, target);
      StagingInvisible(io, Rename(io, fs3, temp, target).0, temp, bytes);
    }
  }

  /** A replace puts the bytes in place, changes nothing visible, or loses the old file; it loses
      the file exactly when it reports so. */
  lemma AtomicReplaceEffect(io: Oracle, fs: Fs, target: Path, sequence: nat, bytes: Bytes)
    requires !IsTemp(target)
    ensures var (fs', r) := AtomicReplace(io, fs, target, sequence, bytes);
      Visible(fs'.files) ==
        match r
        case Replaced => Visible(fs.files)[target := bytes]
        case NotReplaced(true) => Visible(fs.files) - {target}
        case NotReplaced(false) => Visible(fs.files)
  {
    if target != [] {
      hide IsTemp, Visible, TempPath;
      var temp := TempPath(target, sequence);
      TempPathIsTemp(target, sequence);
      StagingInvisible(io, fs, temp, bytes);
      var fs1 := ClearStale(io, fs, temp).0;
      StagingInvisible(io, fs1, temp, bytes);
      var fs2 := Write(io, fs1, temp, bytes).0;
      RemoveShows(io, fs2, target);
      var fs3 := Remove(io, fs2, target).0;
      RenameShows(io, fs3, temp, target);
      StagingInvisible(io, Rename(io, fs3, temp, target).0, temp, bytes);
      PutAfterRemove(Visible(fs.files), target, bytes);
    }
  }

  /**
   * A staging file that was not there before stays behind only after a broken write, or after a broken rename whose
   * clean-up broke too; after a success it never does.
   */
  lemma WriteLeavesNoStaging(io: Oracle, fs: Fs, target: Path, sequence: nat, bytes: Bytes)
    requires target != [] && TempPath(target, sequence) != target && TempPath(target, sequence) !in fs.files
    ensures var (fs', ok) := AtomicWrite(io, fs, target, sequence, bytes);
      TempPath(target, sequence) in fs'.files ==>
        !ok && (io(fs.tick + 2).Broken? || (io(fs.tick + 3).Broken? && io(fs.tick + 4).Broken?))
  {
    hide TempPath;
  }

  /** The same for a replace, where it also stays behind if the old file cannot be removed. */
  lemma ReplaceLeavesNoStaging(io: Oracle, fs: Fs, target: Path, sequence: nat, bytes: Bytes)
    requires target != [] && TempPath(target, sequence) != target && TempPath(target, sequence) !in fs.files
    ensures var (fs', r) := AtomicReplace(io, fs, target, sequence, bytes);
      TempPath(target, sequence) in fs'.files ==>
        && !r.Replaced?
        && (|| io(fs.tick + 1).Broken? || io(fs.tick + 2).Broken? || target !in fs.files
            || (io(fs.tick + 3).Broken? && io(fs.tick + 4).Broken?))
  {
    hide TempPath;
  }

  ghost predicate NeverBreaks(io: Oracle) {
    forall n: nat :: io(n).Fine?
  }

  /** Without I/O failure an atomic write of a real target succeeds. */
  lemma AtomicWriteSucceeds(io: Oracle, fs: Fs, target: Path, sequence: nat, bytes: Bytes)
    requires NeverBreaks(io) && target != []
    ensures AtomicWrite(io, fs, target, sequence, bytes).1
  {
  }
}
