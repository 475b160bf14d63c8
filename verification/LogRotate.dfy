// The size-based log rotator over a directory of files (internal/service/logrotate.go).
module LogRotation {
  import opened Basics

  // path, and path.1, path.2, ...
  datatype Name = Current | Rotated(i: int)

  type Directory = map<Name, Bytes>

  // ---------- the log as a list of files ----------

  // The current file, and the rotated ones, newest first.
  datatype Log = Log(current: Bytes, rotated: seq<Bytes>)

  // Renaming to .1 always keeps one old file, whatever the limit says.
  function Limit(maxFiles: int): nat {
    if maxFiles < 1 then 1 else maxFiles
  }

  function Truncate(files: seq<Bytes>, n: nat): seq<Bytes> {
    if |files| <= n then files else files[..n]
  }

  function Rotate(log: Log, maxFiles: int): Log {
    Log([], Truncate([log.current] + log.rotated, Limit(maxFiles)))
  }

  function Append(log: Log, p: Bytes, maxSize: int, maxFiles: int): Log {
    var l := if |log.current| + |p| > maxSize then Rotate(log, maxFiles) else log;
    l.(current := l.current + p)
  }

  // The directory holds exactly the files of the log, under their names.
  ghost predicate Holds(dir: Directory, log: Log) {
    && Current in dir && dir[Current] == log.current
    && (forall name :: name in dir ==> name == Current || 1 <= name.i <= |log.rotated|)
    && (forall j :: 1 <= j <= |log.rotated| ==> Rotated(j) in dir && dir[Rotated(j)] == log.rotated[j - 1])
  }

  function AppendAll(writes: seq<Bytes>, maxSize: int, maxFiles: int): Log {
    if writes == [] then Log([], [])
    else Append(AppendAll(writes[..|writes| - 1], maxSize, maxFiles), writes[|writes| - 1], maxSize, maxFiles)
  }

  function OldestFirst(files: seq<Bytes>): (r: seq<Bytes>)
    ensures |r| == |files|
  {
    seq(|files|, i requires 0 <= i < |files| => files[|files| - 1 - i])
  }

  function Joined(files: seq<Bytes>): Bytes {
    Concat(OldestFirst(files))
  }

  function Contents(log: Log): Bytes {
    Joined(log.rotated) + log.current
  }

  predicate IsSuffix(s: Bytes, t: Bytes) {
    |s| <= |t| && s == t[|t| - |s|..]
  }

  // ---------- what any sequence of writes keeps ----------

  lemma SuffixExtends(s: Bytes, t: Bytes, p: Bytes)
    requires IsSuffix(s, t)
    ensures IsSuffix(s + p, t + p)
  {
  }

  lemma SuffixTrans(s: Bytes, t: Bytes, u: Bytes)
    requires IsSuffix(s, t) && IsSuffix(t, u)
    ensures IsSuffix(s, u)
  {
  }

  lemma JoinedStep(newest: Bytes, files: seq<Bytes>)
    ensures Joined([newest] + files) == Joined(files) + newest
  {
    assert OldestFirst([newest] + files) == OldestFirst(files) + [newest];
    ConcatNext(OldestFirst(files), newest);
  }

  // Dropping old files leaves a suffix of the contents.
  lemma {:induction false} JoinedTruncate(files: seq<Bytes>, n: nat)
    ensures IsSuffix(Joined(Truncate(files, n)), Joined(files))
  {
    if |files| > n > 0 {
      JoinedTruncate(files[1..], n - 1);
      assert Truncate(files, n) == [files[0]] + Truncate(files[1..], n - 1);
      assert files == [files[0]] + files[1..];
      JoinedStep(files[0], Truncate(files[1..], n - 1));
      JoinedStep(files[0], files[1..]);
      SuffixExtends(Joined(Truncate(files[1..], n - 1)), Joined(files[1..]), files[0]);
    }
  }

  lemma RotateKeepsSuffix(log: Log, maxFiles: int)
    ensures IsSuffix(Contents(Rotate(log, maxFiles)), Contents(log))
  {
    var files := [log.current] + log.rotated;
    JoinedTruncate(files, Limit(maxFiles));
    JoinedStep(log.current, log.rotated);
    assert Contents(Rotate(log, maxFiles)) == Joined(Truncate(files, Limit(maxFiles)));
  }

  // The files on disk, oldest to newest, are always the end of everything written.
  lemma {:induction false} DiskIsSuffix(writes: seq<Bytes>, maxSize: int, maxFiles: int)
    ensures IsSuffix(Contents(AppendAll(writes, maxSize, maxFiles)), Concat(writes))
  {
    if writes != [] {
      var before, p := writes[..|writes| - 1], writes[|writes| - 1];
      var log := AppendAll(before, maxSize, maxFiles);
      DiskIsSuffix(before, maxSize, maxFiles);
      RotateKeepsSuffix(log, maxFiles);
      var l := if |log.current| + |p| > maxSize then Rotate(log, maxFiles) else log;
      SuffixTrans(Contents(l), Contents(log), Concat(before));
      SuffixExtends(Contents(l), Concat(before), p);
      assert Contents(l.(current := l.current + p)) == Contents(l) + p;
    }
  }

  // A file is within the limit, or untouched, or holds one single write.
  predicate FileFits(f: Bytes, writes: seq<Bytes>, maxSize: int) {
    |f| <= maxSize || f == [] || f in writes
  }

  predicate FilesFit(log: Log, writes: seq<Bytes>, maxSize: int) {
    FileFits(log.current, writes, maxSize) && forall f :: f in log.rotated ==> FileFits(f, writes, maxSize)
  }

  lemma AppendFits(log: Log, before: seq<Bytes>, p: Bytes, maxSize: int, maxFiles: int)
    requires FilesFit(log, before, maxSize)
    ensures FilesFit(Append(log, p, maxSize, maxFiles), before + [p], maxSize)
  {
    assert p in before + [p];
    forall f | FileFits(f, before, maxSize) ensures FileFits(f, before + [p], maxSize) {
    }
    if |log.current| + |p| > maxSize {
      assert Append(log, p, maxSize, maxFiles).current == p;
      forall f | f in Rotate(log, maxFiles).rotated ensures FileFits(f, before + [p], maxSize) {
        assert f in [log.current] + log.rotated;
      }
    }
  }

  lemma {:induction false} FilesBounded(writes: seq<Bytes>, maxSize: int, maxFiles: int)
    ensures FilesFit(AppendAll(writes, maxSize, maxFiles), writes, maxSize)
    ensures var rotated := AppendAll(writes, maxSize, maxFiles).rotated; |rotated| <= maxFiles || |rotated| <= 1
  {
    if writes != [] {
      var before, p := writes[..|writes| - 1], writes[|writes| - 1];
      FilesBounded(before, maxSize, maxFiles);
      AppendFits(AppendAll(before, maxSize, maxFiles), before, p, maxSize, maxFiles);
      assert before + [p] == writes;
    }
  }

  // While there is still room for another rotated file nothing has been lost.
  lemma {:induction false} NothingLostYet(writes: seq<Bytes>, maxSize: int, maxFiles: int)
    requires var rotated := AppendAll(writes, maxSize, maxFiles).rotated; |rotated| < maxFiles || rotated == []
    ensures Contents(AppendAll(writes, maxSize, maxFiles)) == Concat(writes)
  {
    if writes != [] {
      var before, p := writes[..|writes| - 1], writes[|writes| - 1];
      var log := AppendAll(before, maxSize, maxFiles);
      var files := [log.current] + log.rotated;
      NothingLostYet(before, maxSize, maxFiles);
      JoinedStep(log.current, log.rotated);
    }
  }

  // A file is only begun when its first write would not fit into the one before, so two
  // neighbours together always exceed the limit.
  predicate NeighboursExceed(files: seq<Bytes>, maxSize: int) {
    forall i :: 0 <= i < |files| - 1 ==> |files[i]| + |files[i + 1]| > maxSize
  }

  lemma AppendExceeds(log: Log, p: Bytes, maxSize: int, maxFiles: int)
    requires NeighboursExceed([log.current] + log.rotated, maxSize)
    ensures var l := Append(log, p, maxSize, maxFiles); NeighboursExceed([l.current] + l.rotated, maxSize)
  {
    var files := [log.current] + log.rotated;
    var l := Append(log, p, maxSize, maxFiles);
    var files' := [l.current] + l.rotated;
    if |log.current| + |p| > maxSize {
      assert [] + p == p;
      assert files' == [p] + Truncate(files, Limit(maxFiles));
      forall i | 0 <= i < |files'| - 1 ensures |files'[i]| + |files'[i + 1]| > maxSize {
        if i > 0 {
          assert files'[i] == files[i - 1] && files'[i + 1] == files[i];
        }
      }
    } else {
      forall i | 0 <= i < |files'| - 1 ensures |files'[i]| + |files'[i + 1]| > maxSize {
        assert |files'[i]| >= |files[i]| && files'[i + 1] == files[i + 1];
      }
    }
  }

  lemma {:induction false} NeighboursAlwaysExceed(writes: seq<Bytes>, maxSize: int, maxFiles: int)
    ensures var log := AppendAll(writes, maxSize, maxFiles); NeighboursExceed([log.current] + log.rotated, maxSize)
  {
    if writes != [] {
      var before := writes[..|writes| - 1];
      NeighboursAlwaysExceed(before, maxSize, maxFiles);
      AppendExceeds(AppendAll(before, maxSize, maxFiles), writes[|writes| - 1], maxSize, maxFiles);
    }
  }

  lemma {:induction false} NeighboursTotal(files: seq<Bytes>, maxSize: int)
    requires NeighboursExceed(files, maxSize)
    ensures |Joined(files)| >= (|files| / 2) * (maxSize + 1)
  {
    if |files| >= 2 {
      var rest := files[2..];
      NeighboursTotal(rest, maxSize);
      assert files == [files[0]] + ([files[1]] + rest);
      JoinedStep(files[0], [files[1]] + rest);
      JoinedStep(files[1], rest);
      assert |files| / 2 == |rest| / 2 + 1;
      assert (|rest| / 2 + 1) * (maxSize + 1) == (|rest| / 2) * (maxSize + 1) + (maxSize + 1);
    }
  }

  // Either everything written is still there, or at least the last
  // (maxFiles + 1) / 2 * (maxSize + 1) bytes of it are.
  lemma Retention(writes: seq<Bytes>, maxSize: int, maxFiles: int)
    ensures var kept := Contents(AppendAll(writes, maxSize, maxFiles));
      && IsSuffix(kept, Concat(writes))
      && (kept == Concat(writes) || |kept| >= ((if maxFiles < 1 then 1 else maxFiles) + 1) / 2 * (maxSize + 1))
  {
    hide AppendAll, IsSuffix, Concat, FilesFit, Joined, NeighboursExceed;
    var log := AppendAll(writes, maxSize, maxFiles);
    DiskIsSuffix(writes, maxSize, maxFiles);
    FilesBounded(writes, maxSize, maxFiles);
    if |log.rotated| < Limit(maxFiles) {
      NothingLostYet(writes, maxSize, maxFiles);
    } else {
      NeighboursAlwaysExceed(writes, maxSize, maxFiles);
      NeighboursTotal([log.current] + log.rotated, maxSize);
      assert |[log.current] + log.rotated| == Limit(maxFiles) + 1;
      JoinedStep(log.current, log.rotated);
    }
  }

  // "Keeping at most maxFiles old files" holds of every history exactly when the limit
  // is at least one; below that the first rotation already breaks it.
  lemma AtMostMaxFiles(maxSize: int, maxFiles: int)
    ensures (forall writes :: |AppendAll(writes, maxSize, maxFiles).rotated| <= maxFiles) <==> maxFiles >= 1
  {
    if maxFiles >= 1 {
      forall writes ensures |AppendAll(writes, maxSize, maxFiles).rotated| <= maxFiles {
        FilesBounded(writes, maxSize, maxFiles);
      }
    } else {
      var big: Bytes := seq(if maxSize < 0 then 0 else maxSize + 1, _ => 0);
      assert [big][..0] == [];
      assert |AppendAll([big], maxSize, maxFiles).rotated| == 1;
    }
  }

  // ---------- the writer ----------

  class RotatingWriter {
    const maxSize: int
    const maxFiles: int
    var dir: Directory
    var size: int
    ghost var log: Log

    ghost predicate Valid()
      reads this
    {
      Holds(dir, log) && size == |log.current| && |log.rotated| <= Limit(maxFiles)
    }

    // Starting in an empty directory.
    constructor (maxSize: int, maxFiles: int)
      ensures Valid() && log == Log([], []) && this.maxSize == maxSize && this.maxFiles == maxFiles
    {
      this.maxSize, this.maxFiles := maxSize, maxFiles;
      dir, size := map[Current := []], 0;
      log := Log([], []);
    }

    method Remove(n: Name)
      modifies `dir
      ensures dir == old(dir) - {n}
    {
      dir := dir - {n};
    }

    // A missing source leaves the directory as it is.
    method Rename(src: Name, dst: Name)
      requires src != dst
      modifies `dir
      ensures dir == if src in old(dir) then (old(dir) - {src})[dst := old(dir)[src]] else old(dir)
    {
      if src in dir {
        dir := (dir - {src})[dst := dir[src]];
      }
    }

    method OpenFile()
      modifies `dir, `size
      ensures dir == if Current in old(dir) then old(dir) else old(dir)[Current := []]
      ensures Current in dir && size == |dir[Current]|
    {
      if Current !in dir {
        dir := dir[Current := []];
      }
      size := |dir[Current]|;
    }

    // Shift .1, .2, ... up by one, highest first; the oldest has been removed.
    method ShiftUp(ghost dir0: Directory, ghost n: nat)
      requires maxFiles >= 1 && Shifting(dir, dir0, maxFiles - 1, n, maxFiles)
      modifies `dir
      ensures Shifting(dir, dir0, 0, n, maxFiles)
    {
      var i := maxFiles - 1;
      while i >= 1
        invariant i >= 0 && Shifting(dir, dir0, i, n, maxFiles)
      {
        ghost var before := dir;
        assert Stayed(before, dir0, i, n);
        Rename(Rotated(i), Rotated(i + 1));
        forall j | 1 <= j <= i - 1 ensures Stayed(dir, dir0, j, n) {
          assert Stayed(before, dir0, j, n);
        }
        forall j | i + 1 <= j <= maxFiles ensures Moved(dir, dir0, j, n) {
          assert j > i + 1 ==> Moved(before, dir0, j, n);
        }
        i := i - 1;
      }
    }

    // Files above i + 1 have moved up by one; file i + 1 is free.
    ghost predicate Shifting(dir: Directory, dir0: Directory, i: int, n: nat, m: int) {
      && Current in dir && Current in dir0 && dir[Current] == dir0[Current]
      && (forall name :: name in dir ==> name == Current || (name.i != i + 1 && 1 <= name.i <= m))
      && (forall j :: 1 <= j <= i ==> Stayed(dir, dir0, j, n))
      && (forall j :: i + 2 <= j <= m ==> Moved(dir, dir0, j, n))
    }

    ghost predicate Stayed(dir: Directory, dir0: Directory, j: int, n: nat) {
      && (Rotated(j) in dir <==> j <= n)
      && (Rotated(j) in dir ==> Rotated(j) in dir0 && dir[Rotated(j)] == dir0[Rotated(j)])
    }

    // File `j` is what file `j - 1` used to be, if there was one.
    ghost predicate Moved(dir: Directory, dir0: Directory, j: int, n: nat) {
      && (Rotated(j) in dir <==> j - 1 <= n)
      && (Rotated(j) in dir ==> Rotated(j - 1) in dir0 && dir[Rotated(j)] == dir0[Rotated(j - 1)])
    }

    method DoRotate()
      requires Valid()
      modifies this
      ensures Valid() && log == Rotate(old(log), maxFiles)
    {
      hide Holds, Shifting, Rotate;
      ghost var dir0, log0 := dir, log;
      FileNames(dir, log);
      Remove(Rotated(maxFiles));
      if maxFiles >= 1 {
        ShiftBegins(dir0, log0, dir);
        ShiftUp(dir0, |log0.rotated|);
        ShiftEnds(dir0, dir, |log0.rotated|);
      }
      ghost var shifted := dir;
      Rename(Current, Rotated(1));
      log := Rotate(log, maxFiles);
      OpenFile();
      if maxFiles >= 1 {
        ShiftedHolds(dir0, log0, shifted, dir);
      } else {
        ReplacedHolds(dir0, log0, shifted, dir);
      }
    }

    lemma FileNames(dir: Directory, log: Log)
      requires Holds(dir, log)
      ensures Current in dir && dir[Current] == log.current
    {
    }

    lemma ShiftBegins(dir0: Directory, log0: Log, dir: Directory)
      requires maxFiles >= 1 && Holds(dir0, log0) && |log0.rotated| <= maxFiles && dir == dir0 - {Rotated(maxFiles)}
      ensures Shifting(dir, dir0, maxFiles - 1, |log0.rotated|, maxFiles)
    {
      forall j | 1 <= j <= maxFiles - 1 ensures Stayed(dir, dir0, j, |log0.rotated|) {
        assert Rotated(j) in dir ==> Rotated(j) in dir0;
      }
    }

    lemma ShiftEnds(dir0: Directory, dir: Directory, n: nat)
      requires Shifting(dir, dir0, 0, n, maxFiles)
      ensures Current in dir && Current in dir0 && dir[Current] == dir0[Current]
    {
    }

    // Without a limit of at least one the only old file is replaced.
    lemma ReplacedHolds(dir0: Directory, log0: Log, shifted: Directory, dir: Directory)
      requires maxFiles < 1 && Holds(dir0, log0) && |log0.rotated| <= 1
      requires shifted == dir0 - {Rotated(maxFiles)}
      requires dir == (shifted - {Current})[Rotated(1) := log0.current][Current := []]
      ensures Holds(dir, Rotate(log0, maxFiles)) && |Rotate(log0, maxFiles).rotated| <= 1
      ensures Rotate(log0, maxFiles).current == []
    {
      assert Rotate(log0, maxFiles) == Log([], [log0.current]);
    }

    lemma ShiftedHolds(dir0: Directory, log0: Log, shifted: Directory, dir: Directory)
      requires maxFiles >= 1 && Holds(dir0, log0) && |log0.rotated| <= maxFiles
      requires Shifting(shifted, dir0, 0, |log0.rotated|, maxFiles)
      requires dir == (shifted - {Current})[Rotated(1) := log0.current][Current := []]
      ensures Holds(dir, Rotate(log0, maxFiles)) && |Rotate(log0, maxFiles).rotated| <= maxFiles
      ensures Rotate(log0, maxFiles).current == []
    {
      var log := Rotate(log0, maxFiles);
      forall j | 1 <= j <= |log.rotated| ensures Rotated(j) in dir && dir[Rotated(j)] == log.rotated[j - 1] {
        if j >= 2 {
          assert Moved(shifted, dir0, j, |log0.rotated|);
        }
      }
      forall name | name in dir ensures name == Current || 1 <= name.i <= |log.rotated| {
        if name != Current && name.i >= 2 {
          assert Moved(shifted, dir0, name.i, |log0.rotated|);
        }
      }
    }

    method Write(p: Bytes) returns (n: nat)
      requires Valid()
      modifies this
      ensures Valid() && n == |p|
      ensures log == Append(old(log), p, maxSize, maxFiles)
    {
      if size + |p| > maxSize {
        DoRotate();
      }
      n := |p|;
      dir := dir[Current := dir[Current] + p];
      size := size + n;
      log := log.(current := log.current + p);
    }
  }

  // After any writes into an empty directory, the directory is the log the
  // specification tells.
  method WriteAllTo(w: RotatingWriter, writes: seq<Bytes>)
    requires w.Valid() && w.log == Log([], [])
    modifies w
    ensures w.Valid() && Holds(w.dir, AppendAll(writes, w.maxSize, w.maxFiles))
    ensures IsSuffix(Contents(w.log), Concat(writes)) && FilesFit(w.log, writes, w.maxSize)
    ensures |w.log.rotated| <= w.maxFiles || |w.log.rotated| <= 1
  {
    for i := 0 to |writes|
      invariant w.Valid() && w.log == AppendAll(writes[..i], w.maxSize, w.maxFiles)
    {
      var _ := w.Write(writes[i]);
      assert writes[..i + 1][..i] == writes[..i];
    }
    assert writes[..|writes|] == writes;
    DiskIsSuffix(writes, w.maxSize, w.maxFiles);
    FilesBounded(writes, w.maxSize, w.maxFiles);
  }
}
