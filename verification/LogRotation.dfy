/** The size-bounded log files (internal/VirtualRouterServer/log_capture.go,
    lines 133-223), with every file operation succeeding. */
module LogRotation {
  import opened Basics

  /** The files on disk, newest first: base, base.1, base.2, ... */
  type Files = seq<Bytes>

  // ---------------------------------------------------------------------
  // What the operations do to the files

  function Rotated(fs: Files, maxFiles: nat): Files
    requires maxFiles >= 1
  {
    [[]] + fs[..Min(|fs|, maxFiles - 1)]
  }

  function Written(fs: Files, p: Bytes, maxBytes: nat, maxFiles: nat): Files
    requires fs != [] && maxFiles >= 1
  {
    var gs := if |fs[0]| + |p| > maxBytes then Rotated(fs, maxFiles) else fs;
    gs[0 := gs[0] + p]
  }

  /** The write goes behind the current file, or alone into a new one, with the
      files before it kept up to the limit. */
  lemma WrittenInFull(fs: Files, p: Bytes, maxBytes: nat, maxFiles: nat)
    requires fs != [] && maxFiles >= 1
    ensures |fs[0]| + |p| <= maxBytes ==> Written(fs, p, maxBytes, maxFiles) == [fs[0] + p] + fs[1..]
    ensures |fs[0]| + |p| > maxBytes ==> Written(fs, p, maxBytes, maxFiles) == [p] + fs[..Min(|fs|, maxFiles - 1)]
  {
    assert fs[0 := fs[0] + p] == [fs[0] + p] + fs[1..];
    assert [] + p == p;
    assert Rotated(fs, maxFiles)[0 := p] == [p] + fs[..Min(|fs|, maxFiles - 1)];
  }

  /** The files after a list of writes, from the files that were there when the
      process started. */
  function FilesFrom(start: Files, ps: seq<Bytes>, maxBytes: nat, maxFiles: nat): (fs: Files)
    requires start != [] && maxFiles >= 1
    ensures fs != []
  {
    if ps == [] then start
    else Written(FilesFrom(start, ps[..|ps| - 1], maxBytes, maxFiles), ps[|ps| - 1], maxBytes, maxFiles)
  }

  /** The files after a list of writes into an empty directory. */
  function FilesAfter(ps: seq<Bytes>, maxBytes: nat, maxFiles: nat): (fs: Files)
    requires maxFiles >= 1
    ensures fs != []
  {
    FilesFrom([[]], ps, maxBytes, maxFiles)
  }

  // ---------------------------------------------------------------------
  // The object

  class RotatingFileWriter {
    const maxBytes: nat
    const maxFiles: nat
    /** The directory: 0 is the current file, i is the file with suffix i. */
    var dir: map<nat, Bytes>
    var open: bool
    var currentLen: nat
    ghost var count: nat

    ghost predicate Valid()
      reads this
    {
      && maxFiles >= 2 && 1 <= count <= maxFiles
      && (forall i: nat :: i in dir <==> i < count)
      && (open ==> currentLen == |dir[0]|)
    }

    ghost function View(): (fs: Files)
      requires Valid()
      reads this
      ensures |fs| == count
    {
      seq(count, i requires 0 <= i < count && Valid() reads this => dir[i])
    }

    /** newRotatingFileWriter on a directory with the given files. */
    constructor (maxBytes: int, maxFiles: int, start: Files)
      requires |start| <= if maxFiles < 2 then 5 else maxFiles
      ensures Valid() && View() == (if start == [] then [[]] else start) && open
      ensures this.maxBytes == if maxBytes <= 0 then 20 * 1024 * 1024 else maxBytes
      ensures this.maxFiles == if maxFiles < 2 then 5 else maxFiles
    {
      this.maxBytes := if maxBytes <= 0 then 20 * 1024 * 1024 else maxBytes;
      this.maxFiles := if maxFiles < 2 then 5 else maxFiles;
      dir := map i: nat | i < |start| :: start[i];
      open, currentLen, count := false, 0, if start == [] then 1 else |start|;
      new;
      OpenCurrent();
    }

    method Close()
      requires Valid()
      modifies this`open, this`currentLen
      ensures Valid() && !open && View() == old(View())
    {
      if open {
        open, currentLen := false, 0;
      }
      assert View() == old(View());
    }

    /** Open for appending, creating the file if it is not there. */
    method OpenCurrent()
      modifies this`dir, this`open, this`currentLen
      ensures dir == if 0 in old(dir) then old(dir) else old(dir)[0 := []]
      ensures open && currentLen == |dir[0]|
    {
      if 0 !in dir {
        dir := dir[0 := []];
      }
      open, currentLen := true, |dir[0]|;
    }

    method Rename(src: nat, dst: nat)
      requires src in dir && src != dst
      modifies this`dir
      ensures dir == old(dir)[dst := old(dir)[src]] - {src}
    {
      dir := dir[dst := dir[src]] - {src};
    }

    /** Drop the oldest file and rename each other one up by one, from the top. */
    method ShiftFiles(ghost kept: nat)
      requires Valid() && kept == Min(count, maxFiles - 1)
      modifies this`dir
      ensures forall j: nat :: j in dir <==> 1 <= j <= kept
      ensures forall j: nat :: 1 <= j <= kept ==> dir[j] == old(dir)[j - 1]
    {
      dir := dir - {maxFiles - 1};
      var i := maxFiles - 2;
      while i >= 1
        invariant 0 <= i <= maxFiles - 2
        invariant forall j: nat :: j in dir <==> (j <= i && j < kept) || i + 2 <= j <= kept
        invariant forall j: nat :: j in dir ==> dir[j] == old(dir)[if j <= i then j else j - 1]
      {
        ghost var before := dir;
        if i in dir {
          Rename(i, i + 1);
        }
        assert forall j: nat :: j != i && j != i + 1 ==> (j in dir <==> j in before) && (j in dir ==> dir[j] == before[j]);
        i := i - 1;
      }
      if 0 in dir {
        Rename(0, 1);
      }
    }

    method Rotate()
      requires Valid()
      modifies this
      ensures Valid() && open && View() == Rotated(old(View()), maxFiles)
    {
      ghost var fs := View();
      ghost var kept := Min(count, maxFiles - 1);
      open := false;
      ShiftFiles(kept);
      OpenCurrent();
      count := kept + 1;
      assert View() == [[]] + fs[..kept];
    }

    method Write(p: Bytes)
      requires Valid()
      modifies this
      ensures Valid() && open && View() == Written(old(View()), p, maxBytes, maxFiles)
      ensures |old(View())[0]| + |p| <= maxBytes ==> View() == [old(View())[0] + p] + old(View())[1..]
      ensures |old(View())[0]| + |p| > maxBytes ==> View() == [p] + old(View())[..Min(|old(View())|, maxFiles - 1)]
    {
      ghost var fs := View();
      if !open {
        OpenCurrent();
        assert View() == fs;
      }
      if currentLen + |p| > maxBytes {
        Rotate();
      }
      ghost var gs := View();
      WrittenInFull(fs, p, maxBytes, maxFiles);
      dir := dir[0 := dir[0] + p];
      currentLen := currentLen + |p|;
      assert View() == gs[0 := gs[0] + p];
    }
  }

  // ---------------------------------------------------------------------
  // The same, write by write: which writes each file holds

  type Groups = seq<seq<Bytes>>

  function GroupWritten(gs: Groups, rotates: bool, p: Bytes, maxFiles: nat): (hs: Groups)
    requires gs != [] && maxFiles >= 1
    ensures |hs| == if rotates then 1 + Min(|gs|, maxFiles - 1) else |gs|
  {
    var hs := if rotates then [[]] + gs[..Min(|gs|, maxFiles - 1)] else gs;
    hs[0 := hs[0] + [p]]
  }

  function GroupsAfter(ps: seq<Bytes>, maxBytes: nat, maxFiles: nat): (gs: Groups)
    requires maxFiles >= 1
    ensures |gs| == |FilesAfter(ps, maxBytes, maxFiles)|
  {
    if ps == [] then [[]]
    else
      var before, p := ps[..|ps| - 1], ps[|ps| - 1];
      var gs, fs := GroupsAfter(before, maxBytes, maxFiles), FilesAfter(before, maxBytes, maxFiles);
      GroupWritten(gs, |fs[0]| + |p| > maxBytes, p, maxFiles)
  }

  /** Oldest to newest. */
  function Joined<T>(fs: seq<seq<T>>): seq<T> {
    if fs == [] then [] else Joined(fs[1..]) + fs[0]
  }

  lemma {:induction false} JoinedCut<T>(fs: seq<seq<T>>, k: nat)
    requires k <= |fs|
    ensures |Joined(fs[..k])| <= |Joined(fs)|
    ensures Joined(fs[..k]) == Joined(fs)[|Joined(fs)| - |Joined(fs[..k])|..]
  {
    if k > 0 {
      JoinedCut(fs[1..], k - 1);
      assert fs[..k][1..] == fs[1..][..k - 1];
    } else {
      assert fs[..k] == [];
    }
  }

  lemma JoinedPut<T>(fs: seq<seq<T>>, x: seq<T>)
    requires fs != []
    ensures Joined(fs[0 := fs[0] + x]) == Joined(fs) + x
  {
    assert fs[0 := fs[0] + x][1..] == fs[1..];
  }

  lemma JoinedPush<T>(fs: seq<seq<T>>)
    ensures Joined([[]] + fs) == Joined(fs)
  {
    assert ([[]] + fs)[1..] == fs;
  }

  /** Each file is its writes, one after the other: no write is split. */
  lemma {:induction false} FilesAreGroups(ps: seq<Bytes>, maxBytes: nat, maxFiles: nat, i: nat)
    requires maxFiles >= 1 && i < |FilesAfter(ps, maxBytes, maxFiles)|
    ensures FilesAfter(ps, maxBytes, maxFiles)[i] == Concat(GroupsAfter(ps, maxBytes, maxFiles)[i])
  {
    if ps != [] {
      var before, p := ps[..|ps| - 1], ps[|ps| - 1];
      var fs, gs := FilesAfter(before, maxBytes, maxFiles), GroupsAfter(before, maxBytes, maxFiles);
      var rotates := |fs[0]| + |p| > maxBytes;
      if i > 0 {
        FilesAreGroups(before, maxBytes, maxFiles, if rotates then i - 1 else i);
      } else {
        var g := if rotates then [] else gs[0];
        if !rotates {
          FilesAreGroups(before, maxBytes, maxFiles, 0);
        }
        ConcatSnoc(g, p);
      }
    }
  }

  ghost predicate IsSuffix<T>(a: seq<T>, b: seq<T>) {
    |a| <= |b| && a == b[|b| - |a|..]
  }

  lemma SuffixSnoc<T>(a: seq<T>, b: seq<T>, x: T)
    requires IsSuffix(a, b)
    ensures IsSuffix(a + [x], b + [x])
  {
  }

  lemma SuffixTransitive<T>(a: seq<T>, b: seq<T>, c: seq<T>)
    requires IsSuffix(a, b) && IsSuffix(b, c)
    ensures IsSuffix(a, c)
  {
  }

  /** gs holds the last of the writes made, and all of them while there is room. */
  ghost predicate HoldsRecent(gs: Groups, ps: seq<Bytes>, maxFiles: nat) {
    IsSuffix(Joined(gs), ps) && (|gs| < maxFiles ==> Joined(gs) == ps)
  }

  lemma AppendHoldsRecent(gs: Groups, ps: seq<Bytes>, p: Bytes, maxFiles: nat)
    requires gs != [] && maxFiles >= 1 && HoldsRecent(gs, ps, maxFiles)
    ensures HoldsRecent(GroupWritten(gs, false, p, maxFiles), ps + [p], maxFiles)
  {
    JoinedPut(gs, [p]);
    SuffixSnoc(Joined(gs), ps, p);
  }

  lemma RotateHoldsRecent(gs: Groups, ps: seq<Bytes>, p: Bytes, maxFiles: nat)
    requires gs != [] && maxFiles >= 1 && HoldsRecent(gs, ps, maxFiles)
    ensures HoldsRecent(GroupWritten(gs, true, p, maxFiles), ps + [p], maxFiles)
  {
    var k := Min(|gs|, maxFiles - 1);
    JoinedPut([[]] + gs[..k], [p]);
    JoinedPush(gs[..k]);
    JoinedCut(gs, k);
    if k == |gs| {
      assert gs[..k] == gs;
    }
    SuffixTransitive(Joined(gs[..k]), Joined(gs), ps);
    SuffixSnoc(Joined(gs[..k]), ps, p);
  }

  lemma WriteHoldsRecent(gs: Groups, ps: seq<Bytes>, rotates: bool, p: Bytes, maxFiles: nat)
    requires gs != [] && maxFiles >= 1 && HoldsRecent(gs, ps, maxFiles)
    ensures HoldsRecent(GroupWritten(gs, rotates, p, maxFiles), ps + [p], maxFiles)
  {
    if rotates {
      RotateHoldsRecent(gs, ps, p, maxFiles);
    } else {
      AppendHoldsRecent(gs, ps, p, maxFiles);
    }
  }

  lemma NothingWritten(maxFiles: nat)
    ensures HoldsRecent([[]], [], maxFiles)
  {
    var gs: Groups := [[]];
    assert Joined(gs[1..]) == [];
  }

  lemma OneMoreWrite(before: seq<Bytes>, p: Bytes, maxBytes: nat, maxFiles: nat)
    requires maxFiles >= 1 && HoldsRecent(GroupsAfter(before, maxBytes, maxFiles), before, maxFiles)
    ensures HoldsRecent(GroupsAfter(before + [p], maxBytes, maxFiles), before + [p], maxFiles)
  {
    var gs, fs := GroupsAfter(before, maxBytes, maxFiles), FilesAfter(before, maxBytes, maxFiles);
    assert (before + [p])[..|before|] == before;
    WriteHoldsRecent(gs, before, |fs[0]| + |p| > maxBytes, p, maxFiles);
  }

  /** The writes on disk, oldest first, are the last ones made; and none is
      missing as long as there are fewer files than allowed. */
  lemma {:induction false} GroupsAreRecent(ps: seq<Bytes>, maxBytes: nat, maxFiles: nat)
    requires maxFiles >= 1
    ensures HoldsRecent(GroupsAfter(ps, maxBytes, maxFiles), ps, maxFiles)
  {
    if ps == [] {
      NothingWritten(maxFiles);
    } else {
      var before, p := ps[..|ps| - 1], ps[|ps| - 1];
      assert before + [p] == ps;
      GroupsAreRecent(before, maxBytes, maxFiles);
      OneMoreWrite(before, p, maxBytes, maxFiles);
    }
  }

  // ---------------------------------------------------------------------
  // What is on disk, in bytes

  lemma {:induction false} JoinedConcat(fs: Files, gs: Groups)
    requires |fs| == |gs| && forall i :: 0 <= i < |fs| ==> fs[i] == Concat(gs[i])
    ensures Joined(fs) == Concat(Joined(gs))
  {
    if fs != [] {
      JoinedConcat(fs[1..], gs[1..]);
      ConcatAppend(Joined(gs[1..]), gs[0]);
    }
  }

  lemma FilesJoinWrites(ps: seq<Bytes>, maxBytes: nat, maxFiles: nat)
    requires maxFiles >= 1
    ensures Joined(FilesAfter(ps, maxBytes, maxFiles)) == Concat(Joined(GroupsAfter(ps, maxBytes, maxFiles)))
  {
    var fs, gs := FilesAfter(ps, maxBytes, maxFiles), GroupsAfter(ps, maxBytes, maxFiles);
    forall i | 0 <= i < |fs| ensures fs[i] == Concat(gs[i]) {
      FilesAreGroups(ps, maxBytes, maxFiles, i);
    }
    JoinedConcat(fs, gs);
  }

  lemma ConcatSplit(ps: seq<Bytes>, k: nat)
    requires k <= |ps|
    ensures Concat(ps) == Concat(ps[..k]) + Concat(ps[k..])
  {
    ConcatAppend(ps[..k], ps[k..]);
    assert ps == ps[..k] + ps[k..];
  }

  /** After any writes into an empty directory, the files joined oldest to
      newest are exactly the last so many writes, whole; nothing is lost while
      there is room for another file. */
  lemma RotationKeepsSuffix(ps: seq<Bytes>, maxBytes: nat, maxFiles: nat) returns (lost: nat)
    requires maxFiles >= 2
    ensures lost <= |ps|
    ensures Joined(FilesAfter(ps, maxBytes, maxFiles)) == Concat(ps[lost..])
    ensures Concat(ps) == Concat(ps[..lost]) + Joined(FilesAfter(ps, maxBytes, maxFiles))
    ensures |FilesAfter(ps, maxBytes, maxFiles)| < maxFiles ==> lost == 0
  {
    FilesJoinWrites(ps, maxBytes, maxFiles);
    GroupsAreRecent(ps, maxBytes, maxFiles);
    lost := |ps| - |Joined(GroupsAfter(ps, maxBytes, maxFiles))|;
    ConcatSplit(ps, lost);
  }

  /** Never more than maxFiles files; a file over the limit is one single write
      that was over it by itself; and a file was only left behind because it and
      the one after it together are over the limit. */
  lemma {:induction false} RotationBounds(ps: seq<Bytes>, maxBytes: nat, maxFiles: nat)
    requires maxFiles >= 2
    ensures var fs, gs := FilesAfter(ps, maxBytes, maxFiles), GroupsAfter(ps, maxBytes, maxFiles);
            && 1 <= |fs| <= maxFiles
            && (forall i :: 0 <= i < |fs| ==> |fs[i]| <= maxBytes || |gs[i]| == 1)
            && (forall i :: 0 <= i < |fs| - 1 ==> |fs[i]| + |fs[i + 1]| > maxBytes)
  {
    if ps != [] {
      RotationBounds(ps[..|ps| - 1], maxBytes, maxFiles);
    }
  }

  /** When no single write is over the limit, no file is. */
  lemma FilesWithinLimit(ps: seq<Bytes>, maxBytes: nat, maxFiles: nat, i: nat)
    requires maxFiles >= 2 && i < |FilesAfter(ps, maxBytes, maxFiles)|
    requires forall k :: 0 <= k < |ps| ==> |ps[k]| <= maxBytes
    ensures |FilesAfter(ps, maxBytes, maxFiles)[i]| <= maxBytes
  {
    var fs, gs := FilesAfter(ps, maxBytes, maxFiles), GroupsAfter(ps, maxBytes, maxFiles);
    RotationBounds(ps, maxBytes, maxFiles);
    FilesAreGroups(ps, maxBytes, maxFiles, i);
    GroupsAreRecent(ps, maxBytes, maxFiles);
    if |gs[i]| == 1 {
      JoinedHolds(gs, i);
      assert gs[i][0] in Joined(gs);
      assert gs[i][1..] == [] && Concat(gs[i]) == gs[i][0];
    }
  }

  lemma {:induction false} JoinedHolds<T>(gs: seq<seq<T>>, i: nat)
    requires i < |gs|
    ensures forall x :: x in gs[i] ==> x in Joined(gs)
  {
    if i > 0 {
      JoinedHolds(gs[1..], i - 1);
    }
  }

  lemma {:induction false} PairsAddUp(fs: Files, maxBytes: nat)
    requires forall i :: 0 <= i < |fs| - 1 ==> |fs[i]| + |fs[i + 1]| > maxBytes
    ensures |Joined(fs)| >= |fs| / 2 * (maxBytes + 1)
  {
    if |fs| >= 2 {
      PairsAddUp(fs[2..], maxBytes);
      assert fs[1..][1..] == fs[2..];
      assert |fs| / 2 == |fs[2..]| / 2 + 1;
    }
  }

  /** Rotation only ever loses bytes when more than half of the configured space
      is in use. */
  lemma LossMeansHalfFull(ps: seq<Bytes>, maxBytes: nat, maxFiles: nat)
    requires maxFiles >= 2 && Joined(FilesAfter(ps, maxBytes, maxFiles)) != Concat(ps)
    ensures |Joined(FilesAfter(ps, maxBytes, maxFiles))| > maxFiles / 2 * maxBytes
  {
    var lost := RotationKeepsSuffix(ps, maxBytes, maxFiles);
    RotationBounds(ps, maxBytes, maxFiles);
    assert ps[0..] == ps;
    assert |FilesAfter(ps, maxBytes, maxFiles)| == maxFiles;
    PairsAddUp(FilesAfter(ps, maxBytes, maxFiles), maxBytes);
  }

  // ---------------------------------------------------------------------
  // From any files that were there before

  /** The files hold the end of all bytes, and all of them while there is room. */
  ghost predicate HoldsEnd(fs: Files, all: Bytes, maxFiles: nat) {
    IsSuffix(Joined(fs), all) && (|fs| < maxFiles ==> Joined(fs) == all)
  }

  lemma RotateHoldsEnd(fs: Files, all: Bytes, maxFiles: nat)
    requires 1 <= |fs| <= maxFiles && HoldsEnd(fs, all, maxFiles)
    ensures HoldsEnd(Rotated(fs, maxFiles), all, maxFiles)
  {
    var k := Min(|fs|, maxFiles - 1);
    JoinedPush(fs[..k]);
    JoinedCut(fs, k);
    SuffixTransitive(Joined(fs[..k]), Joined(fs), all);
    if k == |fs| {
      assert fs[..k] == fs;
    }
  }

  lemma AppendHoldsEnd(fs: Files, all: Bytes, p: Bytes, maxFiles: nat)
    requires fs != [] && HoldsEnd(fs, all, maxFiles)
    ensures HoldsEnd(fs[0 := fs[0] + p], all + p, maxFiles)
  {
    JoinedPut(fs, p);
    SuffixAppend(Joined(fs), all, p);
  }

  lemma WriteHoldsEnd(fs: Files, all: Bytes, p: Bytes, maxBytes: nat, maxFiles: nat)
    requires 1 <= |fs| <= maxFiles && HoldsEnd(fs, all, maxFiles)
    ensures var gs := Written(fs, p, maxBytes, maxFiles);
            HoldsEnd(gs, all + p, maxFiles) && |fs| <= |gs| <= maxFiles
  {
    var gs := if |fs[0]| + |p| > maxBytes then Rotated(fs, maxFiles) else fs;
    RotateHoldsEnd(fs, all, maxFiles);
    AppendHoldsEnd(gs, all, p, maxFiles);
  }

  lemma SuffixAppend(a: Bytes, b: Bytes, p: Bytes)
    requires IsSuffix(a, b)
    ensures IsSuffix(a + p, b + p)
  {
  }

  /** A process that starts on files left by an earlier one, written under any
      limits, keeps a suffix of what these held and of what it writes itself,
      and loses nothing while it has fewer files than allowed. */
  lemma {:induction false} RestartKeepsSuffix(start: Files, ps: seq<Bytes>, maxBytes: nat, maxFiles: nat)
    requires 1 <= |start| <= maxFiles
    ensures var fs := FilesFrom(start, ps, maxBytes, maxFiles);
            HoldsEnd(fs, Joined(start) + Concat(ps), maxFiles) && |start| <= |fs| <= maxFiles
  {
    if ps == [] {
      assert Joined(start) + Concat(ps) == Joined(start);
    } else {
      var before, p := ps[..|ps| - 1], ps[|ps| - 1];
      RestartKeepsSuffix(start, before, maxBytes, maxFiles);
      WriteHoldsEnd(FilesFrom(start, before, maxBytes, maxFiles), Joined(start) + Concat(before), p, maxBytes, maxFiles);
      AllWritten(start, before, p);
      assert ps == before + [p];
    }
  }

  lemma AllWritten(start: Files, before: seq<Bytes>, p: Bytes)
    ensures Joined(start) + Concat(before) + p == Joined(start) + Concat(before + [p])
  {
    ConcatSnoc(before, p);
    Associates(Joined(start), Concat(before), p);
  }

  /** And no file is over the limit if none was and no single write is. */
  lemma {:induction false} RestartWithinLimit(start: Files, ps: seq<Bytes>, maxBytes: nat, maxFiles: nat)
    requires 1 <= |start| <= maxFiles
    requires forall f :: f in start ==> |f| <= maxBytes
    requires forall p :: p in ps ==> |p| <= maxBytes
    ensures forall f :: f in FilesFrom(start, ps, maxBytes, maxFiles) ==> |f| <= maxBytes
  {
    if ps != [] {
      RestartWithinLimit(start, ps[..|ps| - 1], maxBytes, maxFiles);
    }
  }
}
