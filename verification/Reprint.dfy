/** The tree reprinted after a patch is the one a fresh scan would print, up to directory ids; and a
    share that has not changed yields an empty patch. */
module Reprint {
  import opened Names
  import opened Trees
  import opened Deltas
  import opened Scan
  import opened Diff

  /** A tree without its directory ids. */
  function Erase(d: Dir): Dir {
    Dir(d.name, 0, d.fid, d.size, d.items, EraseAll(d.dirs), d.files)
  }

  function EraseAll(ds: seq<Dir>): seq<Dir> {
    if ds == [] then [] else [Erase(ds[0])] + EraseAll(ds[1..])
  }

  /** What any scan of a listing has to show, ids aside. */
  function Shape(name: string, fid: nat, n: Node): Dir
    decreases n, 1
  {
    Listed(name, 0, fid, ShapeSubs(n.subs, 0), Numbering(n.files, |n.subs|))
  }

  function ShapeSub(sub: Sub, fid: nat): Dir
    decreases sub, 0
  {
    if sub.entered then Shape(sub.name, fid, sub.node) else Listed(sub.name, 0, fid, [], [])
  }

  function ShapeSubs(subs: seq<Sub>, fid: nat): seq<Dir>
    decreases subs, 0
  {
    if subs == [] then [] else [ShapeSub(subs[0], fid)] + ShapeSubs(subs[1..], fid + 1)
  }

  lemma {:induction false} EraseSizes(ds: seq<Dir>)
    ensures SizesOf(EraseAll(ds)) == SizesOf(ds) && |EraseAll(ds)| == |ds|
    decreases |ds|
  {
    if ds != [] {
      EraseSizes(ds[1..]);
      assert EraseAll(ds)[1..] == EraseAll(ds[1..]);
    }
  }

  lemma {:induction false} EraseListed(name: string, id: nat, fid: nat, dirs: seq<Dir>, files: seq<File>)
    ensures Erase(Listed(name, id, fid, dirs, files)) == Listed(name, 0, fid, EraseAll(dirs), files)
  {
    EraseSizes(dirs);
  }

  // ---------------------------------------------------------------- full scan

  lemma {:induction false} ScanShape(name: string, id: nat, fid: nat, n: Node, next: nat)
    ensures Erase(ScanDir(name, id, fid, n, next).dir) == Shape(name, fid, n)
    decreases n, 1
  {
    var all := ScanSubs(n.subs, next, 0, next + |n.subs|);
    ScanSubsErased(n.subs, next, 0, next + |n.subs|);
    EraseListed(name, id, fid, all.dirs, Numbering(n.files, |n.subs|));
  }

  lemma {:induction false} ScanSubErased(sub: Sub, id: nat, fid: nat, next: nat)
    ensures Erase(ScanSub(sub, id, fid, next).dir) == ShapeSub(sub, fid)
    decreases sub, 0
  {
    if sub.entered {
      assert sub.node < sub;
      ScanShape(sub.name, id, fid, sub.node, next);
    } else {
      EraseListed(sub.name, id, fid, [], []);
    }
  }

  lemma {:induction false} ScanSubsErased(subs: seq<Sub>, id: nat, fid: nat, next: nat)
    ensures EraseAll(ScanSubs(subs, id, fid, next).dirs) == ShapeSubs(subs, fid)
    decreases subs, 0
  {
    if subs != [] {
      var first := ScanSub(subs[0], id, fid, next);
      var rest := ScanSubs(subs[1..], id + 1, fid + 1, first.next).dirs;
      ScanSubErased(subs[0], id, fid, next);
      ScanSubsErased(subs[1..], id + 1, fid + 1, first.next);
      assert ([first.dir] + rest)[1..] == rest;
    }
  }

  // ---------------------------------------------------------------- walk in step

  /** The new subtrees among the marks show what is there. */
  ghost predicate Shows(marks: seq<Mark>, subs: seq<Sub>, fid: nat) {
    if marks == [] then subs == []
    else if marks[0].GoneMark? then Shows(marks[1..], subs, fid)
    else
      && subs != [] && Shows(marks[1..], subs[1..], fid + 1)
      && if marks[0].FreshMark? then Erase(marks[0].dir) == ShapeSub(subs[0], fid)
         else marks[0].was.name == subs[0].name
  }

  lemma {:induction false} MergeShows(olds: seq<Dir>, subs: seq<Sub>, fid: nat, next: nat)
    ensures Shows(Merge(olds, subs, fid, next).marks, subs, fid)
    decreases |olds| + |subs|
  {
    if olds == [] && subs == [] {
    } else if olds != [] && (subs == [] || Less(olds[0].name, subs[0].name)) {
      MergeShows(olds[1..], subs, fid, next);
    } else if olds == [] || olds[0].name != subs[0].name {
      ScanSubErased(subs[0], next, fid, next + 1);
      MergeShows(olds, subs[1..], fid + 1, ScanSub(subs[0], next, fid, next + 1).next);
    } else {
      MergeShows(olds[1..], subs[1..], fid + 1, next);
    }
  }

  lemma {:induction false} DiffDirShape(was: Dir, fid: nat, n: Node, next: nat)
    ensures Erase(DiffDir(was, fid, n, next).delta.dir) == Shape(was.name, fid, n)
    decreases n, 0, 0
  {
    var merged := Merge(was.dirs, n.subs, 0, next);
    MergeShows(was.dirs, n.subs, 0, next);
    DescendShape(merged.marks, n.subs, 0, merged.next);
    var all := Descend(merged.marks, n.subs, 0, merged.next);
    MergeFilesFits(was.files, n.files, |n.subs|);
    EraseListed(was.name, was.id, fid, News(all.ops), Numbering(n.files, |n.subs|));
  }

  lemma {:induction false} DiffSubShape(was: Dir, fid: nat, sub: Sub, next: nat)
    requires was.name == sub.name
    ensures Erase(DiffSub(was, fid, sub, next).delta.dir) == ShapeSub(sub, fid)
    decreases sub, 0, 0
  {
    if sub.entered {
      assert sub.node < sub;
      DiffDirShape(was, fid, sub.node, next);
    } else {
      var merged := Merge(was.dirs, [], 0, next);
      MergeShows(was.dirs, [], 0, next);
      SettledNews(merged.marks);
      MergeFilesFits(was.files, [], 0);
      EraseListed(was.name, was.id, fid, [], []);
    }
  }

  lemma {:induction false} SettledNews(marks: seq<Mark>)
    requires Shows(marks, [], 0)
    ensures News(Settled(marks)) == []
    decreases |marks|
  {
    if marks != [] {
      SettledNews(marks[1..]);
      assert Settled(marks)[1..] == Settled(marks[1..]);
    }
  }

  lemma {:induction false} DescendShape(marks: seq<Mark>, subs: seq<Sub>, fid: nat, next: nat)
    requires Shows(marks, subs, fid)
    ensures EraseAll(News(Descend(marks, subs, fid, next).ops)) == ShapeSubs(subs, fid)
    decreases subs, |marks|, 1
  {
    if marks != [] {
      var ops := Descend(marks, subs, fid, next).ops;
      if marks[0].GoneMark? {
        var rest := Descend(marks[1..], subs, fid, next).ops;
        DescendShape(marks[1..], subs, fid, next);
        assert ops[1..] == rest && News(ops) == News(rest);
      } else if marks[0].FreshMark? {
        var rest := Descend(marks[1..], subs[1..], fid + 1, next).ops;
        DescendShape(marks[1..], subs[1..], fid + 1, next);
        assert ops[1..] == rest && News(ops) == [marks[0].dir] + News(rest) && News(ops)[1..] == News(rest);
      } else {
        var first := DiffSub(marks[0].was, fid, subs[0], next);
        var rest := Descend(marks[1..], subs[1..], fid + 1, first.next).ops;
        DiffSubShape(marks[0].was, fid, subs[0], next);
        DescendShape(marks[1..], subs[1..], fid + 1, first.next);
        assert ops[1..] == rest && News(ops) == [first.delta.dir] + News(rest) && News(ops)[1..] == News(rest);
      }
    }
  }

  /** The reprint of a diff is the print of a fresh scan, up to directory ids. */
  lemma {:induction false} ReprintIsScan(was: Dir, n: Node, maxid: nat)
    requires was.name == ""
    ensures Erase(DiffScan(was, n, maxid).dir) == Erase(FullScan(n))
  {
    DiffDirShape(was, 0, n, maxid + 1);
    ScanShape("", 1, 0, n, 2);
  }

  // ---------------------------------------------------------------- nothing changed

  lemma {:induction false} NoChange(was: Dir, n: Node, next: nat, pid: nat, path: Path)
    requires Erase(was) == Shape(was.name, was.fid, n)
    ensures var r := DiffDir(was, was.fid, n, next);
            r.delta.dir == was && r.next == next && PatchLines(r.delta, pid, path) == []
    decreases n, 0, 0
  {
    ShapeParts(was, n);
    hide Erase, EraseAll, Shape, ShapeSubs, PatchLines, SameLines, Joined, Numbering;
    MergeKeepsAll(was.dirs, n.subs, 0, next);
    NoChangeBelow(was.dirs, n.subs, 0, next, was.id, path);
    MergeFilesKeep(n.files, |n.subs|);
    hide Merge, MergeFiles, Descend;
    var merged := Merge(was.dirs, n.subs, 0, next);
    NoChangeHere(was, was.fid, Descend(merged.marks, n.subs, 0, next).ops, MergeFiles(was.files, n.files, |n.subs|),
                 pid, path);
  }

  lemma {:induction false} ShapeParts(was: Dir, n: Node)
    requires Erase(was) == Shape(was.name, was.fid, n)
    ensures EraseAll(was.dirs) == ShapeSubs(n.subs, 0) && was.files == Numbering(n.files, |n.subs|)
    ensures was == Listed(was.name, was.id, was.fid, was.dirs, was.files)
  {
    EraseSizes(was.dirs);
  }

  lemma {:induction false} NoChangeHere(was: Dir, fid: nat, ops: seq<Op>, fops: seq<FileOp>, pid: nat, path: Path)
    requires fid == was.fid && (forall i :: 0 <= i < |ops| ==> ops[i].Same?) && News(ops) == was.dirs
    requires (forall i :: 0 <= i < |fops| ==> !Differs(fops[i]) && fops[i].FileSame?) && FileNews(fops) == was.files
    requires was == Listed(was.name, was.id, was.fid, was.dirs, was.files)
    requires SameLines(ops, was.id, path) == []
    ensures Joined(was, fid, ops, fops).dir == was && PatchLines(Joined(was, fid, ops, fops), pid, path) == []
  {
    var e := Joined(was, fid, ops, fops);
    assert !Changed(e) && !Closes(e);
    NoOpLines(ops, was.id, path);
    NoFileLines(fops, was.id);
  }

  lemma {:induction false} NoOpLines(ops: seq<Op>, pid: nat, path: Path)
    requires forall i :: 0 <= i < |ops| ==> ops[i].Same?
    ensures OpLines(ops, pid, path) == []
    decreases |ops|
  {
    if ops != [] {
      NoOpLines(ops[1..], pid, path);
    }
  }

  lemma {:induction false} NoFileLines(fops: seq<FileOp>, pid: nat)
    requires forall i :: 0 <= i < |fops| ==> !Differs(fops[i]) && fops[i].FileSame?
    ensures FileOpLines(fops, pid) == []
    decreases |fops|
  {
    if fops != [] {
      NoFileLines(fops[1..], pid);
    }
  }

  /** Listings with the same names merge without gaps. */
  lemma {:induction false} MergeKeepsAll(olds: seq<Dir>, subs: seq<Sub>, fid: nat, next: nat)
    requires EraseAll(olds) == ShapeSubs(subs, fid)
    ensures var r := Merge(olds, subs, fid, next);
            r.next == next && |r.marks| == |olds| == |subs|
            && forall i :: 0 <= i < |olds| ==> r.marks[i] == KeptMark(olds[i])
    decreases |olds|
  {
    EraseSizes(olds);
    if olds != [] && subs != [] {
      ErasedHeads(olds, subs, fid);
      CompareZero(olds[0].name, subs[0].name);
      MergeKeepsAll(olds[1..], subs[1..], fid + 1, next);
    }
  }

  lemma {:induction false} ErasedHeads(olds: seq<Dir>, subs: seq<Sub>, fid: nat)
    requires EraseAll(olds) == ShapeSubs(subs, fid) && olds != [] && subs != []
    ensures Erase(olds[0]) == ShapeSub(subs[0], fid) && EraseAll(olds[1..]) == ShapeSubs(subs[1..], fid + 1)
    ensures olds[0].name == subs[0].name && olds[0].fid == fid
  {
    var a, b := EraseAll(olds), ShapeSubs(subs, fid);
    assert a[0] == Erase(olds[0]) && b[0] == ShapeSub(subs[0], fid);
    assert a[1..] == EraseAll(olds[1..]) && b[1..] == ShapeSubs(subs[1..], fid + 1);
  }

  lemma {:induction false} MergeFilesKeep(files: seq<Plain>, fid: nat)
    ensures var fops := MergeFiles(Numbering(files, fid), files, fid);
            && FileNews(fops) == Numbering(files, fid)
            && forall i :: 0 <= i < |fops| ==> !Differs(fops[i]) && fops[i].FileSame?
    decreases |files|
  {
    if files != [] {
      var olds := Numbering(files, fid);
      CompareZero(olds[0].name, files[0].name);
      assert olds[1..] == Numbering(files[1..], fid + 1);
      MergeFilesKeep(files[1..], fid + 1);
      var fops := MergeFiles(olds, files, fid);
      assert fops[1..] == MergeFiles(olds[1..], files[1..], fid + 1);
      assert FileNews(fops) == [fops[0].file] + FileNews(fops[1..]);
    }
  }

  lemma {:induction false} NoChangeSub(was: Dir, sub: Sub, next: nat, pid: nat, path: Path)
    requires Erase(was) == ShapeSub(sub, was.fid)
    ensures var r := DiffSub(was, was.fid, sub, next);
            r.delta.dir == was && r.next == next && PatchLines(r.delta, pid, path) == []
    decreases sub, 0, 0
  {
    if sub.entered {
      assert sub.node < sub;
      NoChange(was, sub.node, next, pid, path);
    } else {
      EraseSizes(was.dirs);
      NoChangeHere(was, was.fid, [], [], pid, path);
    }
  }

  lemma {:induction false} NoChangeBelow(olds: seq<Dir>, subs: seq<Sub>, fid: nat, next: nat, pid: nat, path: Path)
    requires EraseAll(olds) == ShapeSubs(subs, fid)
    ensures var r := Descend(Merge(olds, subs, fid, next).marks, subs, fid, next);
            && News(r.ops) == olds && r.next == next && (forall i :: 0 <= i < |r.ops| ==> r.ops[i].Same?)
            && SameLines(r.ops, pid, path) == []
    decreases subs, |olds|, 1
  {
    if olds != [] {
      MergeKeepsFirst(olds, subs, fid, next);
      KeptDescends(olds, subs, fid, next);
      NoChangeSub(olds[0], subs[0], next, pid, path + [olds[0].name]);
      hide Merge, Descend, PatchLines, SameLines, News, DiffSub;
      NoChangeBelow(olds[1..], subs[1..], fid + 1, next, pid, path);
      var first := DiffSub(olds[0], fid, subs[0], next).delta;
      var rest := Descend(Merge(olds[1..], subs[1..], fid + 1, next).marks, subs[1..], fid + 1, next).ops;
      SameCons(first, rest, pid, path);
      assert olds == [olds[0]] + olds[1..];
    } else {
      MergeKeepsAll(olds, subs, fid, next);
    }
  }

  lemma {:induction false} KeptDescends(olds: seq<Dir>, subs: seq<Sub>, fid: nat, next: nat)
    requires olds != [] && subs != []
    requires Merge(olds, subs, fid, next).marks
          == [KeptMark(olds[0])] + Merge(olds[1..], subs[1..], fid + 1, next).marks
    ensures var first := DiffSub(olds[0], fid, subs[0], next);
            var rest := Descend(Merge(olds[1..], subs[1..], fid + 1, next).marks, subs[1..], fid + 1, first.next);
            Descend(Merge(olds, subs, fid, next).marks, subs, fid, next)
            == BuiltAll([Same(first.delta)] + rest.ops, rest.next)
  {
    hide Merge, DiffSub;
    assert Merge(olds, subs, fid, next).marks[1..] == Merge(olds[1..], subs[1..], fid + 1, next).marks;
  }

  lemma {:induction false} MergeKeepsFirst(olds: seq<Dir>, subs: seq<Sub>, fid: nat, next: nat)
    requires EraseAll(olds) == ShapeSubs(subs, fid) && olds != []
    ensures subs != [] && Erase(olds[0]) == ShapeSub(subs[0], olds[0].fid) && olds[0].fid == fid
    ensures EraseAll(olds[1..]) == ShapeSubs(subs[1..], fid + 1)
    ensures Merge(olds, subs, fid, next).marks == [KeptMark(olds[0])] + Merge(olds[1..], subs[1..], fid + 1, next).marks
  {
    EraseSizes(olds);
    ErasedHeads(olds, subs, fid);
    CompareZero(olds[0].name, subs[0].name);
  }

  lemma {:induction false} SameCons(first: Delta, rest: seq<Op>, pid: nat, path: Path)
    requires (forall i :: 0 <= i < |rest| ==> rest[i].Same?) && SameLines(rest, pid, path) == []
    requires PatchLines(first, pid, path + [first.dir.name]) == []
    ensures var ops := [Same(first)] + rest;
            && News(ops) == [first.dir] + News(rest) && (forall i :: 0 <= i < |ops| ==> ops[i].Same?)
            && SameLines(ops, pid, path) == []
  {
    assert ([Same(first)] + rest)[1..] == rest;
  }

  /** Walking a share that still shows what its last scan has recorded prints no patch line and
      reprints the same tree, with the same ids. */
  lemma {:induction false} UnchangedShare(was: Dir, n: Node, maxid: nat)
    requires Erase(was) == Shape(was.name, 0, n)
    ensures Patch(DiffScan(was, n, maxid)) == [] && DiffScan(was, n, maxid).dir == was
    ensures Print(DiffScan(was, n, maxid).dir) == Print(was)
  {
    NoChange(was, n, maxid + 1, 0, []);
  }
}
