/** Saves that lack the line of the root: the scanner dies as soon as it has to print the path of an old
    directory, so that an absent directory stops all further scans. */
module NamelessRoot {
  import opened Names
  import opened Wrappers
  import opened Trees
  import opened Printing
  import opened Scan
  import opened Deltas
  import opened Diff
  import opened Walks
  import opened DiffLists
  import opened DiffWalk
  import opened DiffRun
  import opened Restore
  import opened DtDiff

  // ---------------------------------------------------------------- what a save has and a share lacks

  /** What is shown below a subdirectory: nothing if it cannot be entered. */
  function Below(sub: Sub): Node {
    if sub.entered then sub.node else Node([], [])
  }

  predicate HasDir(d: Dir, p: Path)
    decreases |p|
  {
    p == [] || exists i :: 0 <= i < |d.dirs| && d.dirs[i].name == p[0] && HasDir(d.dirs[i], p[1..])
  }

  predicate Shows(n: Node, p: Path)
    decreases |p|
  {
    p == [] || (Find(n.subs, p[0]).Some? && Shows(Below(Find(n.subs, p[0]).value), p[1..]))
  }

  ghost predicate SortedNames(d: Dir) {
    Sorted(DirNames(d.dirs)) && forall i :: 0 <= i < |d.dirs| ==> SortedNames(d.dirs[i])
  }

  /** Some directory of the tree is missing from the listing of its parent, and the parent is there. */
  predicate Missing(d: Dir, n: Node)
    decreases d, 0
  {
    exists i :: 0 <= i < |d.dirs| && Lost(d.dirs[i], n.subs)
  }

  predicate Lost(c: Dir, subs: seq<Sub>)
    decreases c, 1
  {
    var sub := Find(subs, c.name);
    sub.None? || Missing(c, Below(sub.value))
  }

  predicate AnyLost(olds: seq<Dir>, subs: seq<Sub>) {
    exists i :: 0 <= i < |olds| && Lost(olds[i], subs)
  }

  /** Said of paths: one that the tree has and the share does not show. */
  lemma {:induction false} MissingPath(d: Dir, n: Node) returns (p: Path)
    requires Missing(d, n)
    ensures HasDir(d, p) && !Shows(n, p)
    decreases d
  {
    var i :| 0 <= i < |d.dirs| && Lost(d.dirs[i], n.subs);
    var c := d.dirs[i];
    var sub := Find(n.subs, c.name);
    var q := [];
    if sub.Some? {
      q := MissingPath(c, Below(sub.value));
    }
    p := [c.name] + q;
    assert p[1..] == q;
  }

  lemma {:induction false} PathMissing(d: Dir, n: Node, p: Path)
    requires HasDir(d, p) && !Shows(n, p)
    ensures Missing(d, n)
    decreases |p|
  {
    var i :| 0 <= i < |d.dirs| && d.dirs[i].name == p[0] && HasDir(d.dirs[i], p[1..]);
    var sub := Find(n.subs, p[0]);
    if sub.Some? {
      PathMissing(d.dirs[i], Below(sub.value), p[1..]);
    }
    assert Lost(d.dirs[i], n.subs);
  }

  // ---------------------------------------------------------------- what the merge makes of it

  ghost predicate KeptLoses(marks: seq<Mark>, subs: seq<Sub>) {
    if marks == [] then false
    else if marks[0].GoneMark? then KeptLoses(marks[1..], subs)
    else if subs == [] then false
    else if marks[0].FreshMark? then KeptLoses(marks[1..], subs[1..])
    else Missing(marks[0].was, Below(subs[0])) || KeptLoses(marks[1..], subs[1..])
  }

  lemma {:induction false} FindNone(subs: seq<Sub>, name: string)
    requires Sorted(SubNames(subs)) && (subs == [] || Less(name, subs[0].name))
    ensures Find(subs, name) == None
    decreases |subs|
  {
    if subs != [] {
      Trichotomy(name, subs[0].name);
      SubsTail(subs);
      if |subs| > 1 {
        assert Less(SubNames(subs)[0], SubNames(subs)[1]);
        LessTransitive(name, subs[0].name, subs[1].name);
      }
      FindNone(subs[1..], name);
    }
  }

  lemma {:induction false} SubsTail(subs: seq<Sub>)
    requires Sorted(SubNames(subs)) && subs != []
    ensures Sorted(SubNames(subs[1..]))
  {
    assert forall k :: 0 <= k < |subs| - 1 ==> SubNames(subs[1..])[k] == SubNames(subs)[k + 1];
  }

  lemma {:induction false} OldsTail(olds: seq<Dir>)
    requires Sorted(DirNames(olds)) && olds != []
    ensures Sorted(DirNames(olds[1..]))
    ensures forall i :: 0 < i < |olds| ==> Less(olds[0].name, olds[i].name) && olds[0].name != olds[i].name
  {
    var names := DirNames(olds);
    assert forall k :: 0 <= k < |olds| - 1 ==> DirNames(olds[1..])[k] == names[k + 1];
    forall i | 0 < i < |olds|
      ensures Less(olds[0].name, olds[i].name) && olds[0].name != olds[i].name
    {
      assert Less(names[0], names[i]);
      Trichotomy(names[0], names[i]);
    }
  }

  /** A subdirectory of the share whose name is not among the old ones makes no difference. */
  lemma {:induction false} LostPast(olds: seq<Dir>, subs: seq<Sub>)
    requires subs != [] && forall i :: 0 <= i < |olds| ==> olds[i].name != subs[0].name
    ensures AnyLost(olds, subs) <==> AnyLost(olds, subs[1..])
  {
    assert forall i :: 0 <= i < |olds| ==> (Lost(olds[i], subs) <==> Lost(olds[i], subs[1..]));
  }

  lemma {:induction false} LostFirst(olds: seq<Dir>, subs: seq<Sub>)
    requires olds != []
    ensures AnyLost(olds, subs) <==> Lost(olds[0], subs) || AnyLost(olds[1..], subs)
  {
    assert forall i :: 0 < i < |olds| ==> olds[i] == olds[1..][i - 1];
    assert forall i :: 0 <= i < |olds| - 1 ==> olds[1..][i] == olds[i + 1];
  }

  lemma {:induction false} GoneFirst(m: Mark, marks: seq<Mark>)
    ensures AnyGone([m] + marks) <==> m.GoneMark? || AnyGone(marks)
  {
    assert ([m] + marks)[0] == m && forall i :: 0 <= i < |marks| ==> ([m] + marks)[i + 1] == marks[i];
  }

  lemma {:induction false} MergeLoses(olds: seq<Dir>, subs: seq<Sub>, fid: nat, next: nat)
    requires Sorted(DirNames(olds)) && Sorted(SubNames(subs))
    ensures var marks := Merge(olds, subs, fid, next).marks;
            AnyGone(marks) || KeptLoses(marks, subs) <==> AnyLost(olds, subs)
    decreases |olds| + |subs|
  {
    hide AnyGone, AnyLost, Lost, Missing;
    if olds == [] && subs == [] {
      NothingLost();
    } else if olds != [] && (subs == [] || Less(olds[0].name, subs[0].name)) {
      var rest := Merge(olds[1..], subs, fid, next).marks;
      GoneFirst(GoneMark(olds[0]), rest);
      FindNone(subs, olds[0].name);
      LostFirst(olds, subs);
      LostIs(olds[0], subs);
    } else if olds == [] || olds[0].name != subs[0].name {
      var sub := ScanSub(subs[0], next, fid, next + 1);
      var rest := Merge(olds, subs[1..], fid + 1, sub.next).marks;
      GoneFirst(FreshMark(sub.dir), rest);
      assert ([FreshMark(sub.dir)] + rest)[1..] == rest;
      SubsTail(subs);
      MergeLoses(olds, subs[1..], fid + 1, sub.next);
      AllAbove(olds, subs[0].name);
      LostPast(olds, subs);
    } else {
      var rest := Merge(olds[1..], subs[1..], fid + 1, next).marks;
      GoneFirst(KeptMark(olds[0]), rest);
      assert ([KeptMark(olds[0])] + rest)[1..] == rest;
      SubsTail(subs);
      OldsTail(olds);
      MergeLoses(olds[1..], subs[1..], fid + 1, next);
      LostFirst(olds, subs);
      LostIs(olds[0], subs);
      LostPast(olds[1..], subs);
    }
  }

  lemma NothingLost()
    ensures !AnyGone([]) && !AnyLost([], [])
  {
  }

  lemma LostIs(c: Dir, subs: seq<Sub>)
    ensures Lost(c, subs) <==> Find(subs, c.name).None? || Missing(c, Below(Find(subs, c.name).value))
  {
  }

  lemma {:induction false} AllAbove(olds: seq<Dir>, name: string)
    requires Sorted(DirNames(olds)) && (olds == [] || (!Less(olds[0].name, name) && olds[0].name != name))
    ensures forall i :: 0 <= i < |olds| ==> olds[i].name != name
  {
    if olds != [] {
      OldsTail(olds);
      Trichotomy(olds[0].name, name);
      forall i | 0 < i < |olds|
        ensures olds[i].name != name
      {
        LessTransitive(name, olds[0].name, olds[i].name);
        Trichotomy(name, olds[i].name);
      }
    }
  }

  lemma {:induction false} MergeKeeps(olds: seq<Dir>, subs: seq<Sub>, fid: nat, next: nat)
    requires forall i :: 0 <= i < |olds| ==> SortedNames(olds[i])
    ensures KeptSorted(Merge(olds, subs, fid, next).marks)
    decreases |olds| + |subs|
  {
    if olds == [] && subs == [] {
    } else if olds != [] && (subs == [] || Less(olds[0].name, subs[0].name)) {
      MergeKeeps(olds[1..], subs, fid, next);
    } else if olds == [] || olds[0].name != subs[0].name {
      MergeKeeps(olds, subs[1..], fid + 1, ScanSub(subs[0], next, fid, next + 1).next);
    } else {
      MergeKeeps(olds[1..], subs[1..], fid + 1, next);
    }
  }

  ghost predicate KeptSorted(marks: seq<Mark>) {
    forall i :: 0 <= i < |marks| && marks[i].KeptMark? ==> SortedNames(marks[i].was)
  }

  // ---------------------------------------------------------------- what the lines make of it

  lemma {:induction false} DiesConcat(a: seq<Line>, b: seq<Line>, root: Option<string>)
    ensures Dies(a + b, root) <==> Dies(a, root) || Dies(b, root)
  {
    assert forall i :: 0 <= i < |a| ==> (a + b)[i] == a[i];
    assert forall i :: 0 <= i < |b| ==> (a + b)[|a| + i] == b[i];
    assert forall i :: |a| <= i < |a + b| ==> (a + b)[i] == b[i - |a|];
  }

  lemma {:induction false} MergedDies(marks: seq<Mark>, fops: seq<FileOp>, id: nat, path: Path)
    requires Solid(path)
    ensures Dies(MergedLines(id, path, marks, fops), None) <==> AnyGone(marks)
  {
    hide MergedLines, MarkLines, AnyGone;
    if AnyGone(marks) {
      DeadPoint(marks, fops, id, path);
    } else {
      MergedLive(marks, fops, id, path);
      NoDropsLive(MergedLines(id, path, marks, fops), None);
    }
  }

  /** The patch of a directory is fatal exactly when something is missing below it. */
  lemma {:induction false} DirDies(was: Dir, fid: nat, n: Node, next: nat, pid: nat, path: Path)
    requires Proper(n) && Solid(path) && SortedNames(was)
    ensures Dies(PatchLines(DiffDir(was, fid, n, next).delta, pid, path), None) <==> Missing(was, n)
    decreases n, 0, 0
  {
    hide PatchLines, MergedLines, SameLines, FootLines, Merge, Dies, Lost;
    var m, fops := Merge(was.dirs, n.subs, 0, next), MergeFiles(was.files, n.files, |n.subs|);
    var e := DiffDir(was, fid, n, next).delta;
    var merged, foot := MergedLines(was.id, path, m.marks, fops), FootLines(e, pid);
    var same := SameLines(Descend(m.marks, n.subs, 0, m.next).ops, was.id, path);
    MergeMatches(was.dirs, n.subs, 0, next);
    JoinedPrints(was, fid, m.marks, n.subs, m.next, fops, pid, path);
    DiesConcat(merged, same + foot, None);
    DiesConcat(same, foot, None);
    MergedDies(m.marks, fops, was.id, path);
    MergeKeeps(was.dirs, n.subs, 0, next);
    DescendDies(m.marks, n.subs, 0, m.next, was.id, path);
    FootLive(e, pid);
    NoDropsLive(foot, None);
    MergeLoses(was.dirs, n.subs, 0, next);
  }

  lemma {:induction false} SubDies(was: Dir, fid: nat, sub: Sub, next: nat, pid: nat, path: Path)
    requires Proper(sub.node) && Solid(path) && SortedNames(was)
    ensures Dies(PatchLines(DiffSub(was, fid, sub, next).delta, pid, path), None) <==> Missing(was, Below(sub))
    decreases sub, 0, 0
  {
    hide PatchLines, MergedLines, FootLines, Merge, Dies, Lost;
    if sub.entered {
      DirDies(was, fid, sub.node, next, pid, path);
    } else {
      var m, fops := Merge(was.dirs, [], 0, next), MergeFiles(was.files, [], 0);
      var e := DiffSub(was, fid, sub, next).delta;
      RefusedPrints(was, fid, sub, next, pid, path);
      DiesConcat(MergedLines(was.id, path, m.marks, fops), FootLines(e, pid), None);
      MergedDies(m.marks, fops, was.id, path);
      FootLive(e, pid);
      NoDropsLive(FootLines(e, pid), None);
      MergeLoses(was.dirs, [], 0, next);
      NoneKept(m.marks);
    }
  }

  lemma {:induction false} NoneKept(marks: seq<Mark>)
    ensures !KeptLoses(marks, [])
    decreases |marks|
  {
    if marks != [] {
      NoneKept(marks[1..]);
    }
  }

  lemma {:induction false} DescendDies(marks: seq<Mark>, subs: seq<Sub>, fid: nat, next: nat, pid: nat, path: Path)
    requires Matches(marks, subs) && Solid(path) && KeptSorted(marks)
    requires forall i :: 0 <= i < |subs| ==> GoodName(subs[i].name) && Proper(subs[i].node)
    ensures Dies(SameLines(Descend(marks, subs, fid, next).ops, pid, path), None) <==> KeptLoses(marks, subs)
    decreases subs, |marks|, 1
  {
    hide PatchLines, DiffSub, Dies, Proper, SortedNames;
    if marks == [] {
      NoDropsLive([], None);
    } else if marks[0].GoneMark? {
      DescendDies(marks[1..], subs, fid, next, pid, path);
      assert Descend(marks, subs, fid, next).ops[1..] == Descend(marks[1..], subs, fid, next).ops;
      assert [] + SameLines(Descend(marks[1..], subs, fid, next).ops, pid, path)
          == SameLines(Descend(marks[1..], subs, fid, next).ops, pid, path);
    } else if marks[0].FreshMark? {
      DescendDies(marks[1..], subs[1..], fid + 1, next, pid, path);
      var rest := Descend(marks[1..], subs[1..], fid + 1, next).ops;
      assert Descend(marks, subs, fid, next).ops[1..] == rest;
      assert [] + SameLines(rest, pid, path) == SameLines(rest, pid, path);
    } else {
      var was := marks[0].was;
      var first := DiffSub(was, fid, subs[0], next);
      DescendDies(marks[1..], subs[1..], fid + 1, first.next, pid, path);
      var rest := Descend(marks[1..], subs[1..], fid + 1, first.next).ops;
      assert Descend(marks, subs, fid, next).ops[1..] == rest;
      DiffSubName(was, fid, subs[0], next);
      SubDies(was, fid, subs[0], next, pid, path + [was.name]);
      DiesConcat(PatchLines(first.delta, pid, path + [was.name]), SameLines(rest, pid, path), None);
    }
  }

  /** The scanner dies exactly when the root has no name and some directory of the old tree is missing
      from the share. */
  lemma {:induction false} FatalIff(tree: Tree, n: Node)
    requires Proper(n) && SortedNames(tree.root)
    ensures Fatal(tree, n) <==> !tree.named && exists p :: HasDir(tree.root, p) && !Shows(n, p)
  {
    hide Dies, DiffScan, HasDir, Shows;
    if tree.named {
      NamedLives(Patch(DiffScan(tree.root, n, tree.maxid)), tree.RootName());
    } else {
      ScanDies(tree, n);
      if Missing(tree.root, n) {
        var p := MissingPath(tree.root, n);
      }
      if exists p :: HasDir(tree.root, p) && !Shows(n, p) {
        var p :| HasDir(tree.root, p) && !Shows(n, p);
        PathMissing(tree.root, n, p);
      }
    }
  }

  lemma {:induction false} ScanDies(tree: Tree, n: Node)
    requires Proper(n) && SortedNames(tree.root) && !tree.named
    ensures Fatal(tree, n) <==> Missing(tree.root, n)
  {
    DirDies(tree.root, 0, n, tree.maxid + 1, 0, []);
  }

  // ---------------------------------------------------------------- with a root of the empty name

  /** All directories below this one have names. */
  ghost predicate NamedBelow(d: Dir) {
    forall i :: 0 <= i < |d.dirs| ==> d.dirs[i].name != "" && NamedBelow(d.dirs[i])
  }

  ghost predicate NamedAll(ds: seq<Dir>) {
    forall i :: 0 <= i < |ds| ==> ds[i].name != "" && NamedBelow(ds[i])
  }

  ghost predicate SolidDrops(lines: seq<Line>) {
    forall line :: line in lines && IsDrop(line) ==> line.path != [] && Solid(line.path)
  }

  lemma {:induction false} GoneSolid(d: Dir, path: Path)
    requires NamedBelow(d) && Solid(path)
    ensures SolidDrops(GoneBody(d, path))
    decreases d, 1
  {
    OpensSolid(d.dirs, path);
    GonesSolid(d.dirs, path);
  }

  lemma {:induction false} OpensSolid(ds: seq<Dir>, path: Path)
    requires NamedAll(ds) && Solid(path)
    ensures SolidDrops(OpenLines(Del, ds, path))
    decreases |ds|
  {
    if ds != [] {
      OpensSolid(ds[1..], path);
    }
  }

  lemma {:induction false} GonesSolid(ds: seq<Dir>, path: Path)
    requires NamedAll(ds) && Solid(path)
    ensures SolidDrops(GoneBodies(ds, path))
    decreases ds, 0
  {
    if ds != [] {
      GoneSolid(ds[0], path + [ds[0].name]);
      GonesSolid(ds[1..], path);
    }
  }

  lemma {:induction false} PatchSolid(e: Delta, pid: nat, path: Path)
    requires Fits(e) && NamedBelow(e.was) && Solid(path)
    ensures SolidDrops(PatchLines(e, pid, path))
    decreases e, 1
  {
    OpsSolid(e.ops, e.dir.id, path);
    FilesLive(e.fops, e.dir.id);
    SamesSolid(e.ops, e.dir.id, path);
  }

  lemma {:induction false} OpsSolid(ops: seq<Op>, pid: nat, path: Path)
    requires NamedAll(Olds(ops)) && Solid(path)
    ensures SolidDrops(OpLines(ops, pid, path))
    decreases |ops|
  {
    if ops != [] {
      OldsNamed(ops);
      OpsSolid(ops[1..], pid, path);
      match ops[0]
      case Gone(d) => GoneSolid(d, path + [d.name]);
      case Fresh(d) => BodyActs(Add, d, path + [d.name]);
      case Same(_) =>
    }
  }

  lemma {:induction false} OldsNamed(ops: seq<Op>)
    requires ops != [] && NamedAll(Olds(ops))
    ensures NamedAll(Olds(ops[1..]))
    ensures ops[0].Gone? ==> ops[0].was.name != "" && NamedBelow(ops[0].was)
    ensures ops[0].Same? ==> ops[0].delta.was.name != "" && NamedBelow(ops[0].delta.was)
  {
    var olds, rest := Olds(ops), Olds(ops[1..]);
    if ops[0].Fresh? {
      assert olds == rest;
    } else {
      assert olds[0] == if ops[0].Gone? then ops[0].was else ops[0].delta.was;
      assert olds[1..] == rest && forall i :: 0 <= i < |rest| ==> rest[i] == olds[i + 1];
    }
  }

  lemma {:induction false} SamesSolid(ops: seq<Op>, pid: nat, path: Path)
    requires FitsOf(ops) && NamedAll(Olds(ops)) && Solid(path)
    ensures SolidDrops(SameLines(ops, pid, path))
    decreases ops, 0
  {
    if ops != [] {
      OldsNamed(ops);
      SamesSolid(ops[1..], pid, path);
      if ops[0].Same? {
        assert ops[0].delta < ops[0];
        PatchSolid(ops[0].delta, pid, path + [ops[0].delta.dir.name]);
      }
    }
  }

  lemma {:induction false} CanonicalNamed(d: Dir)
    requires Canonical(d)
    ensures NamedBelow(d) && SortedNames(d)
    decreases d
  {
    forall i | 0 <= i < |d.dirs|
      ensures d.dirs[i].name != "" && NamedBelow(d.dirs[i]) && SortedNames(d.dirs[i])
    {
      CanonicalNamed(d.dirs[i]);
    }
  }

  /** Against the tree of a scan the patch comes out as it was asked for. */
  lemma {:induction false} CanonicalShown(e: Delta)
    requires Fits(e) && Canonical(e.was)
    ensures LinesShown(Patch(e), Some("")) == Patch(e) && !Dies(Patch(e), Some(""))
  {
    CanonicalNamed(e.was);
    PatchSolid(e, 0, []);
    ShownAsAsked(Patch(e));
  }
}
