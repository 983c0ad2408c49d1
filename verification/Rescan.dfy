/** Scanning against whatever a save holds: even when it is only the beginning of one, the tree
    printed is a good one. */
module Rescan {
  import opened Names
  import opened Trees
  import opened Image
  import opened Paths
  import opened Deltas
  import opened Scan
  import opened Diff
  import opened Reprint
  import opened Text
  import opened Restore
  import Cache
  import Q = Quietness
  import Store

  /** A tree as every scan prints it. */
  ghost predicate Good(t: Dir) {
    Canonical(t) && UniqueIds(t) && SizesTrue(t) && t.id == 1 && t.name == "" && t.fid == 0
  }

  lemma {:induction false} FullScanGood(n: Node)
    requires Proper(n)
    ensures Good(FullScan(n))
  {
    FullScanCanonical(n);
  }

  // ---------------------------------------------------------------- same shape, other ids

  lemma {:induction false} EraseAt(ds: seq<Dir>)
    ensures |EraseAll(ds)| == |ds| && forall i :: 0 <= i < |ds| ==> EraseAll(ds)[i] == Erase(ds[i])
    decreases |ds|
  {
    if ds != [] {
      EraseAt(ds[1..]);
    }
  }

  /** Nothing but the ids can make the difference between a canonical tree and another of its shape. */
  lemma {:induction false} SameShape(a: Dir, b: Dir)
    requires Erase(a) == Erase(b) && Canonical(b) && SizesTrue(b) && PositiveIds(a)
    ensures Canonical(a) && SizesTrue(a)
    decreases a
  {
    EraseAt(a.dirs);
    EraseAt(b.dirs);
    assert |a.dirs| == |b.dirs|;
    forall i | 0 <= i < |a.dirs|
      ensures Canonical(a.dirs[i]) && SizesTrue(a.dirs[i]) && a.dirs[i].name == b.dirs[i].name
              && a.dirs[i].fid == b.dirs[i].fid
      ensures a.dirs[i].size == b.dirs[i].size
    {
      assert Erase(a.dirs[i]) == EraseAll(a.dirs)[i] == EraseAll(b.dirs)[i] == Erase(b.dirs[i]);
      SameShape(a.dirs[i], b.dirs[i]);
    }
    assert DirNames(a.dirs) == DirNames(b.dirs);
    EraseSizes(a.dirs);
    EraseSizes(b.dirs);
    SizesTotal(a.dirs);
    SizesTotal(b.dirs);
  }

  // ---------------------------------------------------------------- ids of the new tree

  /** The new dentries of a delta are those of its operations, at every level. */
  ghost predicate Nested(e: Delta) {
    e.dir.dirs == News(e.ops) && NestedOf(e.ops)
  }

  ghost predicate NestedOf(ops: seq<Op>) {
    ops != [] ==> (ops[0].Same? ==> (assert ops[0].delta < ops[0]; Nested(ops[0].delta))) && NestedOf(ops[1..])
  }

  lemma {:induction false} DiffDirNested(was: Dir, fid: nat, n: Node, next: nat)
    ensures Nested(DiffDir(was, fid, n, next).delta)
    decreases n, 0, 0
  {
    var merged := Merge(was.dirs, n.subs, 0, next);
    DescendNested(merged.marks, n.subs, 0, merged.next);
  }

  lemma {:induction false} DiffSubNested(was: Dir, fid: nat, sub: Sub, next: nat)
    ensures Nested(DiffSub(was, fid, sub, next).delta)
    decreases sub, 0, 0
  {
    if sub.entered {
      assert sub.node < sub;
      DiffDirNested(was, fid, sub.node, next);
    } else {
      SettledNested(Merge(was.dirs, [], 0, next).marks);
    }
  }

  lemma {:induction false} SettledNested(marks: seq<Mark>)
    ensures NestedOf(Settled(marks))
    decreases |marks|
  {
    if marks != [] {
      SettledNested(marks[1..]);
      assert Settled(marks)[1..] == Settled(marks[1..]);
    }
  }

  lemma {:induction false} DescendNested(marks: seq<Mark>, subs: seq<Sub>, fid: nat, next: nat)
    ensures NestedOf(Descend(marks, subs, fid, next).ops)
    decreases subs, |marks|, 1
  {
    if marks == [] {
    } else if marks[0].GoneMark? {
      DescendNested(marks[1..], subs, fid, next);
      assert Descend(marks, subs, fid, next).ops[1..] == Descend(marks[1..], subs, fid, next).ops;
    } else if subs == [] {
    } else if marks[0].FreshMark? {
      DescendNested(marks[1..], subs[1..], fid + 1, next);
      assert Descend(marks, subs, fid, next).ops[1..] == Descend(marks[1..], subs[1..], fid + 1, next).ops;
    } else {
      var first := DiffSub(marks[0].was, fid, subs[0], next);
      DiffSubNested(marks[0].was, fid, subs[0], next);
      DescendNested(marks[1..], subs[1..], fid + 1, first.next);
      assert Descend(marks, subs, fid, next).ops[1..] == Descend(marks[1..], subs[1..], fid + 1, first.next).ops;
    }
  }

  lemma {:induction false} NestedIds(e: Delta)
    requires Nested(e) && UniqueIds(Both(e))
    ensures Ids(e.dir) <= Ids(Both(e)) && UniqueIds(e.dir)
    decreases e, 1
  {
    NestedIdsOf(e.ops);
  }

  lemma {:induction false} NestedIdsOf(ops: seq<Op>)
    requires NestedOf(ops) && UniqueIdsOf(BothOf(ops))
    ensures IdsOf(News(ops)) <= IdsOf(BothOf(ops)) && UniqueIdsOf(News(ops))
    decreases ops, 0
  {
    if ops != [] {
      var news, rest := News(ops), News(ops[1..]);
      assert BothOf(ops)[1..] == BothOf(ops[1..]);
      NestedIdsOf(ops[1..]);
      match ops[0] {
        case Gone(_) => assert news == rest;
        case Fresh(d) => assert news[0] == d && news[1..] == rest;
        case Same(e) =>
          assert e < ops[0] && BothOf(ops)[0] == Both(e);
          NestedIds(e);
          assert news[0] == e.dir && news[1..] == rest;
      }
    }
  }

  lemma {:induction false} PositiveByIds(d: Dir)
    requires forall x :: x in Ids(d) ==> x > 0
    ensures PositiveIds(d)
    decreases d
  {
    assert d.id in Ids(d);
    forall i | 0 <= i < |d.dirs|
      ensures PositiveIds(d.dirs[i])
    {
      IdsAt(d.dirs, i);
      PositiveByIds(d.dirs[i]);
    }
  }

  lemma {:induction false} IdsAt(ds: seq<Dir>, i: nat)
    requires i < |ds|
    ensures Ids(ds[i]) <= IdsOf(ds)
    decreases |ds|
  {
    if i > 0 {
      IdsAt(ds[1..], i - 1);
    }
  }

  /** Whatever tree a walk is in step with, as long as its ids are known: the new tree is good. */
  lemma {:induction false} DiffGood(was: Dir, n: Node, maxid: nat)
    requires UniqueIds(was) && was.id == 1 && was.name == ""
             && (forall x :: x in Ids(was) ==> 0 < x <= maxid) && Proper(n)
    ensures Good(DiffScan(was, n, maxid).dir)
  {
    var e := DiffScan(was, n, maxid);
    DiffDirIds(was, 0, n, maxid + 1);
    DiffDirNested(was, 0, n, maxid + 1);
    NestedIds(e);
    PositiveByIds(e.dir);
    ReprintIsScan(was, n, maxid);
    FullScanCanonical(n);
    SameShape(e.dir, FullScan(n));
  }

  // ---------------------------------------------------------------- any save at all

  ghost predicate PositiveMarks(marks: seq<Mark>) {
    forall i :: 0 <= i < |marks| && !marks[i].GoneMark?
                ==> PositiveIds(if marks[i].FreshMark? then marks[i].dir else marks[i].was)
  }

  lemma {:induction false} MergePositive(olds: seq<Dir>, subs: seq<Sub>, fid: nat, next: nat)
    requires PositiveIdsOf(olds) && next > 0 && forall i :: 0 <= i < |subs| ==> Proper(subs[i].node)
    ensures PositiveMarks(Merge(olds, subs, fid, next).marks) && Merge(olds, subs, fid, next).next >= next
    decreases |olds| + |subs|
  {
    hide PositiveIds, Proper;
    if olds == [] && subs == [] {
    } else if olds != [] && (subs == [] || Less(olds[0].name, subs[0].name)) {
      MergePositive(olds[1..], subs, fid, next);
    } else if olds == [] || olds[0].name != subs[0].name {
      var sub := ScanSub(subs[0], next, fid, next + 1);
      ScanSubCanonical(subs[0], next, fid, next + 1);
      CanonicalPositive(sub.dir);
      MergePositive(olds, subs[1..], fid + 1, sub.next);
    } else {
      MergePositive(olds[1..], subs[1..], fid + 1, next);
    }
  }

  lemma {:induction false} DiffDirPositive(was: Dir, fid: nat, n: Node, next: nat)
    requires PositiveIds(was) && Proper(n) && next > 0
    ensures PositiveIds(DiffDir(was, fid, n, next).delta.dir) && DiffDir(was, fid, n, next).next > 0
    decreases n, 0, 0
  {
    var merged := Merge(was.dirs, n.subs, 0, next);
    MergePositive(was.dirs, n.subs, 0, next);
    DescendPositive(merged.marks, n.subs, 0, merged.next);
  }

  lemma {:induction false} DiffSubPositive(was: Dir, fid: nat, sub: Sub, next: nat)
    requires PositiveIds(was) && Proper(sub.node) && next > 0
    ensures PositiveIds(DiffSub(was, fid, sub, next).delta.dir) && DiffSub(was, fid, sub, next).next > 0
    decreases sub, 0, 0
  {
    if sub.entered {
      assert sub.node < sub;
      DiffDirPositive(was, fid, sub.node, next);
    } else {
      var merged := Merge(was.dirs, [], 0, next);
      MergePositive(was.dirs, [], 0, next);
      SettledEmpty(was.dirs, 0, next);
    }
  }

  lemma {:induction false} SettledEmpty(olds: seq<Dir>, fid: nat, next: nat)
    ensures News(Settled(Merge(olds, [], fid, next).marks)) == []
    decreases |olds|
  {
    if olds != [] {
      SettledEmpty(olds[1..], fid, next);
      var rest := Merge(olds[1..], [], fid, next).marks;
      assert ([GoneMark(olds[0])] + rest)[1..] == rest;
      assert Settled([GoneMark(olds[0])] + rest)[1..] == Settled(rest);
    }
  }

  lemma {:induction false} DescendPositive(marks: seq<Mark>, subs: seq<Sub>, fid: nat, next: nat)
    requires PositiveMarks(marks) && next > 0 && forall i :: 0 <= i < |subs| ==> Proper(subs[i].node)
    ensures PositiveIdsOf(News(Descend(marks, subs, fid, next).ops)) && Descend(marks, subs, fid, next).next > 0
    decreases subs, |marks|, 1
  {
    hide PositiveIds, Proper, DiffSub;
    if marks == [] {
    } else if marks[0].GoneMark? {
      DescendPositive(marks[1..], subs, fid, next);
      assert Descend(marks, subs, fid, next).ops[1..] == Descend(marks[1..], subs, fid, next).ops;
    } else if subs == [] {
    } else if marks[0].FreshMark? {
      DescendPositive(marks[1..], subs[1..], fid + 1, next);
      assert Descend(marks, subs, fid, next).ops[1..] == Descend(marks[1..], subs[1..], fid + 1, next).ops;
    } else {
      var first := DiffSub(marks[0].was, fid, subs[0], next);
      DiffSubPositive(marks[0].was, fid, subs[0], next);
      DescendPositive(marks[1..], subs[1..], fid + 1, first.next);
      assert Descend(marks, subs, fid, next).ops[1..] == Descend(marks[1..], subs[1..], fid + 1, first.next).ops;
    }
  }

  /** Whatever tree a walk is in step with: the new tree has no fault but perhaps that two directories
      share an id. */
  lemma {:induction false} AnyDiffGood(was: Dir, n: Node, maxid: nat)
    requires was.id == 1 && PositiveIds(was) && Proper(n)
    ensures var t := DiffScan(was, n, maxid).dir.(name := ""); UniqueIds(t) ==> Good(t)
  {
    var unnamed := was.(name := "");
    var t := DiffScan(unnamed, n, maxid).dir;
    assert t == DiffScan(was, n, maxid).dir.(name := "");
    assert PositiveIds(unnamed);
    DiffDirPositive(unnamed, 0, n, maxid + 1);
    ReprintIsScan(unnamed, n, maxid);
    FullScanCanonical(n);
    SameShape(t, FullScan(n));
  }

  /** Every open directory is kept under its own id, and all ids below are positive. */
  ghost predicate Keyed(open: map<int, Dir>) {
    forall k :: k in open ==> open[k].id == k && PositiveIds(open[k])
  }

  ghost predicate OpensPositive(tolds: seq<Told>) {
    forall told :: told in tolds && told.Opens? ==> told.id > 0
  }

  lemma {:induction false} TakeKeyed(st: Restored, told: Told)
    requires Keyed(st.open) && (told.Opens? ==> told.id > 0) && Take(st, told).Some?
    ensures Keyed(Take(st, told).value.open)
  {
    if told.Entry? && told.dir > 0 {
      assert PositiveIds(st.open[told.dir]);
      var d := st.open[told.dir].(name := told.name, fid := told.fid, size := told.size, items := told.items);
      assert PositiveIds(d);
    }
  }

  lemma {:induction false} AllKeyed(st: Restored, tolds: seq<Told>)
    requires Keyed(st.open) && OpensPositive(tolds) && TakeAll(st, tolds).Some?
    ensures Keyed(TakeAll(st, tolds).value.open)
    decreases |tolds|
  {
    hide Keyed, Take;
    if tolds != [] {
      assert tolds[0] in tolds;
      TakeKeyed(st, tolds[0]);
      AllKeyed(Take(st, tolds[0]).value, tolds[1..]);
    }
  }

  /** Whatever is read from a file has a root with id 1, and positive ids. */
  lemma {:induction false} ReadPositive(texts: seq<string>)
    requires ReadTolds(Tells(texts)).Some?
    ensures var root := ReadTolds(Tells(texts)).value.root; root.id == 1 && PositiveIds(root)
  {
    forall told | told in Tells(texts) && told.Opens?
      ensures told.id > 0
    {
      var i :| 0 <= i < |texts| && Tells(texts)[i] == told;
      TellsPositive(texts[i]);
    }
    AllKeyed(START, Tells(texts));
  }

  // ---------------------------------------------------------------- what can be read from a save

  /** No directory is opened twice, and only the root is closed under the id 1. */
  ghost predicate Tame(tolds: seq<Told>) {
    && (forall i, j :: 0 <= i < j < |tolds| && tolds[i].Opens? && tolds[j].Opens? ==> tolds[i].id != tolds[j].id)
    && (forall i :: 0 <= i < |tolds| && tolds[i].Opens? ==> tolds[i].id > 0)
    && (forall i :: 0 <= i < |tolds| && tolds[i].Entry? && tolds[i].dir == 1 ==> tolds[i].name == "")
  }

  ghost function OpenedIn(tolds: seq<Told>): set<int> {
    set i | 0 <= i < |tolds| && tolds[i].Opens? :: tolds[i].id
  }

  /** The open trees share no id, and all of their ids were opened. */
  ghost predicate Forest(open: map<int, Dir>, opened': set<int>, max: nat) {
    && (forall k :: k in open ==> open[k].id == k && UniqueIds(open[k]) && Ids(open[k]) <= opened')
    && (forall j, k :: j in open && k in open && j != k ==> Ids(open[j]) !! Ids(open[k]))
    && (forall x :: x in opened' ==> 0 < x <= max)
    && (1 in open ==> open[1].name == "")
  }

  lemma {:induction false} ForestOpen(open: map<int, Dir>, ids: set<int>, max: nat, id: nat)
    requires Forest(open, ids, max) && id !in ids && id > 0
    ensures Forest(open[id := Blank(id)], ids + {id}, Larger(max, id))
  {
    forall k | k in open
      ensures id !in Ids(open[k])
    {
      assert Ids(open[k]) <= ids;
    }
    var b, open' := Blank(id), open[id := Blank(id)];
    assert Ids(b) == {id} && UniqueIds(b);
    forall j, k | j in open' && k in open' && j != k
      ensures Ids(open'[j]) !! Ids(open'[k])
    {
    }
  }

  lemma {:induction false} ForestChange(open: map<int, Dir>, ids: set<int>, max: nat, k: int, d: Dir)
    requires Forest(open, ids, max) && k in open && d.id == k && d.dirs == open[k].dirs && (k == 1 ==> d.name == "")
    ensures Forest(open[k := d], ids, max)
  {
    assert Ids(d) == Ids(open[k]);
  }

  lemma {:induction false} IdsSnoc(ds: seq<Dir>, d: Dir)
    ensures IdsOf(ds + [d]) == IdsOf(ds) + Ids(d)
    ensures UniqueIdsOf(ds) && UniqueIds(d) && IdsOf(ds) !! Ids(d) ==> UniqueIdsOf(ds + [d])
    decreases |ds|
  {
    if ds == [] {
      assert ds + [d] == [d] && [d][1..] == [];
    } else {
      assert (ds + [d])[1..] == ds[1..] + [d] && (ds + [d])[0] == ds[0];
      IdsSnoc(ds[1..], d);
    }
  }

  lemma {:induction false} ForestLink(open: map<int, Dir>, ids: set<int>, max: nat, p: int, k: int, d: Dir)
    requires Forest(open, ids, max) && p in open && k in open && d.id == k && d.dirs == open[k].dirs
    ensures Forest(open[p := open[p].(dirs := open[p].dirs + [d])] - {k}, ids, max)
  {
    if p != k {
      IdsSnoc(open[p].dirs, d);
      var p' := open[p].(dirs := open[p].dirs + [d]);
      assert Ids(d) == Ids(open[k]) && open[p].id in Ids(open[p]);
      assert Ids(p') == Ids(open[p]) + Ids(open[k]);
      assert UniqueIds(p');
    }
  }

  lemma {:induction false} TameTaken(tolds: seq<Told>)
    requires Tame(tolds) && TakeAll(START, tolds).Some?
    ensures var st := TakeAll(START, tolds).value; Forest(st.open, OpenedIn(tolds), st.max)
    decreases |tolds|
  {
    if tolds != [] {
      var n := |tolds| - 1;
      var before, told := tolds[..n], tolds[n];
      assert tolds == before + [told];
      TakeConcat(START, before, [told]);
      TameTaken(before);
      var st := TakeAll(START, before).value;
      TakeOne(st, told);
      OpenedSnoc(before, told);
      if told.Opens? {
        assert told.id !in OpenedIn(before);
        ForestOpen(st.open, OpenedIn(before), st.max, told.id);
      } else if told.Entry? {
        TameEntry(st, told, OpenedIn(before));
      }
    }
  }

  lemma {:induction false} TameEntry(st: Restored, told: Told, ids: set<int>)
    requires Forest(st.open, ids, st.max) && told.Entry? && (told.dir == 1 ==> told.name == "") && Take(st, told).Some?
    ensures Forest(Take(st, told).value.open, ids, st.max) && Take(st, told).value.max == st.max
  {
    var Entry(pid, fid, size, dir, items, name) := told;
    if dir == 0 {
      var p := st.open[pid];
      ForestChange(st.open, ids, st.max, pid, p.(files := p.files + [File(name, fid, size)]));
    } else {
      var d := st.open[dir].(name := name, fid := fid, size := size, items := items);
      if pid == 0 {
        ForestChange(st.open, ids, st.max, dir, d);
      } else {
        ForestLink(st.open, ids, st.max, pid, dir, d);
      }
    }
  }

  lemma {:induction false} OpenedSnoc(tolds: seq<Told>, told: Told)
    ensures OpenedIn(tolds + [told]) == OpenedIn(tolds) + if told.Opens? then {told.id as int} else {}
  {
    var all := tolds + [told];
    assert all[|tolds|] == told && forall i :: 0 <= i < |tolds| ==> all[i] == tolds[i];
  }

  /** A tree read from the lines of a scan, however few of them are there, can be scanned against. */
  lemma {:induction false} TameTree(tolds: seq<Told>)
    requires Tame(tolds) && ReadTolds(tolds).Some?
    ensures var tree := ReadTolds(tolds).value;
            && UniqueIds(tree.root) && tree.root.id == 1 && tree.root.name == ""
            && forall x :: x in Ids(tree.root) ==> 0 < x <= tree.maxid
  {
    TameTaken(tolds);
  }

  // ---------------------------------------------------------------- every print is tame

  /** Opening lines whose ids are all different, and different from those in `x`. */
  lemma {:induction false} QuietTame(lines: seq<Line>, x: set<int>)
    requires Cache.Quiet(Store.AsAdded(lines), x)
    ensures forall i :: 0 <= i < |lines| && lines[i].PathLine? ==> lines[i].id !in x
    ensures forall i, j :: 0 <= i < j < |lines| && lines[i].PathLine? && lines[j].PathLine?
                           ==> lines[i].id != lines[j].id
    decreases |lines|
  {
    if lines != [] {
      var first := lines[0].(act := Add);
      assert Store.AsAdded(lines)[0] == first && Store.AsAdded(lines)[1..] == Store.AsAdded(lines[1..]);
      QuietTame(lines[1..], x + Cache.Adding(first));
      assert forall i :: 1 <= i < |lines| ==> lines[i] == lines[1..][i - 1];
    }
  }

  /** Lines about directories: their ids are positive, and the id 1 is closed with an empty name only. */
  ghost predicate Rooted1(lines: seq<Line>) {
    forall line :: line in lines ==>
                     if line.PathLine? then line.id > 0 else line.dir == 1 ==> line.name == ""
  }

  lemma {:induction false} BodyRooted(d: Dir, path: Path)
    requires PositiveIds(d) && 1 !in IdsOf(d.dirs)
    ensures Rooted1(Body(Act.Plain, d, path))
    decreases d, 1
  {
    EntriesRooted(d.dirs, d.files, d.id, path);
    BodiesRooted(d.dirs, path);
  }

  lemma {:induction false} EntriesRooted(ds: seq<Dir>, fs: seq<File>, pid: nat, path: Path)
    requires (forall i :: 0 <= i < |ds| ==> PositiveIds(ds[i])) && 1 !in IdsOf(ds)
    ensures Rooted1(OpenLines(Act.Plain, ds, path)) && Rooted1(FileLines(Act.Plain, pid, fs))
            && Rooted1(CloseLines(Act.Plain, pid, ds))
    decreases |ds| + |fs|
  {
    if ds != [] {
      assert ds[0].id in Ids(ds[0]);
      EntriesRooted(ds[1..], fs, pid, path);
    }
    if fs != [] {
      EntriesRooted(ds, fs[1..], pid, path);
    }
  }

  lemma {:induction false} BodiesRooted(ds: seq<Dir>, path: Path)
    requires (forall i :: 0 <= i < |ds| ==> PositiveIds(ds[i])) && 1 !in IdsOf(ds)
    ensures Rooted1(Bodies(Act.Plain, ds, path))
    decreases ds, 0
  {
    if ds != [] {
      assert forall x :: x in IdsOf(ds[0].dirs) ==> x in Ids(ds[0]);
      BodyRooted(ds[0], path + [ds[0].name]);
      BodiesRooted(ds[1..], path);
    }
  }

  /** The lines of a scan are tame, and so is any beginning of them. */
  lemma {:induction false} PrintTame(patch: seq<Line>, t: Dir)
    requires IsPatch(patch) && PositiveIds(t) && UniqueIds(t) && t.id == 1 && t.name == ""
    ensures Tame(Meanings(patch + Print(t)))
  {
    hide Body, Cache.Quiet;
    var lines, n := patch + Print(t), |patch|;
    var tolds := Meanings(lines);
    Q.PrintQuiet(t);
    QuietTame(Print(t), {});
    BodyRooted(t, []);
    assert Print(t) == [PathLine(Act.Plain, 1, [])] + Body(Act.Plain, t, []) + [DirLine(Act.Plain, 0, t)];
    assert Rooted1(Print(t));
    assert forall i :: 0 <= i < n ==> lines[i] == patch[i] && patch[i] in patch && tolds[i] == Skipped;
    assert forall i :: n <= i < |lines| ==> lines[i] == Print(t)[i - n] && Print(t)[i - n] in Print(t);
    forall i | n <= i < |lines|
      ensures TellsLine(tolds[i], lines[i])
    {
      assert tolds[i] == Meaning(lines[i]);
    }
  }

  ghost predicate TellsLine(told: Told, line: Line) {
    && (told.Opens? ==> line.PathLine? && told.id == line.id > 0)
    && (told.Entry? ==> line.EntryLine? && told.dir == line.dir && told.name == line.name)
  }

  lemma TamePart(tolds: seq<Told>, k: nat)
    requires Tame(tolds) && k <= |tolds|
    ensures Tame(tolds[..k])
  {
  }
}
