/** The tree that a full scan of a share builds. */
module Scan {
  import opened Names
  import opened Trees

  /** What a walker shows of a directory, each kind sorted by name: `entered` is false for a
      subdirectory that cannot be entered. Directories carry no size of their own. */
  datatype Node = Node(subs: seq<Sub>, files: seq<Plain>)
  datatype Sub = Sub(name: string, entered: bool, node: Node)
  datatype Plain = Plain(name: string, size: nat)

  function SubNames(subs: seq<Sub>): seq<string> {
    seq(|subs|, i requires 0 <= i < |subs| => subs[i].name)
  }

  function PlainNames(files: seq<Plain>): seq<string> {
    seq(|files|, i requires 0 <= i < |files| => files[i].name)
  }

  /** Printable names, strictly sorted within their kind, at every level. */
  ghost predicate Proper(n: Node) {
    && Sorted(SubNames(n.subs)) && Sorted(PlainNames(n.files))
    && (forall i :: 0 <= i < |n.subs| ==> GoodName(n.subs[i].name) && Proper(n.subs[i].node))
    && (forall i :: 0 <= i < |n.files| ==> GoodName(n.files[i].name))
  }

  datatype Scanned = Scanned(dir: Dir, next: nat)
  datatype ScannedAll = ScannedAll(dirs: seq<Dir>, next: nat)

  function Numbering(files: seq<Plain>, fid: nat): seq<File> {
    if files == [] then []
    else [File(files[0].name, fid, files[0].size)] + Numbering(files[1..], fid + 1)
  }

  function SizesOf(ds: seq<Dir>): nat {
    if ds == [] then 0 else ds[0].size + SizesOf(ds[1..])
  }

  lemma {:induction false} SizesOfSums(d: Dir, a: seq<Dir>, b: seq<Dir>)
    ensures SizesOf([]) == 0 && SizesOf([d]) == d.size && SizesOf(a + b) == SizesOf(a) + SizesOf(b)
    decreases |a|
  {
    assert [d][1..] == [];
    if a == [] {
      assert a + b == b;
    } else {
      assert (a + b)[1..] == a[1..] + b && (a + b)[0] == a[0];
      SizesOfSums(d, a[1..], b);
    }
  }

  /** A directory with its listing, counted and summed up. */
  function Listed(name: string, id: nat, fid: nat, dirs: seq<Dir>, files: seq<File>): Dir {
    Dir(name, id, fid, FilesTotal(files) + SizesOf(dirs), |dirs| + |files|, dirs, files)
  }

  /** Entering a directory gives its subdirectories the next ids, in order, before any of them is
      entered in turn. */
  function ScanDir(name: string, id: nat, fid: nat, n: Node, next: nat): Scanned
    decreases n, 1
  {
    var all := ScanSubs(n.subs, next, 0, next + |n.subs|);
    Scanned(Listed(name, id, fid, all.dirs, Numbering(n.files, |n.subs|)), all.next)
  }

  function ScanSub(sub: Sub, id: nat, fid: nat, next: nat): Scanned
    decreases sub, 0
  {
    if sub.entered then ScanDir(sub.name, id, fid, sub.node, next)
    else Scanned(Listed(sub.name, id, fid, [], []), next)
  }

  function ScanSubs(subs: seq<Sub>, id: nat, fid: nat, next: nat): ScannedAll
    decreases subs, 0
  {
    if subs == [] then ScannedAll([], next)
    else
      var first := ScanSub(subs[0], id, fid, next);
      var rest := ScanSubs(subs[1..], id + 1, fid + 1, first.next);
      ScannedAll([first.dir] + rest.dirs, rest.next)
  }

  /** dt_reverse: the root has id 1 and the empty name. */
  function FullScan(n: Node): Dir {
    ScanDir("", 1, 0, n, 2).dir
  }

  // ---------------------------------------------------------------- shape

  lemma {:induction false} NumberingShape(files: seq<Plain>, fid: nat)
    ensures |Numbering(files, fid)| == |files|
    ensures forall i :: 0 <= i < |files| ==> Numbering(files, fid)[i] == File(files[i].name, fid + i, files[i].size)
    decreases |files|
  {
    if files != [] {
      NumberingShape(files[1..], fid + 1);
    }
  }

  lemma {:induction false} ScanSubsShape(subs: seq<Sub>, id: nat, fid: nat, next: nat)
    ensures var dirs := ScanSubs(subs, id, fid, next).dirs;
            && |dirs| == |subs|
            && forall i :: 0 <= i < |subs|
                           ==> dirs[i].name == subs[i].name && dirs[i].fid == fid + i && dirs[i].id == id + i
    ensures next <= ScanSubs(subs, id, fid, next).next
    decreases subs, 0
  {
    if subs != [] {
      var first := ScanSub(subs[0], id, fid, next);
      var rest := ScanSubs(subs[1..], id + 1, fid + 1, first.next).dirs;
      ScanSubShape(subs[0], id, fid, next);
      ScanSubsShape(subs[1..], id + 1, fid + 1, first.next);
      assert forall i :: 1 <= i < |subs| ==> ([first.dir] + rest)[i] == rest[i - 1] && subs[1..][i - 1] == subs[i];
    }
  }

  lemma {:induction false} ScanSubShape(sub: Sub, id: nat, fid: nat, next: nat)
    ensures var r := ScanSub(sub, id, fid, next);
            r.dir.name == sub.name && r.dir.fid == fid && r.dir.id == id && next <= r.next
    decreases sub, 0
  {
    if sub.entered {
      assert sub.node < sub;
      ScanSubsShape(sub.node.subs, next, 0, next + |sub.node.subs|);
    }
  }

  /** A scanned directory is canonical, whatever id and position it is given. */
  lemma {:induction false} ScanCanonical(name: string, id: nat, fid: nat, n: Node, next: nat)
    requires Proper(n) && id > 0 && next > 0
    ensures var r := ScanDir(name, id, fid, n, next);
            && Canonical(r.dir) && SizesTrue(r.dir) && r.dir.name == name && r.dir.id == id && r.dir.fid == fid
            && next <= r.next
    decreases n, 1
  {
    var all := ScanSubs(n.subs, next, 0, next + |n.subs|);
    ScanSubsShape(n.subs, next, 0, next + |n.subs|);
    ScanSubsCanonical(n.subs, next, 0, next + |n.subs|);
    NumberingShape(n.files, |n.subs|);
    assert DirNames(all.dirs) == SubNames(n.subs);
    assert FileNames(Numbering(n.files, |n.subs|)) == PlainNames(n.files);
    forall i | 0 <= i < |n.subs|
      ensures GoodName(all.dirs[i].name)
    {
      assert all.dirs[i].name == n.subs[i].name;
    }
    ListedCanonical(name, id, fid, all.dirs, Numbering(n.files, |n.subs|));
  }

  lemma {:induction false} ListedCanonical(name: string, id: nat, fid: nat, dirs: seq<Dir>, files: seq<File>)
    requires id > 0 && Sorted(DirNames(dirs)) && Sorted(FileNames(files))
    requires forall i :: 0 <= i < |dirs| ==> dirs[i].fid == i && GoodName(dirs[i].name)
    requires forall i :: 0 <= i < |files| ==> files[i].fid == |dirs| + i && GoodName(files[i].name)
    requires forall d :: d in dirs ==> Canonical(d) && SizesTrue(d)
    ensures Canonical(Listed(name, id, fid, dirs, files)) && SizesTrue(Listed(name, id, fid, dirs, files))
  {
    hide Sorted, GoodName;
    SizesTotal(dirs);
  }

  lemma {:induction false} ScanSubCanonical(sub: Sub, id: nat, fid: nat, next: nat)
    requires Proper(sub.node) && id > 0 && next > 0
    ensures var r := ScanSub(sub, id, fid, next);
            Canonical(r.dir) && SizesTrue(r.dir) && next <= r.next
    decreases sub, 0
  {
    if sub.entered {
      assert sub.node < sub;
      ScanCanonical(sub.name, id, fid, sub.node, next);
    } else {
      assert Canonical(Listed(sub.name, id, fid, [], []));
    }
  }

  lemma {:induction false} ScanSubsCanonical(subs: seq<Sub>, id: nat, fid: nat, next: nat)
    requires id > 0 && next > 0 && forall i :: 0 <= i < |subs| ==> Proper(subs[i].node)
    ensures forall d :: d in ScanSubs(subs, id, fid, next).dirs ==> Canonical(d) && SizesTrue(d)
    decreases subs, 0
  {
    if subs != [] {
      var first := ScanSub(subs[0], id, fid, next);
      var rest := ScanSubs(subs[1..], id + 1, fid + 1, first.next).dirs;
      ScanSubCanonical(subs[0], id, fid, next);
      ScanSubsCanonical(subs[1..], id + 1, fid + 1, first.next);
      assert ScanSubs(subs, id, fid, next).dirs == [first.dir] + rest;
    }
  }

  lemma {:induction false} SizesTotal(ds: seq<Dir>)
    requires forall i :: 0 <= i < |ds| ==> SizesTrue(ds[i])
    ensures SizesOf(ds) == TotalOf(ds)
    decreases |ds|
  {
    if ds != [] {
      SizesTotal(ds[1..]);
    }
  }

  // ---------------------------------------------------------------- ids

  /** All of the given ids lie in a range. */
  ghost predicate Between(ids: set<int>, lo: int, hi: int) {
    forall x :: x in ids ==> lo <= x < hi
  }

  lemma {:induction false} ScanIds(name: string, id: nat, fid: nat, n: Node, next: nat)
    requires id < next
    ensures var r := ScanDir(name, id, fid, n, next);
            && next <= r.next && UniqueIds(r.dir) && Between(IdsOf(r.dir.dirs), next, r.next)
    decreases n, 1
  {
    ScanSubsShape(n.subs, next, 0, next + |n.subs|);
    ScanSubsIds(n.subs, next, 0, next + |n.subs|);
  }

  lemma {:induction false} ScanSubIds(sub: Sub, id: nat, fid: nat, next: nat)
    requires id < next
    ensures var r := ScanSub(sub, id, fid, next);
            && next <= r.next && UniqueIds(r.dir) && r.dir.id == id && Between(IdsOf(r.dir.dirs), next, r.next)
    decreases sub, 0
  {
    if sub.entered {
      assert sub.node < sub;
      ScanIds(sub.name, id, fid, sub.node, next);
    }
  }

  /** The subdirectories take the ids from `id` on, everything below them those from `next` on. */
  lemma {:induction false} ScanSubsIds(subs: seq<Sub>, id: nat, fid: nat, next: nat)
    requires id + |subs| <= next
    ensures var r := ScanSubs(subs, id, fid, next);
            && next <= r.next && UniqueIdsOf(r.dirs)
            && forall x :: x in IdsOf(r.dirs) ==> id <= x < id + |subs| || next <= x < r.next
    decreases subs, 0
  {
    if subs != [] {
      var first := ScanSub(subs[0], id, fid, next);
      var rest := ScanSubs(subs[1..], id + 1, fid + 1, first.next);
      ScanSubIds(subs[0], id, fid, next);
      ScanSubsIds(subs[1..], id + 1, fid + 1, first.next);
      var all := [first.dir] + rest.dirs;
      assert all[0] == first.dir && all[1..] == rest.dirs;
      assert IdsOf(all) == Ids(first.dir) + IdsOf(rest.dirs);
      forall x | x in Ids(first.dir)
        ensures x !in IdsOf(rest.dirs) && (x == id || next <= x < first.next)
      {
      }
    }
  }

  /** The tree of a full scan can be loaded, and its sizes are sums of file sizes. */
  lemma {:induction false} FullScanCanonical(n: Node)
    requires Proper(n)
    ensures Canonical(FullScan(n)) && UniqueIds(FullScan(n)) && SizesTrue(FullScan(n))
    ensures FullScan(n).id == 1 && FullScan(n).fid == 0 && FullScan(n).name == ""
  {
    ScanCanonical("", 1, 0, n, 2);
    ScanIds("", 1, 0, n, 2);
  }
}
