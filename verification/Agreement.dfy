/** The tables agree with each other: back references in `paths` and rows in `files` are two views
    of one tree. Going up through them is going up in the tree. */
module Agreement {
  import opened Wrappers
  import opened Trees
  import opened Store
  import opened Image

  ghost predicate Submap(a: map<int, Rec>, b: map<int, Rec>) {
    forall id :: id in a ==> id in b && b[id] == a[id]
  }

  /** The row of a directory in its parent's listing is where its `paths` row says, with its size and
      the last name of its path. */
  ghost predicate Linked(dirs: map<int, Rec>, id: int) {
    && id in dirs && dirs[id].parent.Some? && dirs[id].slot.Some?
    && var p, f := dirs[id].parent.value, dirs[id].slot.value;
    && p in dirs && f in dirs[p].rows && dirs[p].rows[f].dir == id && dirs[p].rows[f].size == dirs[id].size
    && dirs[id].path == dirs[p].path + [dirs[p].rows[f].name]
  }

  /** Every row of a directory leads to a directory that refers back to it; the count is right. */
  ghost predicate Lists(dirs: map<int, Rec>, id: int) {
    && id in dirs && dirs[id].items == |dirs[id].rows|
    && forall f :: f in dirs[id].rows && dirs[id].rows[f].dir > 0 ==>
                     var c := dirs[id].rows[f].dir;
                     c in dirs && dirs[c].parent == Some(id) && dirs[c].slot == Some(f)
  }

  /** The root has no parent and the empty path; everything else is linked. */
  ghost predicate Agrees(dirs: map<int, Rec>, root: int) {
    && root in dirs && dirs[root].parent == Some(0) && dirs[root].path == [] && 0 !in dirs
    && (forall id :: id in dirs ==> Lists(dirs, id))
    && (forall id :: id in dirs && id != root ==> Linked(dirs, id))
  }

  // ---------------------------------------------------------------- rows of a listing

  lemma {:induction false} DirRowsAt(ds: seq<Dir>, s: nat)
    requires forall i :: 0 <= i < |ds| ==> ds[i].fid == s + i
    ensures forall f :: f in DirRows(ds) <==> s <= f < s + |ds|
    ensures forall f :: f in DirRows(ds) ==> DirRows(ds)[f] == DirRow(ds[f - s])
    decreases |ds|
  {
    if ds != [] {
      assert forall i :: 0 <= i < |ds| - 1 ==> ds[1..][i] == ds[i + 1];
      DirRowsAt(ds[1..], s + 1);
    }
  }

  lemma {:induction false} FileRowsAt(fs: seq<File>, s: nat)
    requires forall i :: 0 <= i < |fs| ==> fs[i].fid == s + i
    ensures forall f :: f in FileRows(fs) <==> s <= f < s + |fs|
    ensures forall f :: f in FileRows(fs) ==> FileRows(fs)[f] == FileRow(fs[f - s])
    decreases |fs|
  {
    if fs != [] {
      assert forall i :: 0 <= i < |fs| - 1 ==> fs[1..][i] == fs[i + 1];
      FileRowsAt(fs[1..], s + 1);
    }
  }

  lemma {:induction false} RangeSize(m: map<int, Row>, n: nat)
    requires forall f :: f in m <==> 0 <= f < n
    ensures |m| == n
    decreases n
  {
    if n == 0 {
      assert forall f :: f !in m;
      assert m.Keys == {};
    } else {
      var rest := m - {n - 1};
      RangeSize(rest, n - 1);
      assert m == rest[n - 1 := m[n - 1]];
    }
  }

  lemma {:induction false} RowsAt(d: Dir)
    requires Numbered(d)
    ensures forall f :: f in RowsOf(d) <==> 0 <= f < d.items
    ensures forall f :: 0 <= f < |d.dirs| ==> RowsOf(d)[f] == DirRow(d.dirs[f])
    ensures forall f :: |d.dirs| <= f < d.items ==> RowsOf(d)[f].dir == 0
  {
    DirRowsAt(d.dirs, 0);
    FileRowsAt(d.files, |d.dirs|);
    hide DirRows, FileRows;
    forall f
      ensures f in RowsOf(d) <==> 0 <= f < d.items
      ensures 0 <= f < |d.dirs| ==> RowsOf(d)[f] == DirRow(d.dirs[f])
      ensures |d.dirs| <= f < d.items ==> RowsOf(d)[f].dir == 0
    {
      RowAt(FileRows(d.files), DirRows(d.dirs), f);
    }
  }

  lemma RowAt(a: map<int, Row>, b: map<int, Row>, f: int)
    ensures f in a + b <==> f in a || f in b
    ensures f in b ==> (a + b)[f] == b[f]
    ensures f in a && f !in b ==> (a + b)[f] == a[f]
  {
  }

  lemma {:induction false} RowsCount(d: Dir)
    requires Numbered(d)
    ensures |RowsOf(d)| == d.items
  {
    hide RowsOf;
    RowsAt(d);
    RangeSize(RowsOf(d), d.items);
  }

  // ---------------------------------------------------------------- the tables of a tree

  lemma {:induction false} ChildRecs(ds: seq<Dir>, path: Path, pid: nat, i: nat)
    requires UniqueIdsOf(ds) && i < |ds|
    ensures Submap(Recs(ds[i], path + [ds[i].name], pid), RecsOf(ds, path, pid))
    decreases |ds|
  {
    RecsKeys(ds[0], path + [ds[0].name], pid);
    RecsOfKeys(ds[1..], path, pid);
    if i > 0 {
      ChildRecs(ds[1..], path, pid, i - 1);
    }
  }

  lemma {:induction false} RecsAgree(d: Dir, path: Path, pid: nat, all: map<int, Rec>)
    requires Canonical(d) && UniqueIds(d) && Submap(Recs(d, path, pid), all)
    ensures forall id :: id in Ids(d) ==> Lists(all, id)
    ensures forall id :: id in IdsOf(d.dirs) ==> Linked(all, id)
    decreases d, 1
  {
    RowsAt(d);
    RowsCount(d);
    RecsOfKeys(d.dirs, path, d.id);
    assert all[d.id] == Rec(path, Some(pid), Some(d.fid), d.items, d.size, RowsOf(d));
    assert Submap(RecsOf(d.dirs, path, d.id), all);
    RecsOfAgree(d, path, d.dirs, 0, all);
    forall f | f in RowsOf(d) && RowsOf(d)[f].dir > 0
      ensures var c := RowsOf(d)[f].dir; c in all && all[c].parent == Some(d.id) && all[c].slot == Some(f)
    {
      assert RowsOf(d)[f] == DirRow(d.dirs[f]);
      ChildRec(d.dirs, path, d.id, f, all);
    }
  }

  lemma {:induction false} ChildRec(ds: seq<Dir>, path: Path, pid: nat, i: nat, all: map<int, Rec>)
    requires UniqueIdsOf(ds) && i < |ds| && Submap(RecsOf(ds, path, pid), all)
    ensures var c := ds[i];
            c.id in all && all[c.id] == Rec(path + [c.name], Some(pid), Some(c.fid), c.items, c.size, RowsOf(c))
  {
    ChildRecs(ds, path, pid, i);
    assert ds[i].id in Recs(ds[i], path + [ds[i].name], pid);
  }

  lemma {:induction false} ChildLinked(d: Dir, path: Path, k: nat, all: map<int, Rec>)
    requires Numbered(d) && k < |d.dirs| && d.id in all && all[d.id].path == path && all[d.id].rows == RowsOf(d)
    requires var c := d.dirs[k];
             c.id in all && all[c.id] == Rec(path + [c.name], Some(d.id), Some(c.fid), c.items, c.size, RowsOf(c))
    ensures Linked(all, d.dirs[k].id)
  {
    RowsAt(d);
  }

  /** The subdirectories from position `k` on. */
  lemma {:induction false} RecsOfAgree(d: Dir, path: Path, ds: seq<Dir>, k: nat, all: map<int, Rec>)
    requires k <= |d.dirs| && ds == d.dirs[k..] && (forall i :: 0 <= i < |ds| ==> Canonical(ds[i])) && UniqueIdsOf(ds)
    requires Submap(RecsOf(ds, path, d.id), all) && Numbered(d) && d.id in all && all[d.id].path == path
             && all[d.id].rows == RowsOf(d)
    ensures forall id :: id in IdsOf(ds) ==> Lists(all, id) && Linked(all, id)
    decreases ds, 0
  {
    if ds != [] {
      hide Linked, Lists, RowsOf, Numbered, Canonical;
      var c := ds[0];
      FirstRecs(ds, path, d.id, all);
      RecsAgree(c, path + [c.name], d.id, all);
      assert d.dirs[k] == c && ds[1..] == d.dirs[k + 1..];
      ChildLinked(d, path, k, all);
      RecsOfAgree(d, path, ds[1..], k + 1, all);
      hide Recs, RecsOf;
      forall id | id in IdsOf(ds)
        ensures Lists(all, id) && Linked(all, id)
      {
        assert id in Ids(c) || id in IdsOf(ds[1..]);
      }
    }
  }

  lemma {:induction false} FirstRecs(ds: seq<Dir>, path: Path, pid: nat, all: map<int, Rec>)
    requires ds != [] && UniqueIdsOf(ds) && Submap(RecsOf(ds, path, pid), all)
    ensures Submap(Recs(ds[0], path + [ds[0].name], pid), all) && Submap(RecsOf(ds[1..], path, pid), all)
    ensures var c := ds[0];
            c.id in all && all[c.id] == Rec(path + [c.name], Some(pid), Some(c.fid), c.items, c.size, RowsOf(c))
  {
    RecsKeys(ds[0], path + [ds[0].name], pid);
    RecsOfKeys(ds[1..], path, pid);
    ChildRecs(ds, path, pid, 0);
    ChildRec(ds, path, pid, 0, all);
  }

  /** After every load and every patch the tables agree. */
  lemma {:induction false} ImageAgrees(t: Dir)
    requires Canonical(t) && UniqueIds(t)
    ensures Agrees(TablesOf(t).dirs, t.id)
  {
    RecsKeys(t, [], 0);
    CanonicalNotZero(t);
    RecsAgree(t, [], 0, Recs(t, [], 0));
  }

  lemma {:induction false} CanonicalNotZero(d: Dir)
    requires Canonical(d)
    ensures 0 !in Ids(d)
    decreases d, 1
  {
    CanonicalNotZeroOf(d.dirs);
  }

  lemma {:induction false} CanonicalNotZeroOf(ds: seq<Dir>)
    requires forall i :: 0 <= i < |ds| ==> Canonical(ds[i])
    ensures 0 !in IdsOf(ds)
    decreases ds, 0
  {
    if ds != [] {
      CanonicalNotZero(ds[0]);
      CanonicalNotZeroOf(ds[1..]);
    }
  }

  // ---------------------------------------------------------------- path_goup

  datatype Above = Above(pathid: int, offset: int)

  /** One step up. */
  lemma {:induction false} StepUp(dirs: map<int, Rec>, root: int, id: int)
    requires Agrees(dirs, root) && id in dirs
    ensures dirs[id].parent.Some? && (dirs[id].slot.Some? || id == root)
    ensures dirs[id].parent == Some(0) <==> dirs[id].path == []
    ensures dirs[id].path != [] ==> dirs[id].slot.Some?
    ensures dirs[id].path != [] ==>
              var p, f, path := dirs[id].parent.value, dirs[id].slot.value, dirs[id].path;
              p in dirs && dirs[p].path == path[..|path| - 1] && f in dirs[p].rows && dirs[p].rows[f].dir == id
  {
    if id != root {
      assert Linked(dirs, id);
    }
  }

  /** path_goup: the directory `levels` steps up, and the position in it of the one below. It raises
      exactly when there are not that many directories above, or none are asked for. */
  method PathGoup(paths: map<int, Rec>, pathid: int, levels: int, ghost root: int) returns (r: Option<Above>)
    requires Agrees(paths, root)
    ensures r.Some? <==> pathid in paths && 1 <= levels <= |paths[pathid].path|
    ensures r.Some? ==>
              var Above(a, f) := r.value;
              var path := paths[pathid].path;
              && a in paths && paths[a].path == path[..|path| - levels] && f in paths[a].rows
              && var below := paths[a].rows[f].dir;
              below in paths && paths[below].path == path[..|path| - levels + 1]
  {
    hide Agrees;
    var lvl := levels - 1;
    if lvl < 0 || pathid !in paths {
      return None;
    }
    var id := pathid;
    ghost var path, done := paths[pathid].path, 0;
    while true
      invariant 0 <= lvl && done + lvl + 1 == levels && id in paths && done <= |path|
                && paths[id].path == path[..|path| - done]
      decreases lvl
    {
      StepUp(paths, root, id);
      var result := paths[id];
      if result.parent.value == 0 {
        return None;
      }
      ghost var up := |path| - done - 1;
      assert path[..|path| - done][..up] == path[..up];
      id := result.parent.value;
      if lvl == 0 {
        return Some(Above(id, result.slot.value));
      }
      lvl := lvl - 1;
      done := done + 1;
    }
  }
}
