/** The path of every directory of a tree, and the reload theorem that rests on them being distinct. */
module Paths {
  import opened Names
  import opened Wrappers
  import opened Trees
  import opened Store
  import opened Image

  function PathMap(d: Dir, path: Path): map<int, Path> {
    PathMapOf(d.dirs, path)[d.id := path]
  }

  function PathMapOf(ds: seq<Dir>, path: Path): map<int, Path> {
    if ds == [] then map[] else PathMap(ds[0], path + [ds[0].name]) + PathMapOf(ds[1..], path)
  }

  /** No two subdirectories of one directory have the same name. */
  ghost predicate DistinctNames(d: Dir) {
    DistinctNamesOf(d.dirs)
  }

  ghost predicate DistinctNamesOf(ds: seq<Dir>) {
    ds != [] ==>
      && (forall i :: 1 <= i < |ds| ==> ds[i].name != ds[0].name)
      && DistinctNames(ds[0]) && DistinctNamesOf(ds[1..])
  }

  ghost predicate Extends(p: Path, path: Path) {
    |path| <= |p| && p[..|path|] == path
  }

  /** Below `path`, and there in a directory called `name`. */
  ghost predicate Through(p: Path, path: Path, name: string) {
    |path| < |p| && p[..|path|] == path && p[|path|] == name
  }

  lemma {:induction false} ThroughExtends(p: Path, path: Path, name: string)
    requires Extends(p, path + [name])
    ensures Through(p, path, name)
  {
    var q := path + [name];
    assert p[|path|] == p[..|q|][|path|];
    assert p[..|path|] == p[..|q|][..|path|] == q[..|path|];
  }

  lemma {:induction false} PathsExtend(d: Dir, path: Path)
    ensures PathMap(d, path).Keys == Ids(d)
    ensures forall id :: id in Ids(d) ==> Extends(PathMap(d, path)[id], path)
    decreases d, 1
  {
    PathsThrough(d.dirs, path);
  }

  lemma {:induction false} PathsThrough(ds: seq<Dir>, path: Path)
    ensures PathMapOf(ds, path).Keys == IdsOf(ds)
    ensures forall id :: id in IdsOf(ds) ==>
                           exists i :: 0 <= i < |ds| && Through(PathMapOf(ds, path)[id], path, ds[i].name)
    decreases ds, 0
  {
    if ds != [] {
      PathsExtend(ds[0], path + [ds[0].name]);
      PathsThrough(ds[1..], path);
      forall id | id in IdsOf(ds)
        ensures exists i :: 0 <= i < |ds| && Through(PathMapOf(ds, path)[id], path, ds[i].name)
      {
        if id in IdsOf(ds[1..]) {
          var i :| 0 <= i < |ds[1..]| && Through(PathMapOf(ds[1..], path)[id], path, ds[1..][i].name);
          assert ds[1..][i] == ds[i + 1];
        } else {
          ThroughExtends(PathMap(ds[0], path + [ds[0].name])[id], path, ds[0].name);
        }
      }
    }
  }

  /** Distinct directories have distinct paths. */
  lemma {:induction false} PathsDistinct(d: Dir, path: Path)
    requires UniqueIds(d) && DistinctNames(d)
    ensures Injective(PathMap(d, path))
    decreases d, 1
  {
    PathsDistinctOf(d.dirs, path);
    PathsThrough(d.dirs, path);
  }

  lemma {:induction false} PathsDistinctOf(ds: seq<Dir>, path: Path)
    requires UniqueIdsOf(ds) && DistinctNamesOf(ds)
    ensures Injective(PathMapOf(ds, path))
    decreases ds, 0
  {
    if ds != [] {
      var p := path + [ds[0].name];
      var a, b := PathMap(ds[0], p), PathMapOf(ds[1..], path);
      PathsDistinct(ds[0], p);
      PathsDistinctOf(ds[1..], path);
      PathsExtend(ds[0], p);
      PathsThrough(ds[1..], path);
      forall i, j | i in a && j in b
        ensures a[i] != b[j]
      {
        ThroughExtends(a[i], path, ds[0].name);
        var k :| 0 <= k < |ds[1..]| && Through(b[j], path, ds[1..][k].name);
        assert ds[1..][k] == ds[k + 1];
      }
      UnionInjective(a, b);
    }
  }

  lemma UnionInjective(a: map<int, Path>, b: map<int, Path>)
    requires Injective(a) && Injective(b) && a.Keys !! b.Keys
    requires forall i, j :: i in a && j in b ==> a[i] != b[j]
    ensures Injective(a + b)
  {
  }

  ghost predicate SubMap(a: map<int, Path>, g: map<int, Path>) {
    forall id :: id in a ==> id in g && g[id] == a[id]
  }

  lemma {:induction false} PathMapPlaces(d: Dir, path: Path, g: map<int, Path>)
    requires UniqueIds(d) && SubMap(PathMap(d, path), g)
    ensures Placed(d, path, g)
    decreases d, 1
  {
    PathsThrough(d.dirs, path);
    PathMapPlacesOf(d.dirs, path, g);
  }

  lemma {:induction false} PathMapPlacesOf(ds: seq<Dir>, path: Path, g: map<int, Path>)
    requires UniqueIdsOf(ds) && SubMap(PathMapOf(ds, path), g)
    ensures PlacedOf(ds, path, g)
    decreases ds, 0
  {
    if ds != [] {
      PathsExtend(ds[0], path + [ds[0].name]);
      PathsThrough(ds[1..], path);
      PathMapPlaces(ds[0], path + [ds[0].name], g);
      PathMapPlacesOf(ds[1..], path, g);
    }
  }

  lemma {:induction false} CanonicalNames(d: Dir)
    requires Canonical(d)
    ensures DistinctNames(d)
    decreases d, 1
  {
    CanonicalNamesOf(d.dirs);
  }

  lemma {:induction false} CanonicalNamesOf(ds: seq<Dir>)
    requires Sorted(DirNames(ds)) && forall i :: 0 <= i < |ds| ==> Canonical(ds[i])
    ensures DistinctNamesOf(ds)
    decreases ds, 0
  {
    if ds != [] {
      forall i | 1 <= i < |ds|
        ensures ds[i].name != ds[0].name
      {
        assert Less(DirNames(ds)[0], DirNames(ds)[i]);
        Trichotomy(ds[0].name, ds[i].name);
      }
      CanonicalNames(ds[0]);
      forall i, j | 0 <= i < j < |ds[1..]|
        ensures Less(DirNames(ds[1..])[i], DirNames(ds[1..])[j])
      {
        assert Less(DirNames(ds)[i + 1], DirNames(ds)[j + 1]);
      }
      CanonicalNamesOf(ds[1..]);
    }
  }

  lemma {:induction false} CanonicalPositive(d: Dir)
    requires Canonical(d)
    ensures PositiveIds(d)
  {
    forall i | 0 <= i < |d.dirs|
      ensures PositiveIds(d.dirs[i])
    {
      CanonicalPositive(d.dirs[i]);
    }
  }

  // ---------------------------------------------------------------- reload

  lemma {:induction false} AsAddedConcat(a: seq<Line>, b: seq<Line>)
    ensures AsAdded(a + b) == AsAdded(a) + AsAdded(b)
    decreases |a|
  {
    if a == [] {
      assert a + b == b;
    } else {
      assert (a + b)[1..] == a[1..] + b;
      AsAddedConcat(a[1..], b);
    }
  }

  lemma {:induction false} AddedOpen(ds: seq<Dir>, path: Path)
    ensures AsAdded(OpenLines(Plain, ds, path)) == OpenLines(Add, ds, path)
    decreases |ds|
  {
    if ds != [] { AddedOpen(ds[1..], path); }
  }

  lemma {:induction false} AddedFiles(pid: nat, fs: seq<File>)
    ensures AsAdded(FileLines(Plain, pid, fs)) == FileLines(Add, pid, fs)
    decreases |fs|
  {
    if fs != [] { AddedFiles(pid, fs[1..]); }
  }

  lemma {:induction false} AddedClose(pid: nat, ds: seq<Dir>)
    ensures AsAdded(CloseLines(Plain, pid, ds)) == CloseLines(Add, pid, ds)
    decreases |ds|
  {
    if ds != [] { AddedClose(pid, ds[1..]); }
  }

  lemma {:induction false} AddedBody(d: Dir, path: Path)
    ensures AsAdded(Body(Plain, d, path)) == Body(Add, d, path)
    decreases d, 1
  {
    var a, b, c, e := OpenLines(Plain, d.dirs, path), FileLines(Plain, d.id, d.files),
                      Bodies(Plain, d.dirs, path), CloseLines(Plain, d.id, d.dirs);
    AddedOpen(d.dirs, path);
    AddedFiles(d.id, d.files);
    AddedBodies(d.dirs, path);
    AddedClose(d.id, d.dirs);
    AsAddedConcat(a, b);
    AsAddedConcat(a + b, c);
    AsAddedConcat(a + b + c, e);
  }

  lemma {:induction false} AddedBodies(ds: seq<Dir>, path: Path)
    ensures AsAdded(Bodies(Plain, ds, path)) == Bodies(Add, ds, path)
    decreases ds, 0
  {
    if ds != [] {
      AddedBody(ds[0], path + [ds[0].name]);
      AddedBodies(ds[1..], path);
      AsAddedConcat(Body(Plain, ds[0], path + [ds[0].name]), Bodies(Plain, ds[1..], path));
    }
  }

  lemma {:induction false} AddedPrint(root: Dir)
    ensures AsAdded(Print(root)) == TreeLines(Add, root, 0, [])
  {
    var a, b, c := [PathLine(Plain, root.id, [])], Body(Plain, root, []), [DirLine(Plain, 0, root)];
    AsAddedConcat(a, b);
    AsAddedConcat(a + b, c);
    AddedBody(root, []);
    assert a[1..] == [] && c[1..] == [];
  }

  /** A full load of a printed tree, starting from a tree without rows, gives exactly the tree's
      rows, and the size of the share is the size of its root. */
  lemma {:induction false} LoadGivesImage(root: Dir)
    requires Canonical(root) && UniqueIds(root)
    ensures Run(Spider(EMPTY, map[], None), AsAdded(Print(root)))
         == Some(Spider(TablesOf(root), map[], Some(root.size)))
  {
    AddedPrint(root);
    CanonicalNames(root);
    CanonicalPositive(root);
    CanonicalDistinct(root);
    var g := PathMap(root, []);
    PathsDistinct(root, []);
    PathMapPlaces(root, [], g);
    var s0 := Spider(EMPTY, map[], None);
    StepOpen(s0, root.id, [], g);
    var rec := Rec([], None, None, 0, 0, map[]);
    var s1 := Spider(Tables(map[root.id := rec], map[]), map[root.id := false], None);
    assert map[][root.id := rec] == map[root.id := rec];
    assert map[][root.id := false] == map[root.id := false];
    var s2 := AddBody(s1, root, [], g);
    CloseRoot(s2, root);
    hide Step;
    var body := Body(Add, root, []);
    RunCons(s0, PathLine(Add, root.id, []), body + [DirLine(Add, 0, root)], s1);
    assert TreeLines(Add, root, 0, []) == [PathLine(Add, root.id, [])] + (body + [DirLine(Add, 0, root)]);
    RunConcat(s1, body, [DirLine(Add, 0, root)]);
    RunOne(s2, DirLine(Add, 0, root));
    RecsOfKeys(root.dirs, [], root.id);
    LoadedRows(root, rec);
    assert s2.buffer - {root.id} == map[];
  }

  lemma LoadedRows(root: Dir, rec: Rec)
    requires root.id !in RecsOf(root.dirs, [], root.id)
    ensures (map[root.id := rec][root.id := rec.(rows := RowsOf(root))] + RecsOf(root.dirs, [], root.id))
            [root.id := Rec([], Some(0), Some(root.fid), root.items, root.size, RowsOf(root))]
         == Recs(root, [], 0)
  {
  }

  lemma {:induction false} CloseRoot(s: Spider, root: Dir)
    requires root.id > 0 && root.id in s.t.dirs && !Modified(s.buffer, root.id)
    ensures var rec := s.t.dirs[root.id].(parent := Some(0), slot := Some(root.fid), items := root.items,
                       size := root.size);
            Step(s, DirLine(Add, 0, root))
            == Some(Spider(s.t.(dirs := s.t.dirs[root.id := rec]), s.buffer - {root.id}, Some(root.size)))
  {
    var u := UpdatePath(root.id, 0, root.fid, root.items, root.size);
    assert [u] + [] == [u];
    assert ExecAll(s.t, [u]) == Exec(s.t, u);
  }
}
