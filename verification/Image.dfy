/** The rows that the tables hold for a tree, and the proof that reading a tree's lines as additions
    produces exactly those rows. */
module Image {
  import opened Wrappers
  import opened Trees
  import opened Store
  import Maps

  function DirRow(d: Dir): Row {
    Row(d.id, d.size, d.name)
  }

  function FileRow(f: File): Row {
    Row(0, f.size, f.name)
  }

  function DirRows(ds: seq<Dir>): map<int, Row> {
    if ds == [] then map[] else DirRows(ds[1..])[ds[0].fid := DirRow(ds[0])]
  }

  function FileRows(fs: seq<File>): map<int, Row> {
    if fs == [] then map[] else FileRows(fs[1..])[fs[0].fid := FileRow(fs[0])]
  }

  /** The `files` rows of one directory. */
  function RowsOf(d: Dir): map<int, Row> {
    FileRows(d.files) + DirRows(d.dirs)
  }

  /** The `paths` and `files` rows of a directory and everything below it. */
  function Recs(d: Dir, path: Path, pid: nat): map<int, Rec> {
    RecsOf(d.dirs, path, d.id)[d.id := Rec(path, Some(pid), Some(d.fid), d.items, d.size, RowsOf(d))]
  }

  function RecsOf(ds: seq<Dir>, path: Path, pid: nat): map<int, Rec> {
    if ds == [] then map[]
    else Recs(ds[0], path + [ds[0].name], pid) + RecsOf(ds[1..], path, pid)
  }

  /** The tables of a whole tree. */
  function TablesOf(root: Dir): Tables {
    Tables(Recs(root, [], 0), map[])
  }

  lemma {:induction false} RecsKeys(d: Dir, path: Path, pid: nat)
    ensures Recs(d, path, pid).Keys == Ids(d)
    decreases d, 1
  {
    RecsOfKeys(d.dirs, path, d.id);
  }

  lemma {:induction false} RecsOfKeys(ds: seq<Dir>, path: Path, pid: nat)
    ensures RecsOf(ds, path, pid).Keys == IdsOf(ds)
    decreases ds, 0
  {
    if ds != [] {
      RecsKeys(ds[0], path + [ds[0].name], pid);
      RecsOfKeys(ds[1..], path, pid);
    }
  }

  // ---------------------------------------------------------------- one path for each id

  /** A one-to-one assignment of paths to directory ids. */
  ghost predicate Injective(g: map<int, Path>) {
    forall i, j :: i in g && j in g && g[i] == g[j] ==> i == j
  }

  ghost predicate Follows(dirs: map<int, Rec>, g: map<int, Path>) {
    forall id :: id in dirs ==> id in g && g[id] == dirs[id].path
  }

  ghost predicate Placed(d: Dir, path: Path, g: map<int, Path>) {
    d.id in g && g[d.id] == path && PlacedOf(d.dirs, path, g)
  }

  ghost predicate PlacedOf(ds: seq<Dir>, path: Path, g: map<int, Path>) {
    ds != [] ==> Placed(ds[0], path + [ds[0].name], g) && PlacedOf(ds[1..], path, g)
  }

  // ---------------------------------------------------------------- the stages of a load

  /** Distinct listing positions, at every level. */
  ghost predicate DistinctFids(d: Dir) {
    && (forall i, j :: 0 <= i < j < |d.dirs| ==> d.dirs[i].fid != d.dirs[j].fid)
    && (forall i, j :: 0 <= i < j < |d.files| ==> d.files[i].fid != d.files[j].fid)
    && (forall i, j :: 0 <= i < |d.dirs| && 0 <= j < |d.files| ==> d.dirs[i].fid != d.files[j].fid)
    && (forall i :: 0 <= i < |d.dirs| ==> DistinctFids(d.dirs[i]))
  }

  lemma {:induction false} CanonicalDistinct(d: Dir)
    requires Canonical(d)
    ensures DistinctFids(d)
  {
    forall i | 0 <= i < |d.dirs|
      ensures DistinctFids(d.dirs[i])
    {
      CanonicalDistinct(d.dirs[i]);
    }
  }

  /** The ids of the given directories, without those below. */
  function Tops(ds: seq<Dir>): set<int> {
    set i | 0 <= i < |ds| :: ds[i].id
  }

  lemma TopsOf(d: Dir, ds: seq<Dir>)
    requires d in ds
    ensures d.id in Tops(ds)
  {
  }

  lemma NoTops()
    ensures Tops([]) == {}
  {
  }

  lemma {:induction false} TopsStep(ds: seq<Dir>)
    requires ds != []
    ensures Tops(ds) == {ds[0].id} + Tops(ds[1..])
  {
    assert forall i :: 1 <= i < |ds| ==> ds[i] == ds[1..][i - 1];
    assert forall i :: 0 <= i < |ds[1..]| ==> ds[1..][i] == ds[i + 1];
  }

  lemma {:induction false} TopsAmongIds(ds: seq<Dir>)
    ensures Tops(ds) <= IdsOf(ds)
    decreases |ds|
  {
    if ds != [] {
      TopsStep(ds);
      TopsAmongIds(ds[1..]);
    }
  }

  /** The ids below the given directories. */
  function BelowOf(ds: seq<Dir>): set<int> {
    if ds == [] then {} else IdsOf(ds[0].dirs) + BelowOf(ds[1..])
  }

  lemma {:induction false} TopsAndBelow(ds: seq<Dir>)
    ensures IdsOf(ds) == Tops(ds) + BelowOf(ds)
    decreases |ds|
  {
    if ds != [] {
      TopsStep(ds);
      TopsAndBelow(ds[1..]);
    }
  }

  lemma {:induction false} BelowApart(ds: seq<Dir>)
    requires UniqueIdsOf(ds)
    ensures BelowOf(ds) <= IdsOf(ds) && BelowOf(ds) !! Tops(ds)
    decreases |ds|
  {
    if ds != [] {
      BelowApart(ds[1..]);
      TopsStep(ds);
      TopsAmongIds(ds[1..]);
      forall x | x in BelowOf(ds)
        ensures x !in Tops(ds)
      {
      }
    }
  }

  /** Opened but not yet described: the row that a `0` line inserts. */
  function BlankRecs(ds: seq<Dir>, path: Path): map<int, Rec> {
    if ds == [] then map[]
    else BlankRecs(ds[1..], path)[ds[0].id := Rec(path + [ds[0].name], None, None, 0, 0, map[])]
  }

  /** Filled but not yet closed: what the lines of the bodies make of the blanks. */
  function FilledRecs(ds: seq<Dir>, path: Path): map<int, Rec> {
    if ds == [] then map[]
    else
      RecsOf(ds[0].dirs, path + [ds[0].name], ds[0].id)
      [ds[0].id := Rec(path + [ds[0].name], None, None, 0, 0, RowsOf(ds[0]))]
      + FilledRecs(ds[1..], path)
  }

  lemma {:induction false} BlanksKeys(ds: seq<Dir>, path: Path)
    ensures BlankRecs(ds, path).Keys == Tops(ds)
    decreases |ds|
  {
    if ds != [] {
      BlanksKeys(ds[1..], path);
      TopsStep(ds);
    }
  }

  lemma {:induction false} FilledKeys(ds: seq<Dir>, path: Path)
    ensures FilledRecs(ds, path).Keys == IdsOf(ds)
    decreases |ds|
  {
    if ds != [] {
      RecsOfKeys(ds[0].dirs, path + [ds[0].name], ds[0].id);
      FilledKeys(ds[1..], path);
    }
  }

  /** Reading `line` with the outcome `s'` first. */
  lemma {:induction false} RunCons(s: Spider, line: Line, rest: seq<Line>, s': Spider)
    requires Step(s, line) == Some(s')
    ensures Run(s, [line] + rest) == Run(s', rest)
  {
    assert ([line] + rest)[1..] == rest;
  }

  lemma {:induction false} StepOpen(s: Spider, id: nat, path: Path, g: map<int, Path>)
    requires id !in s.t.dirs && Injective(g) && Follows(s.t.dirs, g) && id in g && g[id] == path
    ensures Step(s, PathLine(Add, id, path))
         == Some(s.(t := s.t.(dirs := s.t.dirs[id := Rec(path, None, None, 0, 0, map[])]),
                 buffer := s.buffer[id := false]))
  {
    assert ExecAll(s.t, [InsertPath(id, path)]) == Exec(s.t, InsertPath(id, path));
  }

  lemma {:induction false} OpenAll(s: Spider, ds: seq<Dir>, path: Path, g: map<int, Path>) returns (s': Spider)
    requires UniqueIdsOf(ds) && IdsOf(ds) !! s.t.dirs.Keys
    requires Injective(g) && Follows(s.t.dirs, g) && PlacedOf(ds, path, g)
    ensures Run(s, OpenLines(Add, ds, path)) == Some(s')
    ensures s'.t == s.t.(dirs := s.t.dirs + BlankRecs(ds, path)) && s'.total == s.total
    ensures s'.buffer == s.buffer + Maps.Constant(Tops(ds), false)
    decreases |ds|
  {
    hide Step;
    if ds == [] {
      s' := s;
      Maps.UnionEmpty(s.t.dirs);
    } else {
      var d := ds[0];
      var p := path + [d.name];
      StepOpen(s, d.id, p, g);
      var s1 := Step(s, PathLine(Add, d.id, p)).value;
      RunCons(s, PathLine(Add, d.id, p), OpenLines(Add, ds[1..], path), s1);
      s' := OpenAll(s1, ds[1..], path, g);
      BlanksKeys(ds[1..], path);
      TopsAmongIds(ds[1..]);
      TopsStep(ds);
      Maps.PutThenUnion(s.t.dirs, BlankRecs(ds[1..], path), d.id, Rec(p, None, None, 0, 0, map[]));
      Maps.PutThenConstant(s.buffer, Tops(ds[1..]), d.id, false);
    }
  }

  lemma {:induction false} StepFile(s: Spider, pid: nat, f: File)
    requires pid > 0 && pid in s.t.dirs && f.fid !in s.t.dirs[pid].rows && pid in s.buffer && !s.buffer[pid]
    ensures var rec := s.t.dirs[pid].(rows := s.t.dirs[pid].rows[f.fid := FileRow(f)]);
            Step(s, FileLine(Add, pid, f)) == Some(s.(t := s.t.(dirs := s.t.dirs[pid := rec])))
  {
    var q := InsertFile(pid, f.fid, FileRow(f));
    assert [] + [q] == [q];
    assert ExecAll(s.t, [q]) == Exec(s.t, q);
  }

  lemma {:induction false} FilesAll(s: Spider, pid: nat, fs: seq<File>) returns (s': Spider)
    requires pid > 0 && pid in s.t.dirs && pid in s.buffer && !s.buffer[pid]
    requires forall i :: 0 <= i < |fs| ==> fs[i].fid !in s.t.dirs[pid].rows
    requires forall i, j :: 0 <= i < j < |fs| ==> fs[i].fid != fs[j].fid
    ensures Run(s, FileLines(Add, pid, fs)) == Some(s')
    ensures s' == s.(t := s.t.(dirs := s.t.dirs[pid := s.t.dirs[pid].(rows := s.t.dirs[pid].rows + FileRows(fs))]))
    decreases |fs|
  {
    var rows := s.t.dirs[pid].rows;
    if fs == [] {
      s' := s;
      assert rows + map[] == rows;
      assert s.t.dirs[pid := s.t.dirs[pid]] == s.t.dirs;
    } else {
      StepFile(s, pid, fs[0]);
      var s1 := Step(s, FileLine(Add, pid, fs[0])).value;
      RunCons(s, FileLine(Add, pid, fs[0]), FileLines(Add, pid, fs[1..]), s1);
      s' := FilesAll(s1, pid, fs[1..]);
      FileRowsKeys(fs[1..]);
      assert rows + FileRows(fs) == rows[fs[0].fid := FileRow(fs[0])] + FileRows(fs[1..]);
    }
  }

  lemma {:induction false} FileRowsKeys(fs: seq<File>)
    ensures forall f :: f in FileRows(fs) <==> exists i :: 0 <= i < |fs| && fs[i].fid == f
    decreases |fs|
  {
    if fs != [] {
      FileRowsKeys(fs[1..]);
      forall f
        ensures f in FileRows(fs) <==> exists i :: 0 <= i < |fs| && fs[i].fid == f
      {
        if f in FileRows(fs[1..]) {
          var i :| 0 <= i < |fs[1..]| && fs[1..][i].fid == f;
          assert fs[i + 1].fid == f;
        }
        if i :| 0 <= i < |fs| && fs[i].fid == f {
          if i > 0 { assert fs[1..][i - 1].fid == f; }
        }
      }
    }
  }

  lemma {:induction false} DirRowsKeys(ds: seq<Dir>)
    ensures forall f :: f in DirRows(ds) <==> exists i :: 0 <= i < |ds| && ds[i].fid == f
    decreases |ds|
  {
    if ds != [] {
      DirRowsKeys(ds[1..]);
      forall f
        ensures f in DirRows(ds) <==> exists i :: 0 <= i < |ds| && ds[i].fid == f
      {
        if f in DirRows(ds[1..]) {
          var i :| 0 <= i < |ds[1..]| && ds[1..][i].fid == f;
          assert ds[i + 1].fid == f;
        }
        if i :| 0 <= i < |ds| && ds[i].fid == f {
          if i > 0 { assert ds[1..][i - 1].fid == f; }
        }
      }
    }
  }

  /** The closing line of an added directory in a directory that is being added itself. */
  lemma {:induction false} StepClose(s: Spider, pid: nat, d: Dir)
    requires pid > 0 && pid in s.t.dirs && d.fid !in s.t.dirs[pid].rows && pid in s.buffer && !s.buffer[pid]
    requires d.id > 0 && d.id != pid && d.id in s.t.dirs && !Modified(s.buffer, d.id)
    ensures var rec := s.t.dirs[d.id].(parent := Some(pid), slot := Some(d.fid), items := d.items, size := d.size);
            var above := s.t.dirs[pid].(rows := s.t.dirs[pid].rows[d.fid := DirRow(d)]);
            Step(s, DirLine(Add, pid, d))
            == Some(Spider(s.t.(dirs := s.t.dirs[d.id := rec][pid := above]), s.buffer - {d.id}, s.total))
  {
    var u := UpdatePath(d.id, pid, d.fid, d.items, d.size);
    var q := InsertFile(pid, d.fid, DirRow(d));
    var t1 := Exec(s.t, u).value;
    assert [u] + [] + [q] == [u, q] && [u, q][1..] == [q];
    assert ExecAll(t1, [q]) == Exec(t1, q);
    assert ExecAll(s.t, [u, q]) == Exec(t1, q);
  }

  function ClosedRecs(base: map<int, Rec>, pid: nat, d: Dir, path: Path): map<int, Rec>
    requires pid in base
  {
    base[pid := base[pid].(rows := base[pid].rows[d.fid := DirRow(d)])] + Recs(d, path + [d.name], pid)
  }

  /** Closing the first of several filled directories. */
  lemma {:induction false} CloseOne(s: Spider, base: map<int, Rec>, pid: nat, d: Dir, later: map<int, Rec>, path: Path)
    requires pid > 0 && pid in base && pid !in Ids(d) && UniqueIds(d) && d.id > 0
    requires later.Keys !! Ids(d) && pid !in later
    requires s.t.dirs == base + (RecsOf(d.dirs, path + [d.name], d.id)
                                 [d.id := Rec(path + [d.name], None, None, 0, 0, RowsOf(d))] + later)
    requires pid in s.buffer && !s.buffer[pid] && !Modified(s.buffer, d.id)
    requires d.fid !in base[pid].rows
    ensures Step(s, DirLine(Add, pid, d))
         == Some(Spider(s.t.(dirs := ClosedRecs(base, pid, d, path) + later), s.buffer - {d.id}, s.total))
  {
    hide Step;
    var p := path + [d.name];
    RecsOfKeys(d.dirs, p, d.id);
    StepClose(s, pid, d);
    Maps.Complete(base, RecsOf(d.dirs, p, d.id), later, d.id, Rec(p, None, None, 0, 0, RowsOf(d)),
                  Rec(p, Some(pid), Some(d.fid), d.items, d.size, RowsOf(d)),
                  pid, base[pid].(rows := base[pid].rows[d.fid := DirRow(d)]));
  }

  lemma {:induction false} CloseAll(s: Spider, base: map<int, Rec>, pid: nat, ds: seq<Dir>, path: Path)
    returns (s': Spider)
    requires UniqueIdsOf(ds) && base.Keys !! IdsOf(ds) && pid > 0 && pid in base
    requires s.t.dirs == base + FilledRecs(ds, path)
    requires pid in s.buffer && !s.buffer[pid]
    requires forall i :: 0 <= i < |ds| ==> ds[i].id > 0 && !Modified(s.buffer, ds[i].id)
    requires forall i :: 0 <= i < |ds| ==> ds[i].fid !in base[pid].rows
    requires forall i, j :: 0 <= i < j < |ds| ==> ds[i].fid != ds[j].fid
    ensures Run(s, CloseLines(Add, pid, ds)) == Some(s')
    ensures s'.t == s.t.(dirs := base[pid := base[pid].(rows := base[pid].rows + DirRows(ds))] + RecsOf(ds, path, pid))
    ensures s'.buffer == s.buffer - Tops(ds) && s'.total == s.total
    decreases |ds|
  {
    hide Step;
    var rows := base[pid].rows;
    if ds == [] {
      s' := s;
      Maps.UnionEmpty(rows);
      Maps.UnionEmpty(base);
      Maps.PutSame(base, pid);
    } else {
      var d := ds[0];
      FilledKeys(ds[1..], path);
      CloseOne(s, base, pid, d, FilledRecs(ds[1..], path), path);
      var base1 := ClosedRecs(base, pid, d, path);
      var s1 := Spider(s.t.(dirs := base1 + FilledRecs(ds[1..], path)), s.buffer - {d.id}, s.total);
      RunCons(s, DirLine(Add, pid, d), CloseLines(Add, pid, ds[1..]), s1);
      RecsKeys(d, path + [d.name], pid);
      s' := CloseAll(s1, base1, pid, ds[1..], path);
      CloseRows(base, pid, ds, path);
      TopsStep(ds);
      Maps.RemoveTwice(s.buffer, {d.id}, Tops(ds[1..]));
    }
  }

  lemma {:induction false} CloseRows(base: map<int, Rec>, pid: nat, ds: seq<Dir>, path: Path)
    requires ds != [] && pid in base && pid !in Ids(ds[0])
    requires forall i :: 1 <= i < |ds| ==> ds[0].fid != ds[i].fid
    ensures var base1 := ClosedRecs(base, pid, ds[0], path);
            && pid in base1
            && base1[pid].rows == base[pid].rows[ds[0].fid := DirRow(ds[0])]
            && base1[pid := base1[pid].(rows := base1[pid].rows + DirRows(ds[1..]))] + RecsOf(ds[1..], path, pid)
               == base[pid := base[pid].(rows := base[pid].rows + DirRows(ds))] + RecsOf(ds, path, pid)
  {
    var d, rest := ds[0], ds[1..];
    var rows := base[pid].rows;
    var one := Recs(d, path + [d.name], pid);
    RecsKeys(d, path + [d.name], pid);
    DirRowsKeys(rest);
    Maps.PutThenUnion(rows, DirRows(rest), d.fid, DirRow(d));
    Maps.Overwrite(base, one, RecsOf(rest, path, pid), pid,
                   base[pid].(rows := rows[d.fid := DirRow(d)]), base[pid].(rows := rows + DirRows(ds)));
  }

  /** Every directory id of the tree is positive: 0 stands for "no directory" on a line. */
  ghost predicate PositiveIds(d: Dir) {
    d.id > 0 && forall i :: 0 <= i < |d.dirs| ==> PositiveIds(d.dirs[i])
  }

  /** Directories whose `0` lines have been read: they are in the buffer, those below are not. */
  ghost predicate Opened(buffer: map<int, bool>, ds: seq<Dir>) {
    && (forall i :: 0 <= i < |ds| ==> ds[i].id in buffer && !buffer[ds[i].id])
    && buffer.Keys !! IdsOf(ds) - Tops(ds)
  }

  ghost predicate Loadable(ds: seq<Dir>) {
    UniqueIdsOf(ds) && forall i :: 0 <= i < |ds| ==> PositiveIds(ds[i]) && DistinctFids(ds[i])
  }

  lemma {:induction false} OpenedAfter(buffer: map<int, bool>, ds: seq<Dir>)
    requires buffer.Keys !! IdsOf(ds)
    ensures Opened(buffer + Maps.Constant(Tops(ds), false), ds)
  {
    TopsTrue(ds);
  }

  /** The first lines of a directory's contents: its subdirectories are opened, its files added. */
  lemma {:induction false} AddEntry(s: Spider, d: Dir, path: Path, g: map<int, Path>) returns (s': Spider)
    requires UniqueIdsOf(d.dirs) && d.id > 0 && DistinctFids(d)
    requires d.id in s.t.dirs && s.t.dirs[d.id].rows == map[] && s.t.dirs.Keys !! IdsOf(d.dirs)
    requires d.id in s.buffer && !s.buffer[d.id] && s.buffer.Keys !! IdsOf(d.dirs)
    requires Injective(g) && Follows(s.t.dirs, g) && PlacedOf(d.dirs, path, g)
    ensures Run(s, OpenLines(Add, d.dirs, path) + FileLines(Add, d.id, d.files)) == Some(s')
    ensures s'.total == s.total && s'.buffer == s.buffer + Maps.Constant(Tops(d.dirs), false)
            && Opened(s'.buffer, d.dirs)
    ensures s'.t == s.t.(dirs := s.t.dirs[d.id := s.t.dirs[d.id].(rows := FileRows(d.files))] + BlankRecs(d.dirs, path))
    ensures Follows(s'.t.dirs, g)
  {
    hide Step, Run, Injective, Follows, Opened;
    var rec := s.t.dirs[d.id];
    TopsAmongIds(d.dirs);
    BlanksKeys(d.dirs, path);
    var s1 := OpenAll(s, d.dirs, path, g);
    OpenedAfter(s.buffer, d.dirs);
    s' := FilesAll(s1, d.id, d.files);
    assert map[] + FileRows(d.files) == FileRows(d.files);
    Maps.PutBeside(s.t.dirs, BlankRecs(d.dirs, path), d.id, rec.(rows := FileRows(d.files)));
    OpenFollows(s.t.dirs, d.dirs, path, g);
    FollowsRows(s1.t.dirs, d.id, FileRows(d.files), g);
    RunConcat(s, OpenLines(Add, d.dirs, path), FileLines(Add, d.id, d.files));
  }

  /** Reading the lines of a directory's contents, once the directory itself has been opened. */
  lemma {:induction false} AddBody(s: Spider, d: Dir, path: Path, g: map<int, Path>) returns (s': Spider)
    requires UniqueIds(d) && PositiveIds(d) && DistinctFids(d)
    requires d.id in s.t.dirs && s.t.dirs[d.id].rows == map[] && s.t.dirs.Keys !! IdsOf(d.dirs)
    requires d.id in s.buffer && !s.buffer[d.id] && s.buffer.Keys !! IdsOf(d.dirs)
    requires Injective(g) && Follows(s.t.dirs, g) && PlacedOf(d.dirs, path, g)
    ensures Run(s, Body(Add, d, path)) == Some(s')
    ensures s' == s.(t := s.t.(dirs := s.t.dirs[d.id := s.t.dirs[d.id].(rows := RowsOf(d))]
                  + RecsOf(d.dirs, path, d.id)))
    decreases d, 1
  {
    hide Step, Run, Injective, Follows;
    var ds, rec := d.dirs, s.t.dirs[d.id];
    TopsAmongIds(ds);
    TopsTrue(ds);
    FileRowsKeys(d.files);
    var base := s.t.dirs[d.id := rec.(rows := FileRows(d.files))];
    var s2 := AddEntry(s, d, path, g);
    var s3 := AddBodies(s2, base, ds, path, g);
    s' := CloseAll(s3, base, d.id, ds, path);
    Maps.AddRemove(s.buffer, Tops(ds), false);
    Maps.PutTwice(s.t.dirs, d.id, rec.(rows := FileRows(d.files)), rec.(rows := RowsOf(d)));
    RunConcat(s, OpenLines(Add, ds, path) + FileLines(Add, d.id, d.files), Bodies(Add, ds, path));
    RunConcat(s, OpenLines(Add, ds, path) + FileLines(Add, d.id, d.files) + Bodies(Add, ds, path),
              CloseLines(Add, d.id, ds));
  }

  lemma TopsTrue(ds: seq<Dir>)
    ensures forall i :: 0 <= i < |ds| ==> ds[i].id in Tops(ds)
  {
  }

  lemma {:induction false} OpenFollows(dirs: map<int, Rec>, ds: seq<Dir>, path: Path, g: map<int, Path>)
    requires Follows(dirs, g) && PlacedOf(ds, path, g)
    ensures Follows(dirs + BlankRecs(ds, path), g)
    decreases |ds|
  {
    if ds != [] {
      OpenFollows(dirs, ds[1..], path, g);
    }
  }

  lemma FollowsRows(dirs: map<int, Rec>, id: int, rows: map<int, Row>, g: map<int, Path>)
    requires Follows(dirs, g) && id in dirs
    ensures Follows(dirs[id := dirs[id].(rows := rows)], g)
  {
  }

  lemma {:induction false} RecsFollow(ds: seq<Dir>, path: Path, pid: nat, g: map<int, Path>)
    requires PlacedOf(ds, path, g)
    ensures Follows(RecsOf(ds, path, pid), g)
    decreases ds
  {
    if ds != [] {
      RecsFollow(ds[0].dirs, path + [ds[0].name], ds[0].id, g);
      RecsFollow(ds[1..], path, pid, g);
    }
  }

  lemma {:induction false} OpenedTail(buffer: map<int, bool>, ds: seq<Dir>)
    requires ds != [] && Loadable(ds) && Opened(buffer, ds)
    ensures Opened(buffer, ds[1..]) && Loadable(ds[1..]) && buffer.Keys !! IdsOf(ds[0].dirs)
  {
    TopsStep(ds);
    TopsAmongIds(ds[1..]);
    assert UniqueIds(ds[0]);
    assert IdsOf(ds[0].dirs) <= Ids(ds[0]) && IdsOf(ds[0].dirs) !! Tops(ds);
  }

  lemma {:induction false} AddBodies(s: Spider, base: map<int, Rec>, ds: seq<Dir>, path: Path, g: map<int, Path>)
    returns (s': Spider)
    requires Loadable(ds) && Opened(s.buffer, ds)
    requires base.Keys !! IdsOf(ds) && s.t.dirs == base + BlankRecs(ds, path)
    requires Injective(g) && Follows(s.t.dirs, g) && PlacedOf(ds, path, g)
    ensures Run(s, Bodies(Add, ds, path)) == Some(s')
    ensures s' == s.(t := s.t.(dirs := base + FilledRecs(ds, path)))
    decreases ds, 0
  {
    hide Step, Injective, Follows, Opened, Loadable;
    if ds == [] {
      s' := s;
      Maps.UnionEmpty(base);
    } else {
      var d, rest := ds[0], ds[1..];
      var p := path + [d.name];
      OpenedTail(s.buffer, ds);
      var base1 := AddFirst(s, base, ds, path, g);
      var s1 := s.(t := s.t.(dirs := base1 + BlankRecs(rest, path)));
      s' := AddBodies(s1, base1, rest, path, g);
      RunConcat(s, Body(Add, d, p), Bodies(Add, rest, path));
    }
  }

  lemma {:induction false} AddFirst(s: Spider, base: map<int, Rec>, ds: seq<Dir>, path: Path, g: map<int, Path>)
    returns (base1: map<int, Rec>)
    requires ds != [] && Loadable(ds) && Opened(s.buffer, ds)
    requires base.Keys !! IdsOf(ds) && s.t.dirs == base + BlankRecs(ds, path)
    requires Injective(g) && Follows(s.t.dirs, g) && PlacedOf(ds, path, g)
    ensures base1.Keys !! IdsOf(ds[1..]) && base1 + FilledRecs(ds[1..], path) == base + FilledRecs(ds, path)
    ensures Follows(base1 + BlankRecs(ds[1..], path), g)
    ensures Run(s, Body(Add, ds[0], path + [ds[0].name]))
         == Some(s.(t := s.t.(dirs := base1 + BlankRecs(ds[1..], path))))
    decreases ds[0], 2
  {
    hide Step, Run;
    var d, rest := ds[0], ds[1..];
    var p := path + [d.name];
    var below := RecsOf(d.dirs, p, d.id);
    var rec := Rec(p, None, None, 0, 0, RowsOf(d));
    OpenedTail(s.buffer, ds);
    BlanksKeys(rest, path);
    RecsOfKeys(d.dirs, p, d.id);
    TopsAmongIds(rest);
    var s1 := AddBody(s, d, p, g);
    Maps.FillOne(base, BlankRecs(rest, path), below, d.id, rec.(rows := map[]), rec);
    base1 := base + below[d.id := rec];
    AddedFollow(s.t.dirs, d, p, g);
    Maps.UnionAssociative(base, below[d.id := rec], FilledRecs(rest, path));
  }

  lemma {:induction false} AddedFollow(dirs: map<int, Rec>, d: Dir, path: Path, g: map<int, Path>)
    requires Follows(dirs, g) && d.id in dirs && PlacedOf(d.dirs, path, g)
    ensures Follows(dirs[d.id := dirs[d.id].(rows := RowsOf(d))] + RecsOf(d.dirs, path, d.id), g)
  {
    FollowsRows(dirs, d.id, RowsOf(d), g);
    RecsFollow(d.dirs, path, d.id, g);
  }
}
