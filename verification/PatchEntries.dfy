/** Running the lines that a directory prints about its own entries: whole subtrees that went away
    or appeared, and files. */
module PatchEntries {
  import opened Wrappers
  import opened Trees
  import opened Store
  import opened Image
  import opened Deltas
  import Maps

  // ---------------------------------------------------------------- subtrees that went away

  lemma {:induction false} StepDrop(s: Spider, id: nat, path: Path)
    ensures Step(s, PathLine(Del, id, path)) == Some(s.(t := s.t.(dirs := s.t.dirs - {id})))
  {
    assert ExecAll(s.t, [DeletePath(id)]) == Exec(s.t, DeletePath(id));
  }

  lemma {:induction false} DropOpened(s: Spider, ds: seq<Dir>, path: Path)
    ensures Run(s, OpenLines(Del, ds, path)) == Some(s.(t := s.t.(dirs := s.t.dirs - Tops(ds))))
    decreases |ds|
  {
    hide Step;
    if ds == [] {
      assert s.t.dirs - Tops(ds) == s.t.dirs;
    } else {
      var line := PathLine(Del, ds[0].id, path + [ds[0].name]);
      var s1 := s.(t := s.t.(dirs := s.t.dirs - {ds[0].id}));
      StepDrop(s, ds[0].id, path + [ds[0].name]);
      RunCons(s, line, OpenLines(Del, ds[1..], path), s1);
      DropOpened(s1, ds[1..], path);
      TopsStep(ds);
      Maps.RemoveTwice(s.t.dirs, {ds[0].id}, Tops(ds[1..]));
    }
  }

  lemma {:induction false} DropBody(s: Spider, d: Dir, path: Path)
    ensures Run(s, GoneBody(d, path)) == Some(s.(t := s.t.(dirs := s.t.dirs - IdsOf(d.dirs))))
    decreases d, 1
  {
    hide Step;
    var s1 := s.(t := s.t.(dirs := s.t.dirs - Tops(d.dirs)));
    DropOpened(s, d.dirs, path);
    DropBodies(s1, d.dirs, path);
    RunConcat(s, OpenLines(Del, d.dirs, path), GoneBodies(d.dirs, path));
    TopsAndBelow(d.dirs);
    Maps.RemoveTwice(s.t.dirs, Tops(d.dirs), BelowOf(d.dirs));
  }

  lemma {:induction false} DropBodies(s: Spider, ds: seq<Dir>, path: Path)
    ensures Run(s, GoneBodies(ds, path)) == Some(s.(t := s.t.(dirs := s.t.dirs - BelowOf(ds))))
    decreases ds, 0
  {
    hide Step;
    if ds == [] {
      assert s.t.dirs - {} == s.t.dirs;
    } else {
      var p := path + [ds[0].name];
      var s1 := s.(t := s.t.(dirs := s.t.dirs - IdsOf(ds[0].dirs)));
      DropBody(s, ds[0], p);
      DropBodies(s1, ds[1..], path);
      RunConcat(s, GoneBody(ds[0], p), GoneBodies(ds[1..], path));
      Maps.RemoveTwice(s.t.dirs, IdsOf(ds[0].dirs), BelowOf(ds[1..]));
    }
  }

  lemma {:induction false} StepForget(s: Spider, pid: nat, line: Line)
    requires pid > 0 && pid in s.t.dirs && line.EntryLine? && line.act == Del && line.pid == pid
    ensures Step(s, line)
         == Some(s.(t := s.t.(dirs := WithRows(s.t.dirs, pid, s.t.dirs[pid].rows - {line.fid}))))
  {
    var q := DeleteFile(pid, line.fid);
    assert [] + [q] == [q];
    assert ExecAll(s.t, [q]) == Exec(s.t, q);
  }

  /** The lines of a subtree that went away remove its directories and its row in the parent. */
  lemma {:induction false} DropTree(s: Spider, d: Dir, pid: nat, path: Path)
    requires pid > 0 && pid in s.t.dirs && pid !in Ids(d)
    ensures Run(s, GoneLines(d, pid, path))
         == Some(s.(t := s.t.(dirs := WithRows(s.t.dirs - Ids(d), pid, s.t.dirs[pid].rows - {d.fid}))))
  {
    hide Step;
    var first, last := PathLine(Del, d.id, path), DirLine(Del, pid, d);
    var s1 := s.(t := s.t.(dirs := s.t.dirs - {d.id}));
    var s2 := s.(t := s.t.(dirs := s.t.dirs - Ids(d)));
    StepDrop(s, d.id, path);
    DropBody(s1, d, path);
    Maps.RemoveTwice(s.t.dirs, {d.id}, IdsOf(d.dirs));
    StepForget(s2, pid, last);
    RunOne(s2, last);
    RunConcat(s1, GoneBody(d, path), [last]);
    RunCons(s, first, GoneBody(d, path) + [last], s1);
    assert GoneLines(d, pid, path) == [first] + (GoneBody(d, path) + [last]);
  }

  // ---------------------------------------------------------------- subtrees that appeared

  /** newfiles with rows added for one directory. */
  function WithNew(t: Tables, pid: int, rows: map<int, Row>): map<int, map<int, Row>> {
    if rows == map[] then t.newfiles else t.newfiles[pid := NewRows(t, pid) + rows]
  }

  /** The closing line of an added directory in one that existed before. */
  lemma {:induction false} StepAdopt(s: Spider, pid: nat, d: Dir)
    requires pid > 0 && Modified(s.buffer, pid) && d.fid !in NewRows(s.t, pid)
    requires d.id > 0 && d.id != pid && d.id in s.t.dirs && !Modified(s.buffer, d.id)
    ensures var rec := s.t.dirs[d.id].(parent := Some(pid), slot := Some(d.fid), items := d.items, size := d.size);
            var newfiles := s.t.newfiles[pid := NewRows(s.t, pid)[d.fid := DirRow(d)]];
            Step(s, DirLine(Add, pid, d)) == Some(Spider(Tables(s.t.dirs[d.id := rec], newfiles), s.buffer - {d.id},
                                                         s.total))
  {
    var u := UpdatePath(d.id, pid, d.fid, d.items, d.size);
    var q := InsertNew(pid, d.fid, DirRow(d));
    var t1 := Exec(s.t, u).value;
    assert [u] + [] + [q] == [u, q] && [u, q][1..] == [q];
    assert ExecAll(t1, [q]) == Exec(t1, q);
    assert ExecAll(s.t, [u, q]) == Exec(t1, q);
  }

  /** The lines of a subtree that appeared add exactly its directories, and its row to newfiles. */
  lemma {:induction false} AdoptTree(s: Spider, d: Dir, pid: nat, path: Path, g: map<int, Path>)
    requires pid > 0 && pid !in Ids(d) && Modified(s.buffer, pid) && d.fid !in NewRows(s.t, pid)
    requires UniqueIds(d) && PositiveIds(d) && DistinctFids(d)
    requires s.t.dirs.Keys !! Ids(d) && s.buffer.Keys !! Ids(d)
    requires Injective(g) && Follows(s.t.dirs, g) && Placed(d, path, g)
    ensures Run(s, TreeLines(Add, d, pid, path))
         == Some(s.(t := Tables(s.t.dirs + Recs(d, path, pid),
                                s.t.newfiles[pid := NewRows(s.t, pid)[d.fid := DirRow(d)]])))
    ensures Follows(s.t.dirs + Recs(d, path, pid), g)
  {
    var first, body, last := PathLine(Add, d.id, path), Body(Add, d, path), DirLine(Add, pid, d);
    StepOpen(s, d.id, path, g);
    hide Step, Injective, Follows;
    var s2 := AdoptBody(s, d, path, g);
    RecsOfKeys(d.dirs, path, d.id);
    StepAdopt(s2, pid, d);
    RunOne(s2, last);
    var dirs := s.t.dirs[d.id := Rec(path, None, None, 0, 0, map[])];
    var s1 := s.(t := s.t.(dirs := dirs), buffer := s.buffer[d.id := false]);
    RunConcat(s1, body, [last]);
    RunCons(s, first, body + [last], s1);
    assert TreeLines(Add, d, pid, path) == [first] + (body + [last]);
    Maps.PutInside(s.t.dirs, RecsOf(d.dirs, path, d.id), d.id, Recs(d, path, pid)[d.id]);
    Maps.PutTwice(RecsOf(d.dirs, path, d.id), d.id, s2.t.dirs[d.id], Recs(d, path, pid)[d.id]);
    Maps.PutInside(s.t.dirs, RecsOf(d.dirs, path, d.id)[d.id := s2.t.dirs[d.id]], d.id, Recs(d, path, pid)[d.id]);
    Maps.PutRemove(s.buffer, d.id, false);
    AdoptFollows(s.t.dirs, d, path, pid, g);
  }

  lemma {:induction false} AdoptFollows(dirs: map<int, Rec>, d: Dir, path: Path, pid: nat, g: map<int, Path>)
    requires Follows(dirs, g) && Placed(d, path, g)
    ensures Follows(dirs + Recs(d, path, pid), g)
  {
    RecsFollow(d.dirs, path, d.id, g);
  }

  lemma {:induction false} AdoptBody(s: Spider, d: Dir, path: Path, g: map<int, Path>) returns (s': Spider)
    requires UniqueIds(d) && PositiveIds(d) && DistinctFids(d)
    requires s.t.dirs.Keys !! Ids(d) && s.buffer.Keys !! Ids(d)
    requires Injective(g) && Follows(s.t.dirs, g) && Placed(d, path, g)
    ensures var dirs, buffer := s.t.dirs[d.id := Rec(path, None, None, 0, 0, map[])], s.buffer[d.id := false];
            Run(s.(t := s.t.(dirs := dirs), buffer := buffer), Body(Add, d, path)) == Some(s')
    ensures var dirs := s.t.dirs + RecsOf(d.dirs, path, d.id)[d.id := Rec(path, None, None, 0, 0, RowsOf(d))];
            s' == s.(t := s.t.(dirs := dirs), buffer := s.buffer[d.id := false])
  {
    hide Step, Run, Injective;
    var blank := Rec(path, None, None, 0, 0, map[]);
    var s1 := s.(t := s.t.(dirs := s.t.dirs[d.id := blank]), buffer := s.buffer[d.id := false]);
    s' := AddBody(s1, d, path, g);
    RecsOfKeys(d.dirs, path, d.id);
    Maps.PutTwice(s.t.dirs, d.id, blank, blank.(rows := RowsOf(d)));
    Maps.PutThenUnion(s.t.dirs, RecsOf(d.dirs, path, d.id), d.id, blank.(rows := RowsOf(d)));
  }

  // ---------------------------------------------------------------- the merged listing of subdirectories

  function SameOlds(ops: seq<Op>): seq<Dir> {
    if ops == [] then []
    else (if ops[0].Same? then [ops[0].delta.was] else []) + SameOlds(ops[1..])
  }

  function GoneFids(ops: seq<Op>): set<int> {
    if ops == [] then {}
    else (if ops[0].Gone? then {ops[0].was.fid} else {}) + GoneFids(ops[1..])
  }

  function FreshRows(ops: seq<Op>): map<int, Row> {
    if ops == [] then map[]
    else if ops[0].Fresh? then FreshRows(ops[1..])[ops[0].dir.fid := DirRow(ops[0].dir)]
    else FreshRows(ops[1..])
  }

  lemma {:induction false} BothContains(ops: seq<Op>, path: Path, pid: nat)
    requires FitsOf(ops)
    ensures IdsOf(Olds(ops)) <= IdsOf(BothOf(ops))
    ensures IdsOf(SameOlds(ops)) <= IdsOf(Olds(ops))
    ensures FreshRecs(ops, path, pid).Keys <= IdsOf(BothOf(ops))
    decreases ops
  {
    if ops != [] {
      BothContains(ops[1..], path, pid);
      var olds, rest := Olds(ops), Olds(ops[1..]);
      match ops[0] {
        case Gone(d) =>
          assert olds[0] == d && olds[1..] == rest && SameOlds(ops) == SameOlds(ops[1..]);
        case Fresh(d) =>
          assert olds == rest && SameOlds(ops) == SameOlds(ops[1..]);
          RecsKeys(d, path + [d.name], pid);
        case Same(e) =>
          assert e < ops[0];
          BothContains(e.ops, path, pid);
          assert olds[0] == e.was && olds[1..] == rest;
          assert SameOlds(ops)[0] == e.was && SameOlds(ops)[1..] == SameOlds(ops[1..]);
      }
    }
  }

  /** The rows of the old tree that an operation is about. */
  function OldPart(op: Op, path: Path, pid: nat): map<int, Rec> {
    match op
    case Gone(d) => Recs(d, path + [d.name], pid)
    case Fresh(_) => map[]
    case Same(e) => Recs(e.was, path + [e.was.name], pid)
  }

  /** What the first operation leaves for the others. */
  lemma {:induction false} OldsTail(ops: seq<Op>, path: Path, pid: nat)
    requires ops != []
    ensures RecsOf(Olds(ops), path, pid) == OldPart(ops[0], path, pid) + RecsOf(Olds(ops[1..]), path, pid)
    ensures RecsOf(SameOlds(ops), path, pid) ==
            (if ops[0].Same? then OldPart(ops[0], path, pid) else map[]) + RecsOf(SameOlds(ops[1..]), path, pid)
  {
    var olds, rest := Olds(ops), Olds(ops[1..]);
    match ops[0] {
      case Gone(d) =>
        assert olds[0] == d && olds[1..] == rest && SameOlds(ops) == SameOlds(ops[1..]);
      case Fresh(d) =>
        assert olds == rest && SameOlds(ops) == SameOlds(ops[1..]);
      case Same(e) =>
        assert olds[0] == e.was && olds[1..] == rest;
        assert SameOlds(ops)[0] == e.was && SameOlds(ops)[1..] == SameOlds(ops[1..]);
    }
  }

  /** Rows that the merge of the subdirectories leaves, and directories that it adds. */
  function AfterOps(base: map<int, Rec>, ops: seq<Op>, pid: nat, path: Path): map<int, Rec>
    requires pid in base
  {
    WithRows(base, pid, base[pid].rows - GoneFids(ops)) + FreshRecs(ops, path, pid)
  }

  /** New entries get numbers that no waiting new entry has. */
  ghost predicate FreshNumbers(ops: seq<Op>, rows: map<int, Row>) {
    && (forall i :: 0 <= i < |ops| && ops[i].Fresh? ==> ops[i].dir.fid !in rows)
    && (forall i, j :: 0 <= i < j < |ops| && ops[i].Fresh? && ops[j].Fresh? ==> ops[i].dir.fid != ops[j].dir.fid)
  }

  lemma {:induction false} FreshNumbersTail(ops: seq<Op>, rows: map<int, Row>)
    requires ops != [] && FreshNumbers(ops, rows)
    ensures FreshNumbers(ops[1..], rows)
    ensures ops[0].Fresh? ==> FreshNumbers(ops[1..], rows[ops[0].dir.fid := DirRow(ops[0].dir)])
  {
    assert forall i :: 0 <= i < |ops[1..]| ==> ops[1..][i] == ops[i + 1];
  }

  lemma {:induction false} FreshRowsKeys(ops: seq<Op>)
    ensures forall f :: f in FreshRows(ops) <==> exists i :: 0 <= i < |ops| && ops[i].Fresh? && ops[i].dir.fid == f
    decreases |ops|
  {
    if ops != [] {
      FreshRowsKeys(ops[1..]);
      forall f
        ensures f in FreshRows(ops) <==> exists i :: 0 <= i < |ops| && ops[i].Fresh? && ops[i].dir.fid == f
      {
        if f in FreshRows(ops[1..]) {
          var i :| 0 <= i < |ops[1..]| && ops[1..][i].Fresh? && ops[1..][i].dir.fid == f;
          assert ops[i + 1].dir.fid == f;
        }
        if i :| 0 <= i < |ops| && ops[i].Fresh? && ops[i].dir.fid == f {
          if i > 0 { assert ops[1..][i - 1].dir.fid == f; }
        }
      }
    }
  }

  lemma {:induction false} WithNewTwice(t: Tables, pid: int, f: int, row: Row, rows: map<int, Row>)
    requires f !in rows
    ensures WithNew(t.(newfiles := t.newfiles[pid := NewRows(t, pid)[f := row]]), pid, rows)
         == t.newfiles[pid := NewRows(t, pid) + rows[f := row]]
  {
    Maps.PutThenUnion(NewRows(t, pid), rows, f, row);
    if rows == map[] {
      Maps.UnionEmpty(NewRows(t, pid)[f := row]);
    }
  }

  lemma {:induction false} GoneRun(s: Spider, base: map<int, Rec>, ops: seq<Op>, pid: nat, path: Path,
                                   g: map<int, Path>, d: Dir)
    requires ops != [] && ops[0] == Gone(d) && FitsOf(ops)
    requires pid > 0 && pid in base && base.Keys !! IdsOf(BothOf(ops)) && UniqueIdsOf(BothOf(ops))
    requires s.t.dirs == base + RecsOf(Olds(ops), path, pid)
    requires Follows(s.t.dirs, g)
    ensures var dirs := WithRows(base, pid, base[pid].rows - {d.fid}) + RecsOf(Olds(ops[1..]), path, pid);
            && Run(s, GoneLines(d, pid, path + [d.name])) == Some(s.(t := s.t.(dirs := dirs)))
            && Follows(dirs, g)
  {
    hide Run, Injective, Follows;
    var one, rest := Recs(d, path + [d.name], pid), RecsOf(Olds(ops[1..]), path, pid);
    OldsTail(ops, path, pid);
    BothContains(ops[1..], path, pid);
    RecsKeys(d, path + [d.name], pid);
    RecsOfKeys(Olds(ops[1..]), path, pid);
    assert BothOf(ops)[0] == d && BothOf(ops)[1..] == BothOf(ops[1..]);
    hide Run;
    DropTree(s, d, pid, path + [d.name]);
    Maps.DropPart(base, one, rest, pid, base[pid].(rows := base[pid].rows - {d.fid}));
    FollowsPart(base + (one + rest), Ids(d), pid, base[pid].rows - {d.fid}, g);
  }

  lemma {:induction false} FreshRun(s: Spider, base: map<int, Rec>, ops: seq<Op>, pid: nat, path: Path,
                                    g: map<int, Path>, d: Dir)
    requires ops != [] && ops[0] == Fresh(d) && FitsOf(ops)
    requires pid > 0 && pid in base && base.Keys !! IdsOf(BothOf(ops)) && UniqueIdsOf(BothOf(ops))
    requires Modified(s.buffer, pid) && s.buffer.Keys !! IdsOf(BothOf(ops))
    requires FreshNumbers(ops, NewRows(s.t, pid))
    requires s.t.dirs == base + RecsOf(Olds(ops), path, pid)
    requires Injective(g) && Follows(s.t.dirs, g) && PlacedOf(BothOf(ops), path, g)
    ensures var dirs := base + Recs(d, path + [d.name], pid) + RecsOf(Olds(ops[1..]), path, pid);
            && Run(s, TreeLines(Add, d, pid, path + [d.name]))
               == Some(s.(t := Tables(dirs, s.t.newfiles[pid := NewRows(s.t, pid)[d.fid := DirRow(d)]])))
            && Follows(dirs, g)
  {
    hide Run, Injective, Follows, TreeLines, Exec, Step, NewRows, WithRows;
    var one, rest := Recs(d, path + [d.name], pid), RecsOf(Olds(ops[1..]), path, pid);
    OldsTail(ops, path, pid);
    BothContains(ops[1..], path, pid);
    RecsKeys(d, path + [d.name], pid);
    RecsOfKeys(Olds(ops[1..]), path, pid);
    assert BothOf(ops)[0] == d && BothOf(ops)[1..] == BothOf(ops[1..]);
    Maps.EmptyUnion(rest);
    AdoptTree(s, d, pid, path + [d.name], g);
    Maps.UnionSwap(base, rest, one);
  }

  lemma FollowsPart(dirs: map<int, Rec>, gone: set<int>, pid: int, rows: map<int, Row>, g: map<int, Path>)
    requires Follows(dirs, g) && pid in dirs && pid !in gone
    ensures Follows(WithRows(dirs - gone, pid, rows), g)
  {
  }

  /** What running the first operation's lines leaves of the tables beside the old rows still to be merged. */
  function OpBase(base: map<int, Rec>, op: Op, pid: nat, path: Path): map<int, Rec>
    requires pid in base
  {
    match op
    case Gone(d) => WithRows(base, pid, base[pid].rows - {d.fid})
    case Fresh(d) => base + Recs(d, path + [d.name], pid)
    case Same(e) => base + Recs(e.was, path + [e.was.name], pid)
  }

  function OpNew(t: Tables, op: Op, pid: nat): map<int, map<int, Row>> {
    if op.Fresh? then t.newfiles[pid := NewRows(t, pid)[op.dir.fid := DirRow(op.dir)]] else t.newfiles
  }

  lemma {:induction false} OpRun(s: Spider, base: map<int, Rec>, ops: seq<Op>, pid: nat, path: Path, g: map<int, Path>)
    requires ops != [] && FitsOf(ops)
    requires pid > 0 && pid in base && base.Keys !! IdsOf(BothOf(ops)) && UniqueIdsOf(BothOf(ops))
    requires !ops[0].Same? ==> Modified(s.buffer, pid)
    requires s.buffer.Keys !! IdsOf(BothOf(ops))
    requires FreshNumbers(ops, NewRows(s.t, pid))
    requires s.t.dirs == base + RecsOf(Olds(ops), path, pid)
    requires Injective(g) && Follows(s.t.dirs, g) && PlacedOf(BothOf(ops), path, g)
    ensures var dirs := OpBase(base, ops[0], pid, path) + RecsOf(Olds(ops[1..]), path, pid);
            && Run(s, OpLine(ops[0], pid, path)) == Some(s.(t := Tables(dirs, OpNew(s.t, ops[0], pid))))
            && Follows(dirs, g)
  {
    hide Step, Injective, Follows;
    match ops[0] {
      case Gone(d) =>
        GoneRun(s, base, ops, pid, path, g, d);
      case Fresh(d) =>
        FreshRun(s, base, ops, pid, path, g, d);
      case Same(e) =>
        OldsTail(ops, path, pid);
        Maps.UnionAssociative(base, Recs(e.was, path + [e.was.name], pid), RecsOf(Olds(ops[1..]), path, pid));
    }
  }

  lemma {:induction false} OpBaseKeys(base: map<int, Rec>, ops: seq<Op>, pid: nat, path: Path)
    requires ops != [] && FitsOf(ops)
    requires pid in base && base.Keys !! IdsOf(BothOf(ops)) && UniqueIdsOf(BothOf(ops))
    ensures OpBase(base, ops[0], pid, path).Keys !! IdsOf(BothOf(ops[1..]))
    ensures pid in OpBase(base, ops[0], pid, path)
  {
    assert BothOf(ops)[1..] == BothOf(ops[1..]);
    match ops[0] {
      case Gone(d) =>
      case Fresh(d) =>
        RecsKeys(d, path + [d.name], pid);
      case Same(e) =>
        assert e < ops[0];
        RecsKeys(e.was, path + [e.was.name], pid);
        BothContains(e.ops, path, pid);
    }
  }

  /** The operations' effects add up. */
  lemma {:induction false} OpsAddUp(base: map<int, Rec>, ops: seq<Op>, pid: nat, path: Path)
    requires ops != [] && FitsOf(ops)
    requires pid in base && base.Keys !! IdsOf(BothOf(ops)) && UniqueIdsOf(BothOf(ops))
    ensures pid in OpBase(base, ops[0], pid, path)
    ensures AfterOps(OpBase(base, ops[0], pid, path), ops[1..], pid, path) + RecsOf(SameOlds(ops[1..]), path, pid)
         == AfterOps(base, ops, pid, path) + RecsOf(SameOlds(ops), path, pid)
  {
    var tail := ops[1..];
    var rows := base[pid].rows;
    var more, rest := FreshRecs(tail, path, pid), RecsOf(SameOlds(tail), path, pid);
    assert BothOf(ops)[1..] == BothOf(tail);
    OldsTail(ops, path, pid);
    Maps.EmptyUnion(rest);
    Maps.EmptyUnion(more);
    match ops[0] {
      case Gone(d) =>
        Maps.RemoveTwice(rows, {d.fid}, GoneFids(tail));
        Maps.PutTwice(base, pid, base[pid].(rows := rows - {d.fid}), base[pid].(rows := rows - GoneFids(ops)));
      case Fresh(d) =>
        RecsKeys(d, path + [d.name], pid);
        assert GoneFids(ops) == GoneFids(tail);
        Maps.AddPart(base, Recs(d, path + [d.name], pid), more, pid, base[pid].(rows := rows - GoneFids(ops)));
      case Same(e) =>
        SameApart(base, ops, pid, path, e);
        assert GoneFids(ops) == GoneFids(tail);
        Maps.CarryPart(base, Recs(e.was, path + [e.was.name], pid), more, rest, pid,
                       base[pid].(rows := rows - GoneFids(ops)));
    }
  }

  lemma {:induction false} SameApart(base: map<int, Rec>, ops: seq<Op>, pid: nat, path: Path, e: Delta)
    requires ops != [] && FitsOf(ops) && ops[0] == Same(e)
    requires pid in base && base.Keys !! IdsOf(BothOf(ops)) && UniqueIdsOf(BothOf(ops))
    ensures var one := Recs(e.was, path + [e.was.name], pid);
            pid !in one && one.Keys !! FreshRecs(ops[1..], path, pid).Keys
  {
    assert e < ops[0];
    assert BothOf(ops)[0] == Both(e) && BothOf(ops)[1..] == BothOf(ops[1..]);
    RecsKeys(e.was, path + [e.was.name], pid);
    BothContains(e.ops, path, pid);
    BothContains(ops[1..], path, pid);
  }

  lemma {:induction false} NewAddUp(t: Tables, ops: seq<Op>, pid: nat, dirs: map<int, Rec>)
    requires ops != [] && FreshNumbers(ops, NewRows(t, pid))
    ensures WithNew(Tables(dirs, OpNew(t, ops[0], pid)), pid, FreshRows(ops[1..])) == WithNew(t, pid, FreshRows(ops))
    ensures FreshNumbers(ops[1..], NewRows(Tables(dirs, OpNew(t, ops[0], pid)), pid))
  {
    FreshNumbersTail(ops, NewRows(t, pid));
    if ops[0].Fresh? {
      var d := ops[0].dir;
      FreshRowsKeys(ops[1..]);
      assert forall i :: 0 <= i < |ops[1..]| ==> ops[1..][i] == ops[i + 1];
      WithNewTwice(t, pid, d.fid, DirRow(d), FreshRows(ops[1..]));
    }
  }

  /** The lines about subdirectories that came or went: exactly those come or go. */
  lemma {:induction false} OpsRun(s: Spider, base: map<int, Rec>, ops: seq<Op>, pid: nat, path: Path, g: map<int, Path>)
    requires FitsOf(ops)
    requires pid > 0 && pid in base && base.Keys !! IdsOf(BothOf(ops)) && UniqueIdsOf(BothOf(ops))
    requires (exists i :: 0 <= i < |ops| && !ops[i].Same?) ==> Modified(s.buffer, pid)
    requires s.buffer.Keys !! IdsOf(BothOf(ops))
    requires FreshNumbers(ops, NewRows(s.t, pid))
    requires s.t.dirs == base + RecsOf(Olds(ops), path, pid)
    requires Injective(g) && Follows(s.t.dirs, g) && PlacedOf(BothOf(ops), path, g)
    ensures var dirs := AfterOps(base, ops, pid, path) + RecsOf(SameOlds(ops), path, pid);
            && Run(s, OpLines(ops, pid, path)) == Some(s.(t := Tables(dirs, WithNew(s.t, pid, FreshRows(ops)))))
            && Follows(dirs, g)
    decreases |ops|
  {
    hide Step, Injective, Follows, Modified, FreshNumbers, OpBase, AfterOps, WithNew, OpNew;
    if ops == [] {
      NoOps(s, base, pid, path);
    } else {
      var tail := ops[1..];
      assert forall i :: 0 <= i < |tail| ==> tail[i] == ops[i + 1];
      assert BothOf(ops)[1..] == BothOf(tail);
      OpRun(s, base, ops, pid, path, g);
      var base1 := OpBase(base, ops[0], pid, path);
      OpBaseKeys(base, ops, pid, path);
      var s1 := s.(t := Tables(base1 + RecsOf(Olds(tail), path, pid), OpNew(s.t, ops[0], pid)));
      NewAddUp(s.t, ops, pid, s1.t.dirs);
      OpsRun(s1, base1, tail, pid, path, g);
      OpsAddUp(base, ops, pid, path);
      RunConcat(s, OpLine(ops[0], pid, path), OpLines(tail, pid, path));
    }
  }

  lemma {:induction false} NoOps(s: Spider, base: map<int, Rec>, pid: nat, path: Path)
    requires pid in base && s.t.dirs == base + RecsOf([], path, pid)
    ensures s.t.dirs == AfterOps(base, [], pid, path) + RecsOf(SameOlds([]), path, pid)
    ensures s.t.newfiles == WithNew(s.t, pid, FreshRows([]))
  {
    assert base[pid].rows - {} == base[pid].rows;
    Maps.PutSame(base, pid);
    Maps.UnionEmpty(base);
  }

  // ---------------------------------------------------------------- the merged listing of files

  function FileGoneFids(fops: seq<FileOp>): set<int> {
    if fops == [] then {}
    else (if fops[0].FileGone? then {fops[0].was.fid} else {}) + FileGoneFids(fops[1..])
  }

  function FileSameRows(fops: seq<FileOp>): map<int, Row> {
    if fops == [] then map[]
    else if fops[0].FileSame? then FileSameRows(fops[1..])[fops[0].was.fid := FileRow(fops[0].file)]
    else FileSameRows(fops[1..])
  }

  function FileFreshRows(fops: seq<FileOp>): map<int, Row> {
    if fops == [] then map[]
    else if fops[0].FileFresh? then FileFreshRows(fops[1..])[fops[0].file.fid := FileRow(fops[0].file)]
    else FileFreshRows(fops[1..])
  }

  /** The old files have their rows, at positions of their own; the new ones have free positions. */
  ghost predicate FileNumbers(fops: seq<FileOp>, rows: map<int, Row>, news: map<int, Row>) {
    && (forall i :: 0 <= i < |fops| && fops[i].FileSame? ==>
                      && fops[i].was.fid in rows && rows[fops[i].was.fid] == FileRow(fops[i].was)
                      && fops[i].was.name == fops[i].file.name)
    && (forall i, j :: 0 <= i < j < |fops| && !fops[i].FileFresh? && !fops[j].FileFresh? ==>
                         fops[i].was.fid != fops[j].was.fid)
    && (forall i :: 0 <= i < |fops| && fops[i].FileFresh? ==> fops[i].file.fid !in news)
    && (forall i, j :: 0 <= i < j < |fops| && fops[i].FileFresh? && fops[j].FileFresh? ==>
                         fops[i].file.fid != fops[j].file.fid)
  }

  function FileOpRows(op: FileOp, rows: map<int, Row>): map<int, Row> {
    match op
    case FileGone(f) => rows - {f.fid}
    case FileFresh(_) => rows
    case FileSame(f, f') => rows[f.fid := FileRow(f')]
  }

  function FileOpNew(t: Tables, op: FileOp, pid: nat): map<int, map<int, Row>> {
    if op.FileFresh? then t.newfiles[pid := NewRows(t, pid)[op.file.fid := FileRow(op.file)]] else t.newfiles
  }

  lemma {:induction false} FileOpRun(s: Spider, op: FileOp, pid: nat)
    requires pid > 0 && pid in s.t.dirs && (Differs(op) ==> Modified(s.buffer, pid))
    requires FileNumbers([op], s.t.dirs[pid].rows, NewRows(s.t, pid))
    ensures Run(s, FileOpLine(op, pid)) == Some(s.(t := Tables(
                                                  WithRows(s.t.dirs, pid, FileOpRows(op, s.t.dirs[pid].rows)),
                                                  FileOpNew(s.t, op, pid))))
  {
    assert [op][0] == op;
    match op {
      case FileGone(f) =>
        StepForget(s, pid, FileLine(Del, pid, f));
        RunOne(s, FileLine(Del, pid, f));
      case FileFresh(f) =>
        var q := InsertNew(pid, f.fid, FileRow(f));
        assert [] + [q] == [q];
        assert ExecAll(s.t, [q]) == Exec(s.t, q);
        RunOne(s, FileLine(Add, pid, f));
        Maps.PutSame(s.t.dirs, pid);
      case FileSame(f, f') =>
        if f.size != f'.size {
          var q := UpdateSize(pid, f.fid, f'.size);
          assert [] + [q] == [q];
          assert ExecAll(s.t, [q]) == Exec(s.t, q);
          RunOne(s, FileLine(Mod, pid, f.(size := f'.size)));
        } else {
          Maps.PutSame(s.t.dirs[pid].rows, f.fid);
          Maps.PutSame(s.t.dirs, pid);
        }
    }
  }

  lemma {:induction false} FileKeys(fops: seq<FileOp>)
    ensures forall f :: f in FileSameRows(fops) || f in FileGoneFids(fops) ==>
                          exists i :: 0 <= i < |fops| && !fops[i].FileFresh? && fops[i].was.fid == f
    ensures forall f :: f in FileFreshRows(fops) ==>
                          exists i :: 0 <= i < |fops| && fops[i].FileFresh? && fops[i].file.fid == f
    decreases |fops|
  {
    if fops != [] {
      FileKeys(fops[1..]);
      forall f | f in FileSameRows(fops) || f in FileGoneFids(fops)
        ensures exists i :: 0 <= i < |fops| && !fops[i].FileFresh? && fops[i].was.fid == f
      {
        if f in FileSameRows(fops[1..]) || f in FileGoneFids(fops[1..]) {
          var i :| 0 <= i < |fops[1..]| && !fops[1..][i].FileFresh? && fops[1..][i].was.fid == f;
          assert fops[i + 1].was.fid == f;
        }
      }
      forall f | f in FileFreshRows(fops)
        ensures exists i :: 0 <= i < |fops| && fops[i].FileFresh? && fops[i].file.fid == f
      {
        if f in FileFreshRows(fops[1..]) {
          var i :| 0 <= i < |fops[1..]| && fops[1..][i].FileFresh? && fops[1..][i].file.fid == f;
          assert fops[i + 1].file.fid == f;
        }
      }
    }
  }

  lemma {:induction false} FileRowsAddUp(rows: map<int, Row>, fops: seq<FileOp>)
    requires fops != []
    requires forall i, j :: 0 <= i < j < |fops| && !fops[i].FileFresh? && !fops[j].FileFresh? ==>
                              fops[i].was.fid != fops[j].was.fid
    ensures FileOpRows(fops[0], rows) - FileGoneFids(fops[1..]) + FileSameRows(fops[1..])
         == rows - FileGoneFids(fops) + FileSameRows(fops)
  {
    var tail := fops[1..];
    FileKeys(tail);
    assert forall i :: 0 <= i < |tail| ==> tail[i] == fops[i + 1];
    match fops[0] {
      case FileGone(f) =>
        Maps.RemoveTwice(rows, {f.fid}, FileGoneFids(tail));
      case FileFresh(_) =>
        assert FileGoneFids(fops) == FileGoneFids(tail);
      case FileSame(f, f') =>
        assert FileGoneFids(fops) == FileGoneFids(tail);
        assert rows[f.fid := FileRow(f')] - FileGoneFids(tail) == (rows - FileGoneFids(tail))[f.fid := FileRow(f')];
        Maps.PutThenUnion(rows - FileGoneFids(tail), FileSameRows(tail), f.fid, FileRow(f'));
    }
  }

  lemma {:induction false} FileNumbersTail(fops: seq<FileOp>, t: Tables, pid: nat, dirs: map<int, Rec>)
    requires fops != [] && pid in t.dirs && FileNumbers(fops, t.dirs[pid].rows, NewRows(t, pid))
    ensures FileNumbers([fops[0]], t.dirs[pid].rows, NewRows(t, pid))
    ensures FileNumbers(fops[1..], FileOpRows(fops[0], t.dirs[pid].rows),
                        NewRows(Tables(dirs, FileOpNew(t, fops[0], pid)), pid))
    ensures WithNew(Tables(dirs, FileOpNew(t, fops[0], pid)), pid, FileFreshRows(fops[1..]))
         == WithNew(t, pid, FileFreshRows(fops))
  {
    var tail := fops[1..];
    assert forall i :: 0 <= i < |tail| ==> tail[i] == fops[i + 1];
    if fops[0].FileFresh? {
      FileKeys(tail);
      WithNewTwice(t, pid, fops[0].file.fid, FileRow(fops[0].file), FileFreshRows(tail));
    }
  }

  /** The lines about files bring the rows of the directory up to date, except for the numbers. */
  lemma {:induction false} FileOpsRun(s: Spider, fops: seq<FileOp>, pid: nat)
    requires pid > 0 && pid in s.t.dirs
    requires (exists i :: 0 <= i < |fops| && Differs(fops[i])) ==> Modified(s.buffer, pid)
    requires FileNumbers(fops, s.t.dirs[pid].rows, NewRows(s.t, pid))
    ensures Run(s, FileOpLines(fops, pid)) == Some(s.(t := Tables(
                                                     WithRows(s.t.dirs, pid, s.t.dirs[pid].rows - FileGoneFids(fops)
                                                              + FileSameRows(fops)),
                                                     WithNew(s.t, pid, FileFreshRows(fops)))))
    decreases |fops|
  {
    hide Step, Modified, FileNumbers, FileOpRows, FileOpNew, WithNew;
    var rows := s.t.dirs[pid].rows;
    if fops == [] {
      NoFileOps(s, pid);
    } else {
      var tail := fops[1..];
      assert forall i :: 0 <= i < |tail| ==> tail[i] == fops[i + 1];
      var rows1 := FileOpRows(fops[0], rows);
      var dirs1 := WithRows(s.t.dirs, pid, rows1);
      var s1 := s.(t := Tables(dirs1, FileOpNew(s.t, fops[0], pid)));
      FileNumbersTail(fops, s.t, pid, dirs1);
      FileOpRun(s, fops[0], pid);
      FileOpsRun(s1, tail, pid);
      RunConcat(s, FileOpLine(fops[0], pid), FileOpLines(tail, pid));
      FileWasDistinct(fops, rows, NewRows(s.t, pid));
      FileRowsAddUp(rows, fops);
      Maps.PutTwice(s.t.dirs, pid, dirs1[pid], dirs1[pid].(rows := rows - FileGoneFids(fops) + FileSameRows(fops)));
    }
  }

  lemma FileWasDistinct(fops: seq<FileOp>, rows: map<int, Row>, news: map<int, Row>)
    requires FileNumbers(fops, rows, news)
    ensures forall i, j :: 0 <= i < j < |fops| && !fops[i].FileFresh? && !fops[j].FileFresh? ==>
                             fops[i].was.fid != fops[j].was.fid
  {
  }

  lemma {:induction false} NoFileOps(s: Spider, pid: nat)
    requires pid in s.t.dirs
    ensures s.t.dirs == WithRows(s.t.dirs, pid, s.t.dirs[pid].rows - FileGoneFids([]) + FileSameRows([]))
    ensures s.t.newfiles == WithNew(s.t, pid, FileFreshRows([]))
  {
    var rows := s.t.dirs[pid].rows;
    assert rows - {} + map[] == rows;
    Maps.PutSame(s.t.dirs, pid);
  }
}
