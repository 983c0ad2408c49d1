/** What scan_share does to the tables: the lines of a scan, read one by one through the cache. */
module ScanShare {
  import opened Wrappers
  import opened Trees
  import opened Store
  import opened Image
  import opened Paths
  import opened Deltas
  import opened PatchTheorem
  import opened Cache
  import opened Quietness
  import Basics

  /** scan_line_patch with what it changes: the cache and the buffer of directories, each with its
      `modify` flag. */
  class LineReader {
    const qcache: PsycoCache
    var buffer: map<int, bool>
    ghost var added: set<int>

    constructor (qcache: PsycoCache)
      ensures this.qcache == qcache && buffer == map[] && added == {}
    {
      this.qcache, buffer, added := qcache, map[], {};
    }

    /** With everything sent, the spider would be at `s`. What is held back belongs to directories that
        the lines so far have added. */
    ghost predicate Tracks(s: Spider)
      reads this, qcache, qcache.cursor
    {
      && qcache.Shows(s.t) && buffer == s.buffer && qcache.totalsize == s.total
      && (forall b :: b in qcache.fquery ==> b.pid in added)
      && (forall id :: id in buffer ==> (buffer[id] <==> id !in added))
    }

    /** A `0` line. */
    method ScanPath(act: Act, id: nat, path: Path, ghost s: Spider) returns (ok: bool)
      requires Tracks(s) && !act.Plain? && Step(s, PathLine(act, id, path)).Some? && id !in added
      modifies this, qcache, qcache.cursor
      ensures ok && Tracks(Step(s, PathLine(act, id, path)).value)
              && added == old(added) + Adding(PathLine(act, id, path))
    {
      ok := true;
      if act == Add {
        buffer := buffer[id := false];
        ExecOne(s.t, InsertPath(id, path));
        ok := qcache.Append(InsertPath(id, path), s.t);
        added := added + {id};
      } else if act == Del {
        ExecOne(s.t, DeletePath(id));
        ok := qcache.Append(DeletePath(id), s.t);
      } else {
        buffer := buffer[id := true];
      }
    }

    /** A `1` line, after the update of a directory's own row. */
    method ScanEntry(act: Act, pid: nat, fid: nat, size: nat, dir: nat, name: string, ghost s: Spider)
      returns (ok: bool)
      requires Tracks(s) && !act.Plain? && pid > 0 && (if act.Add? then pid in buffer else pid !in added)
      requires Exec(s.t, EntryStmt(act, Modified(buffer, pid), pid, fid, Row(dir, size, name))).Some?
      modifies qcache, qcache.cursor
      ensures ok && Tracks(s.(t := Exec(s.t,
                                        EntryStmt(act, Modified(buffer, pid), pid, fid, Row(dir, size, name))).value))
    {
      if act == Add {
        if buffer[pid] {
          ok := qcache.Append(InsertNew(pid, fid, Row(dir, size, name)), s.t);
        } else {
          ok := qcache.FAppend(InsertFile(pid, fid, Row(dir, size, name)), s.t);
        }
      } else if act == Del {
        ok := qcache.Append(DeleteFile(pid, fid), s.t);
      } else {
        ok := qcache.Append(UpdateSize(pid, fid, size), s.t);
      }
    }

    /** The update of a directory's own row, and of the positions in it if it was modified. */
    method ScanClosing(pid: nat, fid: nat, size: nat, dir: nat, items: nat, ghost s: Spider) returns (ok: bool)
      requires Tracks(s) && ExecAll(s.t, ClosingStmts(Modified(buffer, dir), pid, fid, size, dir, items)).Some?
      modifies this`buffer, qcache, qcache.cursor
      ensures ok && buffer == old(buffer) - {dir}
      ensures Tracks(s.(t := ExecAll(s.t, ClosingStmts(old(Modified(buffer, dir)), pid, fid, size, dir, items)).value,
                     buffer := buffer))
    {
      var modified := dir in buffer && buffer[dir];
      ghost var update := UpdatePath(dir, pid, fid, items, size);
      assert Exec(s.t, update).Some?;
      ghost var t1 := Exec(s.t, update).value;
      ok := qcache.Append(UpdatePath(dir, pid, fid, items, size), s.t);
      buffer := buffer - {dir};
      if modified {
        assert ClosingStmts(modified, pid, fid, size, dir, items)[1..] == [PushFiles(dir)];
        ExecOne(t1, PushFiles(dir));
        ok := qcache.Append(PushFiles(dir), t1);
      } else {
        ExecOne(s.t, update);
      }
    }

    /** scan_line_patch */
    method ScanLinePatch(line: Line, ghost s: Spider) returns (ok: bool)
      requires Tracks(s) && !line.act.Plain? && Step(s, line).Some? && Harmless(line, added)
      modifies this, qcache, qcache.cursor
      ensures ok && Tracks(Step(s, line).value) && added == old(added) + Adding(line)
    {
      if line.PathLine? {
        ok := ScanPath(line.act, line.id, line.path, s);
        return;
      }
      var EntryLine(act, pid, fid, size, dir, items, name) := line;
      hide Exec;
      StepParts(s, line);
      ghost var s' := s;
      if (act == Add || act == Mod) && dir > 0 {
        ok := ScanClosing(pid, fid, size, dir, items, s);
        s' := s.(t := ExecAll(s.t, ClosingStmts(Modified(s.buffer, dir), pid, fid, size, dir, items)).value,
        buffer := buffer);
      }
      if pid == 0 {
        qcache.totalsize := Some(size);
        ok := true;
      } else {
        ok := ScanEntry(act, pid, fid, size, dir, name, s');
      }
    }

    /** The lines of a scan, as long as they belong to the patch, or are read as additions. */
    method ScanLines(lines: seq<Line>, ghost s: Spider) returns (ok: bool)
      requires Tracks(s) && (forall line :: line in lines ==> !line.act.Plain?) && Run(s, lines).Some?
               && Quiet(lines, added)
      modifies this, qcache, qcache.cursor
      ensures ok && Tracks(Run(s, lines).value)
    {
      hide Tracks, Step, Harmless, Adding;
      ghost var now := s;
      ok := true;
      var i := 0;
      assert lines[0..] == lines;
      while i < |lines|
        invariant i <= |lines| && ok && Tracks(now) && Run(now, lines[i..]) == Run(s, lines) && Quiet(lines[i..], added)
      {
        assert lines[i..][0] == lines[i] && lines[i..][1..] == lines[i + 1..];
        ok := ScanLinePatch(lines[i], now);
        now := Step(now, lines[i]).value;
        i := i + 1;
      }
      assert lines[i..] == [];
    }

    /** What is left in the buffer as modified is renumbered, in whatever order the buffer is iterated. */
    method PushAll(ghost s: Spider, ghost goal: Tables) returns (ok: bool, ghost order: seq<int>)
      requires Tracks(s) && (forall id :: id in s.buffer ==> id >= 0)
      requires forall order :: IterationOrder(s.buffer, order) ==> Flush(s.t, order) == Some(goal)
      modifies qcache, qcache.cursor
      ensures ok && qcache.Shows(goal) && qcache.totalsize == s.total && IterationOrder(s.buffer, order)
    {
      hide Push;
      ok, order := true, [];
      ghost var t1 := s.t;
      var keys := buffer.Keys;
      while keys != {}
        invariant ok && keys <= buffer.Keys && Pushed(buffer, keys, order)
        invariant Flush(s.t, order) == Some(t1) && Tracks(s.(t := t1))
        decreases |keys|
      {
        HasMember(keys);
        var id :| id in keys;
        if buffer[id] {
          PushPossible(s, order, keys, id, t1, goal);
          ok := qcache.Append(PushFiles(id), t1);
          t1 := Push(t1, id).value;
          order := order + [id];
        }
        keys := keys - {id};
      }
    }
  }

  /** The ids pushed so far are the modified ones that are not in `keys`. */
  ghost predicate Pushed(buffer: map<int, bool>, keys: set<int>, order: seq<int>) {
    && (forall id :: id in order <==> Modified(buffer, id) && id !in keys)
    && (forall i, j :: 0 <= i < j < |order| ==> order[i] != order[j])
  }

  lemma {:induction false} FlushConcat(t: Tables, a: seq<int>, b: seq<int>)
    ensures Flush(t, a + b) == match Flush(t, a) case None => None case Some(t') => Flush(t', b)
    decreases |a|
  {
    hide Push;
    if a == [] {
      assert a + b == b;
    } else {
      assert (a + b)[1..] == a[1..] + b && (a + b)[0] == a[0];
      match Push(t, a[0])
      case None =>
      case Some(t') => FlushConcat(t', a[1..], b);
    }
  }

  /** Whatever was pushed before, the next directory can be. */
  lemma {:induction false} PushPossible(s: Spider, order: seq<int>, keys: set<int>, id: int, t1: Tables, goal: Tables)
    requires forall order :: IterationOrder(s.buffer, order) ==> Flush(s.t, order) == Some(goal)
    requires Pushed(s.buffer, keys, order) && keys <= s.buffer.Keys && id in keys && s.buffer[id]
             && Flush(s.t, order) == Some(t1)
    ensures Push(t1, id).Some? && Flush(s.t, order + [id]) == Push(t1, id)
  {
    hide Push;
    var left := set k | k in keys && k != id && s.buffer[k];
    var rest := InOrder(left);
    OrderGoesOn(s.buffer, order, keys, id, left, rest);
    hide IterationOrder, Pushed;
    FlushConcat(s.t, order, [id] + rest);
    FlushConcat(s.t, order, [id]);
    assert ([id] + rest)[1..] == rest && [id][1..] == [];
  }

  lemma {:induction false} OrderGoesOn(buffer: map<int, bool>, order: seq<int>, keys: set<int>, id: int,
                                       left: set<int>, rest: seq<int>)
    requires Pushed(buffer, keys, order) && keys <= buffer.Keys && id in keys && buffer[id]
    requires left == (set k | k in keys && k != id && buffer[k]) && rest == InOrder(left)
    ensures IterationOrder(buffer, order + ([id] + rest))
  {
    var all := order + ([id] + rest);
    forall x
      ensures x in all <==> Modified(buffer, x)
    {
      assert x in all <==> x in order || x == id || x in left;
    }
    assert forall i :: 0 <= i < |rest| ==> rest[i] in left;
  }

  /** What an entry's line does to the rows of its directory. */
  function EntryStmt(act: Act, modified: bool, pid: nat, fid: nat, row: Row): Stmt {
    if act.Add? then if modified then InsertNew(pid, fid, row) else InsertFile(pid, fid, row)
    else if act.Del? then DeleteFile(pid, fid)
    else UpdateSize(pid, fid, row.size)
  }

  function ClosingStmts(modified: bool, pid: nat, fid: nat, size: nat, dir: nat, items: nat): seq<Stmt> {
    [UpdatePath(dir, pid, fid, items, size)] + if modified then [PushFiles(dir)] else []
  }

  /** The two halves of reading an entry's line. */
  lemma {:induction false} StepParts(s: Spider, line: Line)
    requires line.EntryLine? && !line.act.Plain? && Step(s, line).Some?
    ensures var closing := (line.act.Add? || line.act.Mod?) && line.dir > 0;
            var stmts := if closing then ClosingStmts(Modified(s.buffer, line.dir), line.pid, line.fid, line.size,
                                                      line.dir, line.items) else [];
            var buffer := if closing then s.buffer - {line.dir} else s.buffer;
            && ExecAll(s.t, stmts).Some?
            && var t := ExecAll(s.t, stmts).value;
            if line.pid == 0 then Step(s, line).value == Spider(t, buffer, Some(line.size))
            else
              var stmt := EntryStmt(line.act, Modified(buffer, line.pid), line.pid, line.fid,
                                    Row(line.dir, line.size, line.name));
              && (line.act.Add? ==> line.pid in buffer) && Exec(t, stmt).Some?
              && Step(s, line).value == Spider(Exec(t, stmt).value, buffer, s.total)
  {
    hide Exec;
    var closing := (line.act.Add? || line.act.Mod?) && line.dir > 0;
    var stmts := if closing then ClosingStmts(Modified(s.buffer, line.dir), line.pid, line.fid, line.size, line.dir,
                                              line.items) else [];
    var buffer := if closing then s.buffer - {line.dir} else s.buffer;
    if line.pid != 0 {
      var stmt := EntryStmt(line.act, Modified(buffer, line.pid), line.pid, line.fid,
                            Row(line.dir, line.size, line.name));
      ExecConcat(s.t, stmts, [stmt]);
      if ExecAll(s.t, stmts).Some? {
        ExecOne(ExecAll(s.t, stmts).value, stmt);
      }
      assert Read(line, s.buffer, s.total).value.stmts == stmts + [stmt];
    } else {
      assert stmts + [] == stmts;
    }
  }

  // ---------------------------------------------------------------- both modes

  /** The number of lines in front of the print. */
  method PatchLength(save: seq<Line>) returns (k: nat)
    ensures k <= |save| && IsPatch(save[..k]) && (k < |save| ==> save[k].act.Plain?)
  {
    k := 0;
    while k < |save| && !save[k].act.Plain?
      invariant k <= |save| && IsPatch(save[..k])
    {
      k := k + 1;
    }
  }

  lemma {:induction false} Split(patch: seq<Line>, t: Dir, k: nat)
    requires IsPatch(patch)
    requires var save := patch + Print(t); k <= |save| && IsPatch(save[..k]) && (k < |save| ==> save[k].act.Plain?)
    ensures (patch + Print(t))[..k] == patch
  {
    var save := patch + Print(t);
    var n := |patch|;
    assert save[n] == PathLine(Plain, t.id, []);
    assert forall i :: 0 <= i < n ==> save[i] == patch[i] && patch[i] in patch;
    assert forall i :: 0 <= i < k ==> save[..k][i] == save[i] && save[..k][i] in save[..k];
    assert k == n;
  }

  lemma Begins(qcache: PsycoCache, reader: LineReader)
    requires reader.qcache == qcache && reader.buffer == map[] && reader.added == {}
    requires qcache.query == [] && qcache.fquery == [] && qcache.totalsize == None
    ensures reader.Tracks(Spider(qcache.cursor.t, map[], None))
  {
    assert qcache.query + qcache.fquery == [];
  }

  lemma {:induction false} BufferPositive(e: Delta)
    requires Sound(e) && e.was.fid == e.dir.fid
    ensures var s := Run(Spider(TablesOf(e.was), map[], None), Patch(e));
            s.Some? && forall id :: id in s.value.buffer ==> id >= 0
  {
    PatchRuns(e);
    AwaitsPending(e);
    StayingPositive(e.ops);
    assert forall id :: id in AfterPatch(e).buffer ==> id in PendingIds(e);
  }

  /** Patching mode: the tables of the old tree become those of the new one, without an error, and
      the size of the share is seen when it has changed. */
  method PatchTables(cursor: Cursor, save: seq<Line>, ghost e: Delta)
    returns (ok: bool, total: Option<nat>, ghost order: seq<int>)
    requires Sound(e) && e.was.fid == e.dir.fid && cursor.t == TablesOf(e.was) && save == Patch(e) + Print(e.dir)
    modifies cursor
    ensures ok && cursor.t == TablesOf(e.dir) && total == if Closes(e) then Some(e.dir.size) else None
    ensures var s := Run(Spider(TablesOf(e.was), map[], None), Patch(e)); s.Some?
                                                                          && IterationOrder(s.value.buffer, order)
  {
    hide Patch, TablesOf, Closes;
    ghost var s0 := Spider(TablesOf(e.was), map[], None);
    var qcache := new PsycoCache(cursor);
    var reader := new LineReader(qcache);
    Begins(qcache, reader);
    var k := PatchLength(save);
    PatchMarked(e);
    Split(Patch(e), e.dir, k);
    PatchQuiet(e);
    PatchGivesImage(e, []);
    ok := reader.ScanLines(save[..k], s0);
    ghost var s := Run(s0, Patch(e)).value;
    forall order | IterationOrder(s.buffer, order)
      ensures Flush(s.t, order) == Some(TablesOf(e.dir))
    {
      PatchGivesImage(e, order);
    }
    BufferPositive(e);
    ok, order := reader.PushAll(s, TablesOf(e.dir));
    ok := qcache.FCommit(TablesOf(e.dir));
    total := qcache.totalsize;
  }

  lemma {:induction false} PatchMarked(e: Delta)
    ensures IsPatch(Patch(e))
  {
    DeltaPatch(e, 0, []);
  }

  /** Full mode: after the deletion of all rows, every line of the print is read as an addition. */
  method LoadTables(cursor: Cursor, save: seq<Line>, ghost patch: seq<Line>, ghost t: Dir)
    returns (ok: bool, total: Option<nat>)
    requires Canonical(t) && UniqueIds(t) && save == patch + Print(t) && IsPatch(patch) && cursor.t.newfiles == map[]
    modifies cursor
    ensures ok && cursor.t == TablesOf(t) && total == Some(t.size)
  {
    hide TablesOf, Print;
    cursor.DeleteAll();
    var lines: seq<Line> := [];
    var i := 0;
    while i < |save|
      invariant i <= |save| && lines == Additions(save[..i]) && cursor.t == EMPTY
    {
      assert save[..i + 1] == save[..i] + [save[i]];
      AdditionsConcat(save[..i], [save[i]]);
      AdditionOne(save[i]);
      if save[i].act.Plain? {
        lines := lines + [save[i].(act := Add)];
      }
      i := i + 1;
    }
    assert save[..i] == save;
    PrintAdditions(patch, t);
    LoadGivesImage(t);
    PrintQuiet(t);
    var qcache := new PsycoCache(cursor);
    var reader := new LineReader(qcache);
    Begins(qcache, reader);
    ok := reader.ScanLines(lines, Spider(EMPTY, map[], None));
    ok := qcache.FCommit(TablesOf(t));
    total := qcache.totalsize;
  }

  /** The lines of the print among those of a save, read as additions. */
  function Additions(save: seq<Line>): seq<Line> {
    if save == [] then [] else (if save[0].act.Plain? then [save[0].(act := Add)] else []) + Additions(save[1..])
  }

  lemma {:induction false} AdditionsConcat(a: seq<Line>, b: seq<Line>)
    ensures Additions(a + b) == Additions(a) + Additions(b)
    decreases |a|
  {
    if a == [] {
      assert a + b == b;
    } else {
      AdditionsConcat(a[1..], b);
      assert (a + b)[1..] == a[1..] + b && (a + b)[0] == a[0];
      AdditionsFirst(a);
      AdditionsFirst(a + b);
      hide Additions;
      Basics.Regroup(Additions([a[0]]), Additions(a[1..]), Additions(b));
    }
  }

  lemma {:induction false} AdditionsFirst(a: seq<Line>)
    requires a != []
    ensures Additions(a) == Additions([a[0]]) + Additions(a[1..])
  {
    AdditionOne(a[0]);
  }

  lemma {:induction false} AdditionOne(line: Line)
    ensures Additions([line]) == if line.act.Plain? then [line.(act := Add)] else []
  {
    assert [line][1..] == [];
  }

  lemma {:induction false} PatchAdditions(patch: seq<Line>)
    requires IsPatch(patch)
    ensures Additions(patch) == []
    decreases |patch|
  {
    if patch != [] {
      assert patch[0] in patch;
      PatchAdditions(patch[1..]);
    }
  }

  lemma {:induction false} PlainAdditions(lines: seq<Line>)
    requires forall line :: line in lines ==> line.act.Plain?
    ensures Additions(lines) == AsAdded(lines) && forall line :: line in AsAdded(lines) ==> !line.act.Plain?
    decreases |lines|
  {
    if lines != [] {
      assert lines[0] in lines;
      PlainAdditions(lines[1..]);
    }
  }

  lemma {:induction false} PrintAdditions(patch: seq<Line>, t: Dir)
    requires IsPatch(patch)
    ensures Additions(patch + Print(t)) == AsAdded(Print(t)) && IsPatch(AsAdded(Print(t)))
  {
    AdditionsConcat(patch, Print(t));
    PatchAdditions(patch);
    PrintPlain(t);
    PlainAdditions(Print(t));
  }
}
