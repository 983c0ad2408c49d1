/** The spider's cache of statements: inserts into `files` are held back and sent in batches. The
    tables end up as if every statement had been sent at once. */
module Cache {
  import opened Wrappers
  import opened Trees
  import opened Store

  /** The statement reads or changes the rows of directory `pid`, or the directory itself. */
  predicate Touches(s: Stmt, pid: int) {
    match s
    case InsertPath(id, _) => id == pid
    case DeletePath(id) => id == pid
    case UpdatePath(_, _, _, _, _) => false
    case InsertFile(id, _, _) => id == pid
    case InsertNew(_, _, _) => false
    case DeleteFile(id, _) => id == pid
    case UpdateSize(id, _, _) => id == pid
    case PushFiles(id) => id == pid
  }

  // ---------------------------------------------------------------- an insert can wait

  lemma {:induction false} RelinkBeside(dirs: map<int, Rec>, pid: int, more: map<int, Row>, rows: map<int, Row>,
                                        olds: seq<int>, places: seq<int>)
    requires pid in dirs && |olds| == |places| && forall i :: 0 <= i < |olds| ==> olds[i] in rows
    ensures pid in Relinked(dirs, rows, olds, places)
    ensures Relinked(WithRows(dirs, pid, more), rows, olds, places)
         == WithRows(Relinked(dirs, rows, olds, places), pid, more)
    decreases |olds|
  {
    RelinkedKeeps(dirs, rows, olds, places);
    if olds != [] {
      var c := rows[olds[0]].dir;
      if places[0] != olds[0] && c > 0 && c in dirs {
        var dirs' := dirs[c := dirs[c].(slot := Some(places[0]))];
        var with := WithRows(dirs, pid, more);
        assert with[c := with[c].(slot := Some(places[0]))] == WithRows(dirs', pid, more);
        RelinkBeside(dirs', pid, more, rows, olds[1..], places[1..]);
      } else {
        RelinkBeside(dirs, pid, more, rows, olds[1..], places[1..]);
      }
    }
  }

  /** Renumbering one directory and adding rows to another can change places. */
  lemma {:induction false} PushBeside(t: Tables, d: int, pid: int, more: map<int, Row>)
    requires pid in t.dirs && d != pid && Push(t, d).Some?
    ensures pid in Push(t, d).value.dirs
    ensures Push(t.(dirs := WithRows(t.dirs, pid, more)), d)
         == Some(Push(t, d).value.(dirs := WithRows(Push(t, d).value.dirs, pid, more)))
    ensures Push(t, d).value.dirs[pid].rows == t.dirs[pid].rows
  {
    if d in t.dirs {
      var rows := t.dirs[d].rows;
      var olds, news := InOrder(rows.Keys), InOrder(NewRows(t, d).Keys);
      var places := Places(|olds|, news, 0);
      PlacesLength(|olds|, news, 0);
      var t' := t.(dirs := WithRows(t.dirs, pid, more));
      assert NewRows(t', d) == NewRows(t, d) && t'.dirs[d] == t.dirs[d];
      RelinkBeside(t.dirs, pid, more, rows, olds, places.value);
      RelinkedKeeps(t.dirs, rows, olds, places.value);
      PutBoth(Relinked(t.dirs, rows, olds, places.value), pid, more, d,
              Renumbered(rows, olds, places.value) + NewRows(t, d));
    }
  }

  lemma PutBoth(dirs: map<int, Rec>, pid: int, more: map<int, Row>, d: int, rows: map<int, Row>)
    requires pid in dirs && d in dirs && d != pid
    ensures WithRows(WithRows(dirs, pid, more), d, rows) == WithRows(WithRows(dirs, d, rows), pid, more)
  {
  }

  lemma {:induction false} PushBack(t: Tables, d: int, pid: int, rows: map<int, Row>)
    requires pid in t.dirs && d != pid
    requires Push(t.(dirs := WithRows(t.dirs, pid, rows)), d).Some?
    ensures Push(t, d).Some?
  {
    var t' := t.(dirs := WithRows(t.dirs, pid, rows));
    PushBeside(t', d, pid, t.dirs[pid].rows);
    assert WithRows(t'.dirs, pid, t.dirs[pid].rows) == t.dirs;
  }

  lemma {:induction false} InsertWaits(t: Tables, b: Stmt, s: Stmt, t1: Tables, t2: Tables)
    requires b.InsertFile? && !s.InsertFile? && !Touches(s, b.pid)
    requires Exec(t, b) == Some(t1) && Exec(t1, s) == Some(t2)
    ensures Exec(t, s).Some? && Exec(Exec(t, s).value, b) == Some(t2)
  {
    hide Push;
    var pid := b.pid;
    var rows := t.dirs[pid].rows[b.fid := b.row];
    assert t1 == t.(dirs := WithRows(t.dirs, pid, rows));
    match s {
      case InsertPath(id, path) =>
        InsertBeside(t, pid, rows, id, path);
      case DeletePath(id) =>
        assert t2.dirs == WithRows(t.dirs - {id}, pid, rows);
      case UpdatePath(id, parent, slot, items, size) =>
        if id in t.dirs {
          var u := Exec(t, s).value;
          assert t2.dirs == WithRows(u.dirs, pid, rows);
        }
      case InsertNew(_, _, _) =>
      case DeleteFile(id, fid) =>
        if id in t.dirs {
          var u := Exec(t, s).value;
          assert t2.dirs == WithRows(u.dirs, pid, rows);
        }
      case UpdateSize(id, fid, size) =>
        if id in t.dirs && fid in t.dirs[id].rows {
          var u := Exec(t, s).value;
          assert t2.dirs == WithRows(u.dirs, pid, rows);
        }
      case PushFiles(d) =>
        PushBack(t, d, pid, rows);
        PushBeside(t, d, pid, rows);
    }
  }

  lemma {:induction false} InsertBeside(t: Tables, pid: int, rows: map<int, Row>, id: nat, path: Path)
    requires pid in t.dirs && id != pid
    requires var t1 := t.(dirs := WithRows(t.dirs, pid, rows)); Exec(t1, InsertPath(id, path)).Some?
    ensures var t1 := t.(dirs := WithRows(t.dirs, pid, rows));
            && Exec(t, InsertPath(id, path)).Some?
            && Exec(t1, InsertPath(id, path)).value
               == t.(dirs := WithRows(Exec(t, InsertPath(id, path)).value.dirs, pid, rows))
            && Exec(t, InsertPath(id, path)).value.newfiles == t.newfiles
            && Exec(t, InsertPath(id, path)).value.dirs[pid] == t.dirs[pid]
  {
    var t1 := t.(dirs := WithRows(t.dirs, pid, rows));
    assert forall i :: i in t.dirs ==> i in t1.dirs && t1.dirs[i].path == t.dirs[i].path;
    var rec := Rec(path, None, None, 0, 0, map[]);
    assert t1.dirs[id := rec] == WithRows(t.dirs[id := rec], pid, rows);
  }

  ghost predicate Inserts(ss: seq<Stmt>) {
    forall b :: b in ss ==> b.InsertFile?
  }

  /** A statement that touches none of the directories concerned can be sent before the inserts that
      wait. */
  lemma {:induction false} SendFirst(t: Tables, waiting: seq<Stmt>, s: Stmt, t': Tables)
    requires Inserts(waiting) && !s.InsertFile? && forall b :: b in waiting ==> !Touches(s, b.pid)
    requires ExecAll(t, waiting + [s]) == Some(t')
    ensures ExecAll(t, [s] + waiting) == Some(t')
    decreases |waiting|
  {
    if waiting == [] {
      assert waiting + [s] == [s] + waiting;
    } else {
      var b := waiting[0];
      assert b in waiting;
      assert (waiting + [s])[0] == b && (waiting + [s])[1..] == waiting[1..] + [s];
      var t1 := Exec(t, b).value;
      SendFirst(t1, waiting[1..], s, t');
      assert ([s] + waiting[1..])[1..] == waiting[1..];
      var t2 := Exec(t1, s).value;
      InsertWaits(t, b, s, t1, t2);
      assert ([s] + waiting)[1..] == waiting;
    }
  }

  lemma {:induction false} ExecConcat(t: Tables, a: seq<Stmt>, b: seq<Stmt>)
    ensures ExecAll(t, a + b) == match ExecAll(t, a) case None => None case Some(t') => ExecAll(t', b)
    decreases |a|
  {
    if a == [] {
      assert a + b == b;
    } else {
      assert (a + b)[1..] == a[1..] + b;
      match Exec(t, a[0])
      case None =>
      case Some(t') => ExecConcat(t', a[1..], b);
    }
  }

  // ---------------------------------------------------------------- which lines keep out of the way

  /** The line does not come back to a directory that an earlier line has added. */
  predicate Harmless(line: Line, added: set<int>) {
    match line
    case PathLine(act, id, _) => act.Plain? || id !in added
    case EntryLine(act, pid, _, _, _, _, _) => act.Add? || act.Plain? || pid == 0 || pid !in added
  }

  function Adding(line: Line): set<int> {
    if line.PathLine? && line.act.Add? then {line.id} else {}
  }

  predicate Quiet(lines: seq<Line>, added: set<int>)
    decreases |lines|
  {
    lines != [] ==> Harmless(lines[0], added) && Quiet(lines[1..], added + Adding(lines[0]))
  }

  // ---------------------------------------------------------------- PsycoCache

  /** More statements than this are not kept. */
  const LIMIT := 1024

  /** The cursor of a transaction on the tables of one share; a failed statement aborts it. */
  class Cursor {
    var t: Tables

    constructor (t: Tables)
      ensures this.t == t
    {
      this.t := t;
    }

    /** DELETE FROM paths, for the whole tree. */
    method DeleteAll()
      modifies this
      ensures t == old(t).(dirs := map[])
    {
      t := t.(dirs := map[]);
    }

    method Execute(stmts: seq<Stmt>) returns (ok: bool)
      modifies this
      ensures ok == ExecAll(old(t), stmts).Some?
      ensures ok ==> t == ExecAll(old(t), stmts).value
      ensures !ok ==> t == old(t)
    {
      var r := ExecAll(t, stmts);
      ok := r.Some?;
      if ok {
        t := r.value;
      }
    }
  }

  class PsycoCache {
    const cursor: Cursor
    var query: seq<Stmt>
    var fquery: seq<Stmt>
    var totalsize: Option<nat>

    constructor (cursor: Cursor)
      ensures this.cursor == cursor && query == [] && fquery == [] && totalsize == None
    {
      this.cursor := cursor;
      query, fquery, totalsize := [], [], None;
    }

    /** The tables as they would be with nothing held back are `now`. */
    ghost predicate Shows(now: Tables)
      reads this, cursor
    {
      Inserts(fquery) && ExecAll(cursor.t, query + fquery) == Some(now)
    }

    method Commit(ghost now: Tables) returns (ok: bool)
      requires Shows(now)
      modifies this`query, cursor
      ensures ok && Shows(now) && query == []
    {
      ok := true;
      if |query| > 0 {
        ExecConcat(cursor.t, query, fquery);
        ok := cursor.Execute(query);
        query := [];
        assert query + fquery == fquery;
      }
    }

    method Append(s: Stmt, ghost now: Tables) returns (ok: bool)
      requires Shows(now) && !s.InsertFile? && (forall b :: b in fquery ==> !Touches(s, b.pid)) && Exec(now, s).Some?
      modifies this`query, cursor
      ensures ok && Shows(Exec(now, s).value)
      ensures |old(query)| < 1024 ==> cursor.t == old(cursor.t) && query == old(query) + [s]
      ensures |query| <= 1024
    {
      ghost var now' := Exec(now, s).value;
      ExecConcat(cursor.t, query, fquery);
      ghost var t1 := ExecAll(cursor.t, query).value;
      ExecConcat(t1, fquery, [s]);
      ExecOne(now, s);
      SendFirst(t1, fquery, s, now');
      ExecConcat(cursor.t, query, [s] + fquery);
      query := query + [s];
      assert query + fquery == old(query) + ([s] + fquery);
      ok := true;
      if |query| > LIMIT {
        ok := Commit(now');
      }
    }

    method FCommit(ghost now: Tables) returns (ok: bool)
      requires Shows(now)
      modifies this`query, this`fquery, cursor
      ensures ok && Shows(now) && query == [] && fquery == []
    {
      if |fquery| > 0 {
        query := query + fquery;
        fquery := [];
        assert query + fquery == query;
      }
      ok := Commit(now);
    }

    method FAppend(b: Stmt, ghost now: Tables) returns (ok: bool)
      requires Shows(now) && b.InsertFile? && Exec(now, b).Some?
      modifies this`query, this`fquery, cursor
      ensures ok && Shows(Exec(now, b).value) && forall x :: x in fquery ==> x == b || x in old(fquery)
      ensures |old(fquery)| < 1024 ==> cursor.t == old(cursor.t) && fquery == old(fquery) + [b]
      ensures |fquery| <= 1024
    {
      ExecConcat(cursor.t, query + fquery, [b]);
      ExecOne(now, b);
      fquery := fquery + [b];
      assert query + fquery == (query + old(fquery)) + [b];
      ok := true;
      if |fquery| > LIMIT {
        ok := FCommit(Exec(now, b).value);
      }
    }
  }
}
