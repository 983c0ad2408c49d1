/** The tables of one share's tree, the statements the spider sends to them, and the spider's
    reading of a line. Each `paths` row is kept together with the `files` rows that reference it,
    which is what the foreign key with its cascade makes of them; `newfiles` has no such key. */
module Store {
  import opened Wrappers
  import opened Trees

  /** A `files` row under (treepath_id, pathfile_id): treedir_id, size and name. */
  datatype Row = Row(dir: nat, size: nat, name: string)

  /** A `paths` row with the `files` rows of that directory; parent_id and parentfile_id start as NULL. */
  datatype Rec = Rec(path: Path, parent: Option<nat>, slot: Option<int>, items: nat, size: nat,
                     rows: map<int, Row>)

  datatype Tables = Tables(dirs: map<int, Rec>, newfiles: map<int, map<int, Row>>)

  /** The rows of a directory in `newfiles`. */
  function Waiting(newfiles: map<int, map<int, Row>>, pid: int): map<int, Row> {
    if pid in newfiles then newfiles[pid] else map[]
  }

  function NewRows(t: Tables, pid: int): map<int, Row> {
    Waiting(t.newfiles, pid)
  }

  // ---------------------------------------------------------------- ORDER BY pathfile_id

  function Least(s: set<int>): (m: int)
    requires s != {}
    ensures m in s && forall x :: x in s ==> m <= x
  {
    LeastExists(s);
    var m :| m in s && forall x :: x in s ==> m <= x;
    m
  }

  lemma HasMember(s: set<int>)
    ensures s == {} || exists m :: m in s
  {
    if forall m :: m !in s {
      assert s == {};
    }
  }

  lemma LeastExists(s: set<int>)
    requires s != {}
    ensures exists m :: m in s && forall x :: x in s ==> m <= x
  {
    HasMember(s);
    var m :| m in s;
    if s != {m} {
      var rest := s - {m};
      LeastExists(rest);
      var k :| k in rest && forall x :: x in rest ==> k <= x;
      var least := if m < k then m else k;
      assert forall x :: x in s ==> x == m || x in rest;
      assert least in s && forall x :: x in s ==> least <= x;
    }
  }

  function InOrder(s: set<int>): (r: seq<int>)
    ensures forall x :: x in r <==> x in s
    ensures forall i, j :: 0 <= i < j < |r| ==> r[i] < r[j]
  {
    if s == {} then []
    else
      var m := Least(s);
      var rest := InOrder(s - {m});
      assert forall i :: 0 <= i < |rest| ==> rest[i] in s - {m};
      [m] + rest
  }

  ghost predicate Increasing(r: seq<int>) {
    forall i, j :: 0 <= i < j < |r| ==> r[i] < r[j]
  }

  /** There is only one way to list a set of numbers in increasing order. */
  lemma {:induction false} OrderUnique(a: seq<int>, b: seq<int>)
    requires Increasing(a) && Increasing(b)
    requires forall x :: x in a <==> x in b
    ensures a == b
    decreases |a|
  {
    assert b != [] ==> b[0] in b && b[0] in a;
    if a != [] {
      assert a[0] in a;
      assert a[0] in b && b[0] in b;
      assert a[0] == b[0];
      forall x
        ensures x in a[1..] <==> x in b[1..]
      {
        assert x in a[1..] <==> x in a && x != a[0];
        assert x in b[1..] <==> x in b && x != b[0];
      }
      OrderUnique(a[1..], b[1..]);
      assert a == [a[0]] + a[1..] && b == [b[0]] + b[1..];
    }
  }

  // ---------------------------------------------------------------- push_path_files

  /** The positions that the renumbering loop gives to the old rows, whose order is kept, when the
      positions in `news` are taken; None is the check violation. `n` is the loop's counter. */
  function Places(olds: nat, news: seq<int>, n: nat): Option<seq<int>>
    decreases olds + |news|
  {
    if olds == 0 then Some([])
    else if news != [] && n == news[0] then Places(olds, news[1..], n + 1)
    else if news != [] && n > news[0] then None
    else
      match Places(olds - 1, news, n + 1)
      case None => None
      case Some(rest) => Some([n] + rest)
  }

  lemma {:induction false} PlacesLength(olds: nat, news: seq<int>, n: nat)
    ensures Places(olds, news, n).Some? ==> |Places(olds, news, n).value| == olds
    decreases olds + |news|
  {
    if olds != 0 {
      if news != [] && n == news[0] {
        PlacesLength(olds, news[1..], n + 1);
      } else if news == [] || n < news[0] {
        PlacesLength(olds - 1, news, n + 1);
      }
    }
  }

  /** The old rows under their new numbers. */
  function Renumbered(rows: map<int, Row>, olds: seq<int>, places: seq<int>): map<int, Row>
    requires |olds| == |places|
    requires forall i :: 0 <= i < |olds| ==> olds[i] in rows
  {
    if olds == [] then map[]
    else Renumbered(rows, olds[1..], places[1..])[places[0] := rows[olds[0]]]
  }

  /** A subdirectory whose row moved has its back reference moved with it. */
  function Relinked(dirs: map<int, Rec>, rows: map<int, Row>, olds: seq<int>, places: seq<int>): map<int, Rec>
    requires |olds| == |places|
    requires forall i :: 0 <= i < |olds| ==> olds[i] in rows
  {
    if olds == [] then dirs
    else
      var c := rows[olds[0]].dir;
      var dirs' := if places[0] != olds[0] && c > 0 && c in dirs
                   then dirs[c := dirs[c].(slot := Some(places[0]))] else dirs;
      Relinked(dirs', rows, olds[1..], places[1..])
  }

  lemma {:induction false} RelinkedKeeps(dirs: map<int, Rec>, rows: map<int, Row>, olds: seq<int>, places: seq<int>)
    requires |olds| == |places|
    requires forall i :: 0 <= i < |olds| ==> olds[i] in rows
    ensures var dirs' := Relinked(dirs, rows, olds, places);
            dirs'.Keys == dirs.Keys && forall c :: c in dirs ==> dirs'[c] == dirs[c].(slot := dirs'[c].slot)
    decreases |olds|
  {
    if olds != [] {
      var c := rows[olds[0]].dir;
      var dirs1 := if places[0] != olds[0] && c > 0 && c in dirs
      then dirs[c := dirs[c].(slot := Some(places[0]))] else dirs;
      assert dirs1.Keys == dirs.Keys;
      RelinkedKeeps(dirs1, rows, olds[1..], places[1..]);
    }
  }

  /** push_path_files(tree, pid). */
  function Push(t: Tables, pid: int): Option<Tables> {
    var news := NewRows(t, pid);
    if pid !in t.dirs then
      if news == map[] then Some(t) else None
    else
      var rows := t.dirs[pid].rows;
      var olds := InOrder(rows.Keys);
      PlacesLength(|olds|, InOrder(news.Keys), 0);
      match Places(|olds|, InOrder(news.Keys), 0)
      case None => None
      case Some(places) =>
        var moved := Renumbered(rows, olds, places);
        if moved.Keys !! news.Keys then
          var dirs := Relinked(t.dirs, rows, olds, places);
          RelinkedKeeps(t.dirs, rows, olds, places);
          Some(Tables(dirs[pid := dirs[pid].(rows := moved + news)], t.newfiles - {pid}))
        else None
  }

  // ---------------------------------------------------------------- statements

  datatype Stmt =
    | InsertPath(id: nat, path: Path)
    | DeletePath(id: nat)
    | UpdatePath(id: nat, parent: nat, slot: nat, items: nat, size: nat)
    | InsertFile(pid: nat, fid: nat, row: Row)
    | InsertNew(pid: nat, fid: nat, row: Row)
    | DeleteFile(pid: nat, fid: nat)
    | UpdateSize(pid: nat, fid: nat, size: nat)
    | PushFiles(pid: nat)

  /** Running one statement. None stands for the errors that abort the transaction: a second row
      with the same key or the same path, a `files` row without its `paths` row, and the check
      violation of the renumbering loop. A second row at one position of a listing counts as an
      error too, although no constraint of the schema forbids it. */
  function Exec(t: Tables, s: Stmt): Option<Tables> {
    match s
    case InsertPath(id, path) =>
      if id in t.dirs || exists i :: i in t.dirs && t.dirs[i].path == path then None
      else Some(t.(dirs := t.dirs[id := Rec(path, None, None, 0, 0, map[])]))
    case DeletePath(id) => Some(t.(dirs := t.dirs - {id}))
    case UpdatePath(id, parent, slot, items, size) =>
      if id !in t.dirs then Some(t)
      else
        var rec := t.dirs[id].(parent := Some(parent), slot := Some(slot), items := items, size := size);
        Some(t.(dirs := t.dirs[id := rec]))
    case InsertFile(pid, fid, row) =>
      if pid !in t.dirs || fid in t.dirs[pid].rows then None
      else Some(t.(dirs := t.dirs[pid := t.dirs[pid].(rows := t.dirs[pid].rows[fid := row])]))
    case InsertNew(pid, fid, row) =>
      if fid in NewRows(t, pid) then None
      else Some(t.(newfiles := t.newfiles[pid := NewRows(t, pid)[fid := row]]))
    case DeleteFile(pid, fid) =>
      if pid !in t.dirs then Some(t)
      else Some(t.(dirs := t.dirs[pid := t.dirs[pid].(rows := t.dirs[pid].rows - {fid})]))
    case UpdateSize(pid, fid, size) =>
      if pid !in t.dirs || fid !in t.dirs[pid].rows then Some(t)
      else
        var row := t.dirs[pid].rows[fid].(size := size);
        Some(t.(dirs := t.dirs[pid := t.dirs[pid].(rows := t.dirs[pid].rows[fid := row])]))
    case PushFiles(pid) => Push(t, pid)
  }

  function ExecAll(t: Tables, ss: seq<Stmt>): Option<Tables>
    decreases |ss|
  {
    if ss == [] then Some(t)
    else
      match Exec(t, ss[0])
      case None => None
      case Some(t') => ExecAll(t', ss[1..])
  }

  lemma {:induction false} ExecOne(t: Tables, s: Stmt)
    ensures ExecAll(t, [s]) == Exec(t, s)
  {
    match Exec(t, s)
    case None =>
    case Some(t') => assert ExecAll(t', [s][1..]) == Some(t');
  }

  // ---------------------------------------------------------------- scan_line_patch

  /** The spider while it reads lines: the tables, the paths_buffer with the `modify` flag of each
      directory in it, and the share size it has seen. */
  datatype Spider = Spider(t: Tables, buffer: map<int, bool>, total: Option<nat>)

  /** What one line makes of the buffer and the size, and the statements it sends. */
  datatype Reading = Reading(buffer: map<int, bool>, total: Option<nat>, stmts: seq<Stmt>)

  predicate Modified(buffer: map<int, bool>, id: int) {
    id in buffer && buffer[id]
  }

  /** scan_line_patch; None is the KeyError of an entry added to a directory that no line opened. */
  function Read(line: Line, buffer: map<int, bool>, total: Option<nat>): Option<Reading> {
    match line
    case PathLine(act, id, path) =>
      (match act
       case Add => Some(Reading(buffer[id := false], total, [InsertPath(id, path)]))
       case Del => Some(Reading(buffer, total, [DeletePath(id)]))
       case Mod => Some(Reading(buffer[id := true], total, []))
       case Plain => Some(Reading(buffer, total, [])))
    case EntryLine(act, pid, fid, size, dir, items, name) =>
      var closing := (act.Add? || act.Mod?) && dir > 0;
      var update :=
        if closing then
          [UpdatePath(dir, pid, fid, items, size)] + if Modified(buffer, dir) then [PushFiles(dir)] else []
        else [];
      var buffer' := if closing then buffer - {dir} else buffer;
      if pid == 0 then Some(Reading(buffer', Some(size), update))
      else
        match act
        case Add =>
          if pid !in buffer' then None
          else
            var row := Row(dir, size, name);
            Some(Reading(buffer', total,
                         update + [if buffer'[pid] then InsertNew(pid, fid, row) else InsertFile(pid, fid, row)]))
        case Del => Some(Reading(buffer', total, update + [DeleteFile(pid, fid)]))
        case Mod => Some(Reading(buffer', total, update + [UpdateSize(pid, fid, size)]))
        case Plain => Some(Reading(buffer', total, update))
  }

  function Step(s: Spider, line: Line): Option<Spider> {
    match Read(line, s.buffer, s.total)
    case None => None
    case Some(r) =>
      match ExecAll(s.t, r.stmts)
      case None => None
      case Some(t) => Some(Spider(t, r.buffer, r.total))
  }

  function Run(s: Spider, lines: seq<Line>): Option<Spider>
    decreases |lines|
  {
    if lines == [] then Some(s)
    else
      match Step(s, lines[0])
      case None => None
      case Some(s') => Run(s', lines[1..])
  }

  lemma {:induction false} RunConcat(s: Spider, a: seq<Line>, b: seq<Line>)
    ensures Run(s, a + b) == match Run(s, a) case None => None case Some(s') => Run(s', b)
    decreases |a|
  {
    if a == [] {
      assert a + b == b;
    } else {
      assert (a + b)[1..] == a[1..] + b;
      match Step(s, a[0])
      case None =>
      case Some(s') => RunConcat(s', a[1..], b);
    }
  }

  lemma {:induction false} RunOne(s: Spider, line: Line)
    ensures Run(s, [line]) == Step(s, line)
  {
    match Step(s, line)
    case None =>
    case Some(s') => assert Run(s', [line][1..]) == Some(s');
  }

  /** After the last patch line, every directory still marked as modified is renumbered, in the
      order in which the buffer happens to be iterated. */
  function Flush(t: Tables, order: seq<int>): Option<Tables>
    decreases |order|
  {
    if order == [] then Some(t)
    else
      match Push(t, order[0])
      case None => None
      case Some(t') => Flush(t', order[1..])
  }

  /** The orders in which a buffer can be iterated, restricted to its modified directories. */
  ghost predicate IterationOrder(buffer: map<int, bool>, order: seq<int>) {
    && (forall id :: id in order <==> Modified(buffer, id))
    && (forall i, j :: 0 <= i < j < |order| ==> order[i] != order[j])
  }

  const EMPTY := Tables(map[], map[])

  /** A full load: the tree's rows are deleted and every line of the print is read as an addition. */
  function AsAdded(lines: seq<Line>): seq<Line> {
    if lines == [] then [] else [lines[0].(act := Add)] + AsAdded(lines[1..])
  }

  /** The rows of directory `pid` after a change, everything else as it was. */
  function WithRows(dirs: map<int, Rec>, pid: int, rows: map<int, Row>): map<int, Rec>
    requires pid in dirs
  {
    dirs[pid := dirs[pid].(rows := rows)]
  }
}
