/** push_path_files and path_goup as the database runs them: cursors, counters and row updates. */
module Dbinit {
  import opened Wrappers
  import opened Store

  /** A row of `files` under its file_id. */
  datatype FileRow = FileRow(pid: int, fid: int, row: Row)

  // ---------------------------------------------------------------- positions

  /** The places given to the old rows rise, and none of them is taken by a new row. */
  lemma {:induction false} PlacesApart(olds: nat, news: seq<int>, n: nat)
    requires Increasing(news) && Places(olds, news, n).Some?
    ensures var ps := Places(olds, news, n).value;
            |ps| == olds && Increasing(ps) && forall p :: p in ps ==> p >= n && p !in news
    decreases olds + |news|
  {
    if olds != 0 {
      if news != [] && n == news[0] {
        PlacesApart(olds, news[1..], n + 1);
      } else {
        PlacesApart(olds - 1, news, n + 1);
        var rest := Places(olds - 1, news, n + 1).value;
        forall i | 0 <= i < |rest|
          ensures rest[i] > n
        {
          assert rest[i] in rest;
        }
        assert news == [] || forall x :: x in news ==> x > n;
        assert Places(olds, news, n).value == [n] + rest;
      }
    }
  }

  /** The check violation cannot come up when the new positions are different from each other: the
      counter never passes the next of them. */
  lemma {:induction false} NeverRaises(olds: nat, news: seq<int>, n: nat)
    requires Increasing(news) && (news != [] ==> n <= news[0])
    ensures Places(olds, news, n).Some?
    decreases olds + |news|
  {
    if olds != 0 {
      if news != [] && n == news[0] {
        NeverRaises(olds, news[1..], n + 1);
      } else {
        NeverRaises(olds - 1, news, n + 1);
      }
    }
  }

  lemma {:induction false} RenumberedAt(rows: map<int, Row>, olds: seq<int>, places: seq<int>)
    requires |olds| == |places| && (forall i :: 0 <= i < |olds| ==> olds[i] in rows) && Increasing(places)
    ensures forall p :: p in Renumbered(rows, olds, places) <==> p in places
    ensures forall i :: 0 <= i < |olds| ==> Renumbered(rows, olds, places)[places[i]] == rows[olds[i]]
    decreases |olds|
  {
    if olds != [] {
      var rest := Renumbered(rows, olds[1..], places[1..]);
      RenumberedAt(rows, olds[1..], places[1..]);
      var all := Renumbered(rows, olds, places);
      assert all == rest[places[0] := rows[olds[0]]];
      forall i | 0 <= i < |olds|
        ensures places[i] in all && all[places[i]] == rows[olds[i]]
      {
        if i > 0 {
          assert places[1..][i - 1] == places[i] && olds[1..][i - 1] == olds[i];
          assert places[i] in places[1..];
        }
      }
    }
  }

  lemma {:induction false} RelinkedNext(dirs: map<int, Rec>, rows: map<int, Row>, olds: seq<int>, places: seq<int>,
                                        old': int, place: int)
    requires |olds| == |places| && (forall i :: 0 <= i < |olds| ==> olds[i] in rows) && old' in rows
    ensures forall i :: 0 <= i < |olds + [old']| ==> (olds + [old'])[i] in rows
    ensures var before := Relinked(dirs, rows, olds, places);
            var c := rows[old'].dir;
            Relinked(dirs, rows, olds + [old'], places + [place])
            == if place != old' && c > 0 && c in before then before[c := before[c].(slot := Some(place))] else before
    decreases |olds|
  {
    if olds == [] {
      assert olds + [old'] == [old'] && places + [place] == [place];
      assert [old'][1..] == [] && [place][1..] == [];
    } else {
      var c := rows[olds[0]].dir;
      var moved := places[0] != olds[0] && c > 0 && c in dirs;
      var dirs' := if moved then dirs[c := dirs[c].(slot := Some(places[0]))] else dirs;
      assert (olds + [old'])[1..] == olds[1..] + [old'] && (places + [place])[1..] == places[1..] + [place];
      RelinkedNext(dirs', rows, olds[1..], places[1..], old', place);
    }
  }

  /** The rows of `paths` alone. */
  function Bare(dirs: map<int, Rec>): map<int, Rec> {
    map id | id in dirs :: dirs[id].(rows := map[])
  }

  lemma {:induction false} BareRelinked(dirs: map<int, Rec>, rows: map<int, Row>, olds: seq<int>, places: seq<int>)
    requires |olds| == |places| && forall i :: 0 <= i < |olds| ==> olds[i] in rows
    ensures Relinked(Bare(dirs), rows, olds, places) == Bare(Relinked(dirs, rows, olds, places))
    decreases |olds|
  {
    if olds != [] {
      var c := rows[olds[0]].dir;
      if places[0] != olds[0] && c > 0 && c in dirs {
        var dirs' := dirs[c := dirs[c].(slot := Some(places[0]))];
        assert Bare(dirs)[c := Bare(dirs)[c].(slot := Some(places[0]))] == Bare(dirs');
        BareRelinked(dirs', rows, olds[1..], places[1..]);
      } else {
        BareRelinked(dirs, rows, olds[1..], places[1..]);
      }
    }
  }

  // ---------------------------------------------------------------- the flat table of files

  ghost predicate At(files: map<int, FileRow>, id: int, pid: int, fid: int) {
    id in files && files[id].pid == pid && files[id].fid == fid
  }

  /** The flat table holds exactly the rows of the directories, each once. */
  ghost predicate Holds(files: map<int, FileRow>, dirs: map<int, Rec>) {
    && (forall id :: id in files ==> files[id].pid in dirs && files[id].fid in dirs[files[id].pid].rows
                                     && dirs[files[id].pid].rows[files[id].fid] == files[id].row)
    && (forall pid, fid :: pid in dirs && fid in dirs[pid].rows ==> exists id :: At(files, id, pid, fid))
    && (forall a, b :: a in files && b in files && files[a].pid == files[b].pid && files[a].fid == files[b].fid
                       ==> a == b)
  }

  /** The file ids of a directory in the order of their positions. */
  ghost predicate Listing(files: map<int, FileRow>, pid: int, ids: seq<int>, olds: seq<int>) {
    && |ids| == |olds| && Increasing(olds)
    && (forall i :: 0 <= i < |ids| ==> At(files, ids[i], pid, olds[i]))
    && (forall id :: id in files && files[id].pid == pid ==> id in ids)
  }

  lemma {:induction false} ListedIds(files: map<int, FileRow>, pid: int, ids: seq<int>, olds: seq<int>)
    requires Listing(files, pid, ids, olds)
    ensures forall i :: 0 <= i < |ids| ==> ids[i] in files && files[ids[i]].pid == pid && files[ids[i]].fid == olds[i]
  {
    assert forall i :: 0 <= i < |ids| ==> At(files, ids[i], pid, olds[i]);
  }

  /** The rows of the directory after the first ones have been given their new positions. */
  function MovedTo(files: map<int, FileRow>, ids: seq<int>, places: seq<int>): map<int, FileRow>
    requires |ids| >= |places| && forall i :: 0 <= i < |ids| ==> ids[i] in files
  {
    if places == [] then files
    else
      var m := |places| - 1;
      var before := MovedTo(files, ids, places[..m]);
      if ids[m] in before then before[ids[m] := before[ids[m]].(fid := places[m])] else before
  }

  lemma NothingMoved(files: map<int, FileRow>, dirs: map<int, Rec>, rows: map<int, Row>, ids: seq<int>)
    requires forall i :: 0 <= i < |ids| ==> ids[i] in files
    ensures MovedTo(files, ids, []) == files && Relinked(dirs, rows, [], []) == dirs
  {
  }

  lemma {:induction false} MovedAt(files: map<int, FileRow>, ids: seq<int>, olds: seq<int>, places: seq<int>, pid: int)
    requires Listing(files, pid, ids, olds) && |places| <= |ids|
    ensures MovedTo(files, ids, places).Keys == files.Keys
    ensures forall i :: 0 <= i < |ids| ==>
                          MovedTo(files, ids, places)[ids[i]]
                          == files[ids[i]].(fid := if i < |places| then places[i] else olds[i])
    ensures forall id :: id in files && id !in ids ==> MovedTo(files, ids, places)[id] == files[id]
    decreases |places|
  {
    if places != [] {
      var m := |places| - 1;
      MovedAt(files, ids, olds, places[..m], pid);
      forall i, j | 0 <= i < j < |ids|
        ensures ids[i] != ids[j]
      {
        assert olds[i] < olds[j];
      }
    }
  }

  class Database {
    var paths: map<int, Rec>
    var files: map<int, FileRow>
    var newfiles: map<int, map<int, Row>>
    var serial: int

    /** The tables of the model are these. */
    ghost predicate Shows(t: Tables)
      reads this
    {
      && paths == Bare(t.dirs) && Holds(files, t.dirs) && (forall p :: Waiting(newfiles, p) == NewRows(t, p))
      && forall id :: id in files ==> id < serial
    }

    lemma ListingIs(pid: int, t: Tables, ids: seq<int>, order: seq<int>)
      requires Shows(t) && pid in t.dirs && order == InOrder(t.dirs[pid].rows.Keys)
      requires |ids| == |order| && forall i :: 0 <= i < |ids| ==> At(files, ids[i], pid, order[i])
      ensures Listing(files, pid, ids, order)
    {
      forall id | id in files && files[id].pid == pid
        ensures id in ids
      {
        assert files[id].fid in order;
        var i :| 0 <= i < |order| && order[i] == files[id].fid;
        assert At(files, ids[i], pid, order[i]);
      }
    }

    lemma FidsOfListing(pid: int, t: Tables)
      requires Shows(t) && pid in t.dirs
      ensures (set id | id in files && files[id].pid == pid :: files[id].fid) == t.dirs[pid].rows.Keys
    {
      var fids := set id | id in files && files[id].pid == pid :: files[id].fid;
      forall fid | fid in t.dirs[pid].rows
        ensures fid in fids
      {
        var id :| At(files, id, pid, fid);
      }
    }

    /** SELECT file_id, ... FROM files WHERE treepath_id = pid ORDER BY pathfile_id */
    method Select(pid: int, ghost t: Tables) returns (ids: seq<int>)
      requires Shows(t) && pid in t.dirs
      ensures Listing(files, pid, ids, InOrder(t.dirs[pid].rows.Keys))
    {
      var fids := set id | id in files && files[id].pid == pid :: files[id].fid;
      FidsOfListing(pid, t);
      hide Shows, Holds, Listing;
      var order := InOrder(fids);
      ids := [];
      while |ids| < |order|
        invariant |ids| <= |order| && forall i :: 0 <= i < |ids| ==> At(files, ids[i], pid, order[i])
      {
        assert order[|ids|] in fids;
        var id :| id in files && files[id].pid == pid && files[id].fid == order[|ids|];
        ids := ids + [id];
      }
      ListingIs(pid, t, ids, order);
    }

    /** UPDATE files SET pathfile_id, and UPDATE paths SET parentfile_id for a subdirectory. */
    method MoveRow(id: int, n: int)
      requires id in files
      modifies this`files, this`paths
      ensures files == old(files)[id := old(files)[id].(fid := n)]
      ensures var c := old(files)[id].row.dir;
              paths == if c > 0 && c in old(paths) then old(paths)[c := old(paths)[c].(slot := Some(n))] else old(paths)
    {
      files := files[id := files[id].(fid := n)];
      var c := files[id].row.dir;
      if c > 0 && c in paths {
        paths := paths[c := paths[c].(slot := Some(n))];
      }
    }

    /** The inner loop: positions that new rows have taken are passed over. */
    method SkipTaken(news: seq<int>, j: nat, N: nat, ghost n: nat, ghost placed: seq<int>) returns (j': nat, N': nat)
      requires j <= |news| && |placed| < n && Ahead(n, news, placed, news[j..], N)
      ensures j' <= |news| && Ahead(n, news, placed, news[j'..], N') && (j' < |news| ==> N' != news[j'])
    {
      hide Ahead;
      j', N' := j, N;
      while j' < |news| && N' == news[j']
        invariant j' <= |news| && Ahead(n, news, placed, news[j'..], N')
      {
        AheadSkip(n, news, placed, news[j'..], N');
        assert news[j'..][1..] == news[j' + 1..];
        j', N' := j' + 1, N' + 1;
      }
    }

    /** The loop of push_path_files: the old rows move to the positions that the new ones leave free;
        a subdirectory whose row moves gets its back reference changed. */
    method Renumber(pid: int, ids: seq<int>, news: seq<int>, ghost olds: seq<int>, ghost rows: map<int, Row>)
      returns (ok: bool)
      requires Listing(files, pid, ids, olds)
               && forall i :: 0 <= i < |olds| ==> olds[i] in rows && files[ids[i]].row == rows[olds[i]]
      modifies this`files, this`paths
      ensures ok == Places(|olds|, news, 0).Some?
      ensures ok ==>
                var places := Places(|olds|, news, 0).value;
                && |places| == |olds| && files == MovedTo(old(files), ids, places)
                && paths == Relinked(old(paths), rows, olds, places)
    {
      ghost var was, paths0 := files, paths;
      ghost var placed: seq<int> := [];
      PlacesLength(|olds|, news, 0);
      var N: nat, i: nat, j: nat := 0, 0, 0;
      assert news[0..] == news && olds[..0] == [];
      AheadStart(|olds|, news);
      ListedIds(files, pid, ids, olds);
      NothingMoved(files, paths, rows, ids);
      hide Places, Ahead, MovedTo, Relinked, Listing, Increasing;
      while i < |ids|
        invariant i <= |ids| && j <= |news| && |placed| == i
        invariant Ahead(|olds|, news, placed, news[j..], N)
        invariant files == MovedTo(was, ids, placed)
        invariant paths == Relinked(paths0, rows, olds[..i], placed)
      {
        j, N := SkipTaken(news, j, N, |olds|, placed);
        AheadPlace(|olds|, news, placed, news[j..], N);
        if j < |news| && N > news[j] {
          return false;
        }
        MovedAt(was, ids, olds, placed, pid);
        var id := ids[i];
        assert files.Keys == was.Keys && files[ids[i]] == was[ids[i]].(fid := olds[i]);
        RelinkedNext(paths0, rows, olds[..i], placed, olds[i], N);
        assert olds[..i] + [olds[i]] == olds[..i + 1];
        if N != files[id].fid {
          MoveRow(id, N);
        }
        MovedNext(was, ids, placed, N);
        placed := placed + [N];
        N := N + 1;
        i := i + 1;
      }
      AheadDone(|olds|, news, placed, news[j..], N);
      assert olds[..i] == olds;
      ok := true;
    }

    /** INSERT INTO files SELECT * FROM newfiles, DELETE FROM newfiles; a missing directory is the
        violation of the foreign key. */
    method Insert(pid: int, order: seq<int>, ghost dirs: map<int, Rec>) returns (ok: bool)
      requires Holds(files, dirs) && paths.Keys == dirs.Keys && (forall id :: id in files ==> id < serial)
      requires (forall fid :: fid in order <==> fid in Waiting(newfiles, pid)) && Increasing(order)
      requires pid in dirs ==> forall fid :: fid in order ==> fid !in dirs[pid].rows
      modifies this`files, this`newfiles, this`serial
      ensures ok == (order == [] || pid in dirs)
      ensures ok ==> newfiles == old(newfiles) - {pid} && forall id :: id in files ==> id < serial
      ensures ok && pid in dirs ==> Holds(files,
                                          dirs[pid := dirs[pid].(rows := dirs[pid].rows + Waiting(old(newfiles), pid))])
      ensures ok && pid !in dirs ==> files == old(files)
    {
      hide Holds, Part;
      if order != [] && pid !in paths {
        return false;
      }
      var more := Waiting(newfiles, pid);
      var i := 0;
      PartEnds(dirs, pid, more, order);
      assert order[..0] == [];
      while i < |order|
        invariant i <= |order| && newfiles == old(newfiles) && (pid !in dirs ==> files == old(files))
        invariant forall id :: id in files ==> id < serial
        invariant pid in dirs ==> Holds(files, dirs[pid := dirs[pid].(rows := dirs[pid].rows + Part(more, order[..i]))])
      {
        assert order[i] in order;
        PartNext(more, order, i);
        PartStep(dirs, pid, more, order, i);
        HoldsOneMore(files, dirs[pid := dirs[pid].(rows := dirs[pid].rows + Part(more, order[..i]))], serial, pid,
                     order[i], more[order[i]]);
        files := files[serial := FileRow(pid, order[i], more[order[i]])];
        serial := serial + 1;
        i := i + 1;
      }
      assert order[..i] == order;
      newfiles := newfiles - {pid};
      ok := true;
    }

    /** push_path_files: what it does to the flat tables is what Push does to the tables of the model. */
    method PushPathFiles(pid: int, ghost t: Tables) returns (ok: bool)
      requires Shows(t)
      modifies this
      ensures ok == Push(t, pid).Some?
      ensures ok ==> Shows(Push(t, pid).value)
    {
      hide Holds, Places, Relinked, Renumbered, MovedTo;
      var news := InOrder(Waiting(newfiles, pid).Keys);
      assert Waiting(newfiles, pid) == NewRows(t, pid);
      ghost var dirs := t.dirs;
      var ids: seq<int> := [];
      if pid in paths {
        ids := Select(pid, t);
        ghost var rows := t.dirs[pid].rows;
        ghost var olds, was := InOrder(rows.Keys), files;
        ListedRows(files, t.dirs, pid, ids, olds);
        ok := Renumber(pid, ids, news, olds, rows);
        if !ok {
          PushUndone(t, pid);
          return;
        }
        ghost var places := Places(|olds|, news, 0).value;
        PlacesApart(|olds|, news, 0);
        BareRelinked(t.dirs, rows, olds, places);
        HoldsMoved(was, t.dirs, pid, ids, olds, places);
        dirs := Shifted(t.dirs, pid, olds, places);
        ShiftedRows(t.dirs, pid, olds, places, news);
        PushDone(t, pid, olds, places);
        SameBare(dirs, pid, dirs[pid].rows + NewRows(t, pid));
      }
      ok := Insert(pid, news, dirs);
      StillWaiting(newfiles, old(newfiles), t, pid);
    }
  }

  /** The new rows whose positions come first. */
  ghost function Part(rows: map<int, Row>, fids: seq<int>): map<int, Row> {
    map fid | fid in rows && fid in fids :: rows[fid]
  }

  lemma {:induction false} PartNext(rows: map<int, Row>, order: seq<int>, i: nat)
    requires i < |order| && Increasing(order) && order[i] in rows
    ensures Part(rows, order[..i + 1]) == Part(rows, order[..i])[order[i] := rows[order[i]]]
    ensures order[i] !in Part(rows, order[..i])
  {
    assert order[..i + 1] == order[..i] + [order[i]];
  }

  lemma {:induction false} PartEnds(dirs: map<int, Rec>, pid: int, more: map<int, Row>, order: seq<int>)
    requires forall fid :: fid in order <==> fid in more
    ensures Part(more, order) == more
    ensures pid in dirs ==> dirs[pid := dirs[pid].(rows := dirs[pid].rows + Part(more, []))] == dirs
  {
    assert Part(more, []) == map[];
    assert forall fid :: fid in more ==> fid in order;
    if pid in dirs {
      assert dirs[pid].rows + Part(more, []) == dirs[pid].rows;
    }
  }

  lemma {:induction false} PartStep(dirs: map<int, Rec>, pid: int, more: map<int, Row>, order: seq<int>, i: nat)
    requires pid in dirs && i < |order| && Increasing(order) && order[i] in more && order[i] !in dirs[pid].rows
    ensures var rows, rows' := dirs[pid].rows + Part(more, order[..i]), dirs[pid].rows + Part(more, order[..i + 1]);
            && order[i] !in rows && rows[order[i] := more[order[i]]] == rows'
            && var d := dirs[pid := dirs[pid].(rows := rows)];
            d[pid := d[pid].(rows := rows')] == dirs[pid := dirs[pid].(rows := rows')]
  {
    PartNext(more, order, i);
  }

  lemma {:induction false} HoldsOneMore(files: map<int, FileRow>, dirs: map<int, Rec>, id: int, pid: int, fid: int,
                                        row: Row)
    requires Holds(files, dirs) && id !in files && pid in dirs && fid !in dirs[pid].rows
    ensures Holds(files[id := FileRow(pid, fid, row)], dirs[pid := dirs[pid].(rows := dirs[pid].rows[fid := row])])
  {
    var files', dirs' := files[id := FileRow(pid, fid, row)],
                         dirs[pid := dirs[pid].(rows := dirs[pid].rows[fid := row])];
    forall p, f | p in dirs' && f in dirs'[p].rows
      ensures exists i :: At(files', i, p, f)
    {
      if p == pid && f == fid {
        assert At(files', id, p, f);
      } else {
        var i :| At(files, i, p, f);
        assert At(files', i, p, f);
      }
    }
  }

  /** The places given so far, followed by those that are to come from here, are all the places. */
  ghost predicate Ahead(olds: nat, news: seq<int>, placed: seq<int>, left: seq<int>, n: nat) {
    && |placed| <= olds
    && Places(olds, news, 0) == var rest := Places(olds - |placed|, left, n);
                                if rest.None? then None else Some(placed + rest.value)
  }

  lemma {:induction false} AheadStart(olds: nat, news: seq<int>)
    ensures Ahead(olds, news, [], news, 0)
  {
    var all := Places(olds, news, 0);
    if all.Some? {
      assert [] + all.value == all.value;
    }
  }

  lemma AheadSkip(olds: nat, news: seq<int>, placed: seq<int>, left: seq<int>, n: nat)
    requires Ahead(olds, news, placed, left, n) && |placed| < olds && left != [] && n == left[0]
    ensures Ahead(olds, news, placed, left[1..], n + 1)
  {
  }

  lemma {:induction false} AheadPlace(olds: nat, news: seq<int>, placed: seq<int>, left: seq<int>, n: nat)
    requires Ahead(olds, news, placed, left, n) && |placed| < olds && (left == [] || n != left[0])
    ensures left != [] && n > left[0] ==> Places(olds, news, 0).None?
    ensures left == [] || n < left[0] ==> Ahead(olds, news, placed + [n], left, n + 1)
  {
    if left == [] || n < left[0] {
      var rest := Places(olds - |placed| - 1, left, n + 1);
      if rest.Some? {
        assert placed + ([n] + rest.value) == (placed + [n]) + rest.value;
      }
    }
  }

  lemma {:induction false} AheadDone(olds: nat, news: seq<int>, placed: seq<int>, left: seq<int>, n: nat)
    requires Ahead(olds, news, placed, left, n) && |placed| == olds
    ensures Places(olds, news, 0) == Some(placed)
  {
    assert placed + [] == placed;
  }

  lemma {:induction false} MovedNext(files: map<int, FileRow>, ids: seq<int>, places: seq<int>, n: int)
    requires |places| < |ids| && forall i :: 0 <= i < |ids| ==> ids[i] in files
    ensures var before, id := MovedTo(files, ids, places), ids[|places|];
            && MovedTo(files, ids, places + [n])
               == (if id in before then before[id := before[id].(fid := n)] else before)
            && (id in before && before[id].fid == n ==> MovedTo(files, ids, places + [n]) == before)
  {
    assert (places + [n])[..|places|] == places;
    var before, id := MovedTo(files, ids, places), ids[|places|];
    if id in before && before[id].fid == n {
      assert before[id := before[id].(fid := n)] == before;
    }
  }

  lemma {:induction false} ListedRows(files: map<int, FileRow>, dirs: map<int, Rec>, pid: int, ids: seq<int>,
                                      olds: seq<int>)
    requires Holds(files, dirs) && pid in dirs && Listing(files, pid, ids, olds)
    ensures forall i :: 0 <= i < |olds| ==> olds[i] in dirs[pid].rows && files[ids[i]].row == dirs[pid].rows[olds[i]]
  {
    forall i | 0 <= i < |olds|
      ensures olds[i] in dirs[pid].rows && files[ids[i]].row == dirs[pid].rows[olds[i]]
    {
      assert At(files, ids[i], pid, olds[i]);
    }
  }

  /** The directories with the old rows of `pid` moved. */
  ghost function Shifted(dirs: map<int, Rec>, pid: int, olds: seq<int>, places: seq<int>): map<int, Rec>
    requires pid in dirs && |olds| == |places| && forall i :: 0 <= i < |olds| ==> olds[i] in dirs[pid].rows
  {
    var rows := dirs[pid].rows;
    var dirs' := Relinked(dirs, rows, olds, places);
    RelinkedKeeps(dirs, rows, olds, places);
    dirs'[pid := dirs'[pid].(rows := Renumbered(rows, olds, places))]
  }

  lemma {:induction false} ShiftedRows(dirs: map<int, Rec>, pid: int, olds: seq<int>, places: seq<int>, news: seq<int>)
    requires pid in dirs && |olds| == |places|
             && (forall i :: 0 <= i < |olds| ==> olds[i] in dirs[pid].rows) && Increasing(places)
    requires forall p :: p in places ==> p !in news
    ensures var s := Shifted(dirs, pid, olds, places);
            && s.Keys == dirs.Keys && Bare(s) == Bare(Relinked(dirs, dirs[pid].rows, olds, places))
            && forall fid :: fid in news ==> fid !in s[pid].rows
  {
    hide Relinked, Renumbered;
    RelinkedKeeps(dirs, dirs[pid].rows, olds, places);
    RenumberedAt(dirs[pid].rows, olds, places);
  }

  lemma {:induction false} Shifts(files: map<int, FileRow>, dirs: map<int, Rec>, pid: int, ids: seq<int>,
                                  olds: seq<int>, places: seq<int>)
    requires pid in dirs && Listing(files, pid, ids, olds)
    requires forall i :: 0 <= i < |ids| ==> ids[i] in files && files[ids[i]].pid == pid
    requires forall i :: 0 <= i < |olds| ==> olds[i] in dirs[pid].rows && files[ids[i]].row == dirs[pid].rows[olds[i]]
    requires |places| == |olds| && Increasing(places)
    ensures Rearranged(files, MovedTo(files, ids, places), dirs, Shifted(dirs, pid, olds, places), pid, ids, places)
  {
    hide Relinked, Renumbered, MovedTo, Holds;
    MovedAt(files, ids, olds, places, pid);
    RelinkedKeeps(dirs, dirs[pid].rows, olds, places);
    RenumberedAt(dirs[pid].rows, olds, places);
  }

  lemma {:induction false} HoldsMoved(files: map<int, FileRow>, dirs: map<int, Rec>, pid: int, ids: seq<int>,
                                      olds: seq<int>, places: seq<int>)
    requires Holds(files, dirs) && pid in dirs && Listing(files, pid, ids, olds)
    requires |places| == |olds| && Increasing(places)
    ensures forall i :: 0 <= i < |ids| ==> ids[i] in files
    ensures forall i :: 0 <= i < |olds| ==> olds[i] in dirs[pid].rows
    ensures Holds(MovedTo(files, ids, places), Shifted(dirs, pid, olds, places))
    ensures MovedTo(files, ids, places).Keys == files.Keys
  {
    ListedIds(files, pid, ids, olds);
    ListedRows(files, dirs, pid, ids, olds);
    hide Holds, MovedTo, Shifted, Listing;
    Shifts(files, dirs, pid, ids, olds, places);
    RearrangedHolds(files, MovedTo(files, ids, places), dirs, Shifted(dirs, pid, olds, places), pid, ids, places);
  }

  /** The rows of one directory are at new places, all others as they were. */
  ghost predicate Rearranged(files: map<int, FileRow>, files': map<int, FileRow>, dirs: map<int, Rec>,
                             dirs': map<int, Rec>, pid: int, ids: seq<int>, places: seq<int>) {
    && pid in dirs && dirs'.Keys == dirs.Keys && files'.Keys == files.Keys && |ids| == |places| && Increasing(places)
    && (forall p :: p in dirs && p != pid ==> dirs'[p].rows == dirs[p].rows)
    && (forall id :: id in files && id !in ids ==> files[id].pid != pid && files'[id] == files[id])
    && (forall i :: 0 <= i < |ids| ==> ids[i] in files && files[ids[i]].pid == pid)
    && (forall i :: 0 <= i < |ids| ==> files'[ids[i]] == FileRow(pid, places[i], files[ids[i]].row))
    && (forall f :: f in dirs'[pid].rows <==> f in places)
    && (forall i :: 0 <= i < |ids| ==> places[i] in dirs'[pid].rows && dirs'[pid].rows[places[i]] == files[ids[i]].row)
  }

  lemma {:induction false} RearrangedRows(files: map<int, FileRow>, files': map<int, FileRow>, dirs: map<int, Rec>,
                                          dirs': map<int, Rec>, pid: int, ids: seq<int>, places: seq<int>, id: int)
    requires Holds(files, dirs) && Rearranged(files, files', dirs, dirs', pid, ids, places) && id in files'
    ensures files'[id].pid in dirs' && files'[id].fid in dirs'[files'[id].pid].rows
    ensures dirs'[files'[id].pid].rows[files'[id].fid] == files'[id].row
  {
    if id in ids {
      var i :| 0 <= i < |ids| && ids[i] == id;
      assert files'[ids[i]].fid == places[i];
    }
  }

  lemma {:induction false} RearrangedAll(files: map<int, FileRow>, files': map<int, FileRow>, dirs: map<int, Rec>,
                                         dirs': map<int, Rec>,
                                         pid: int, ids: seq<int>, places: seq<int>, p: int, f: int)
    requires Holds(files, dirs) && Rearranged(files, files', dirs, dirs', pid, ids, places) && p in dirs'
             && f in dirs'[p].rows
    ensures exists id :: At(files', id, p, f)
  {
    if p == pid {
      var i :| 0 <= i < |places| && places[i] == f;
      assert At(files', ids[i], p, f);
    } else {
      var id :| At(files, id, p, f);
      Elsewhere(files, pid, ids, id);
      assert At(files', id, p, f);
    }
  }

  lemma {:induction false} RearrangedOnce(files: map<int, FileRow>, files': map<int, FileRow>, dirs: map<int, Rec>,
                                          dirs': map<int, Rec>,
                                          pid: int, ids: seq<int>, places: seq<int>, a: int, b: int)
    requires Holds(files, dirs) && Rearranged(files, files', dirs, dirs', pid, ids, places)
    requires a in files' && b in files' && files'[a].pid == files'[b].pid && files'[a].fid == files'[b].fid
    ensures a == b
  {
    if a in ids && b in ids {
      var i :| 0 <= i < |ids| && ids[i] == a;
      var j :| 0 <= j < |ids| && ids[j] == b;
      assert places[i] == places[j];
    }
  }

  lemma {:induction false} RearrangedHolds(files: map<int, FileRow>, files': map<int, FileRow>, dirs: map<int, Rec>,
                                           dirs': map<int, Rec>, pid: int, ids: seq<int>, places: seq<int>)
    requires Holds(files, dirs) && Rearranged(files, files', dirs, dirs', pid, ids, places)
    ensures Holds(files', dirs')
  {
    forall p, f | p in dirs' && f in dirs'[p].rows
      ensures exists id :: At(files', id, p, f)
    {
      RearrangedAll(files, files', dirs, dirs', pid, ids, places, p, f);
    }
    forall id | id in files'
      ensures files'[id].pid in dirs' && files'[id].fid in dirs'[files'[id].pid].rows
              && dirs'[files'[id].pid].rows[files'[id].fid] == files'[id].row
    {
      RearrangedRows(files, files', dirs, dirs', pid, ids, places, id);
    }
    forall a, b | a in files' && b in files' && files'[a].pid == files'[b].pid && files'[a].fid == files'[b].fid
      ensures a == b
    {
      RearrangedOnce(files, files', dirs, dirs', pid, ids, places, a, b);
    }
  }

  lemma Elsewhere(files: map<int, FileRow>, pid: int, ids: seq<int>, id: int)
    requires id in files && files[id].pid != pid
    requires forall i :: 0 <= i < |ids| ==> ids[i] in files && files[ids[i]].pid == pid
    ensures id !in ids
  {
  }

  lemma {:induction false} StillWaiting(newfiles: map<int, map<int, Row>>, was: map<int, map<int, Row>>, t: Tables,
                                        pid: int)
    requires forall p :: Waiting(was, p) == NewRows(t, p)
    ensures newfiles == was - {pid}
            ==> forall p :: Waiting(newfiles, p) == NewRows(t.(newfiles := t.newfiles - {pid}), p)
    ensures newfiles == was - {pid} && Waiting(was, pid) == map[] ==> forall p :: Waiting(newfiles, p) == NewRows(t, p)
  {
    forall p
      ensures newfiles == was - {pid} ==> Waiting(newfiles, p) == NewRows(t.(newfiles := t.newfiles - {pid}), p)
      ensures newfiles == was - {pid} && Waiting(was, pid) == map[] ==> Waiting(newfiles, p) == NewRows(t, p)
    {
      assert Waiting(was, p) == NewRows(t, p);
    }
  }

  lemma PushUndone(t: Tables, pid: int)
    requires pid in t.dirs && Places(|InOrder(t.dirs[pid].rows.Keys)|, InOrder(NewRows(t, pid).Keys), 0).None?
    ensures Push(t, pid).None?
  {
  }

  lemma {:induction false} PushDone(t: Tables, pid: int, olds: seq<int>, places: seq<int>)
    requires pid in t.dirs && olds == InOrder(t.dirs[pid].rows.Keys) && |places| == |olds|
    requires Places(|olds|, InOrder(NewRows(t, pid).Keys), 0) == Some(places) && Increasing(places)
    requires forall p :: p in places ==> p !in InOrder(NewRows(t, pid).Keys)
    ensures forall i :: 0 <= i < |olds| ==> olds[i] in t.dirs[pid].rows
    ensures pid in Shifted(t.dirs, pid, olds, places)
    ensures var dirs := Shifted(t.dirs, pid, olds, places);
            Push(t, pid) == Some(Tables(dirs[pid := dirs[pid].(rows := dirs[pid].rows + NewRows(t, pid))],
                                        t.newfiles - {pid}))
  {
    hide Relinked, Renumbered, Places, InOrder;
    var rows, news := t.dirs[pid].rows, NewRows(t, pid);
    RenumberedAt(rows, olds, places);
    RelinkedKeeps(t.dirs, rows, olds, places);
    var moved, d := Renumbered(rows, olds, places), Relinked(t.dirs, rows, olds, places);
    forall p | p in moved
      ensures p !in news
    {
      assert p in places;
    }
    RowsTwice(d, pid, moved, news);
  }

  lemma RowsTwice(d: map<int, Rec>, pid: int, moved: map<int, Row>, news: map<int, Row>)
    requires pid in d
    ensures var dirs := d[pid := d[pid].(rows := moved)];
            dirs[pid := dirs[pid].(rows := dirs[pid].rows + news)] == d[pid := d[pid].(rows := moved + news)]
  {
  }

  lemma SameBare(dirs: map<int, Rec>, pid: int, rows: map<int, Row>)
    requires pid in dirs
    ensures Bare(dirs[pid := dirs[pid].(rows := rows)]) == Bare(dirs)
  {
  }
}
