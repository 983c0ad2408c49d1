/** What renumbering a directory does, told by its final listing: each position holds either a new
    entry or an old one, and the old ones come in their old order. */
module Renumber {
  import opened Wrappers
  import opened Store
  import Maps

  /** One position of the final listing: the old number of the entry there, if it had one. */
  datatype Slot = Slot(was: Option<int>, row: Row)

  /** The old numbers of the entries that stay, in listing order. */
  function KeptFids(slots: seq<Slot>): seq<int> {
    if slots == [] then []
    else (if slots[0].was.Some? then [slots[0].was.value] else []) + KeptFids(slots[1..])
  }

  /** The positions of the entries that stay; `n` is the position of the first slot. */
  function KeptPlaces(slots: seq<Slot>, n: nat): seq<int> {
    if slots == [] then []
    else (if slots[0].was.Some? then [n] else []) + KeptPlaces(slots[1..], n + 1)
  }

  /** The positions of the new entries. */
  function NewPlaces(slots: seq<Slot>, n: nat): seq<int> {
    if slots == [] then []
    else (if slots[0].was.None? then [n] else []) + NewPlaces(slots[1..], n + 1)
  }

  /** The rows in `files` before renumbering. */
  function KeptRows(slots: seq<Slot>): map<int, Row> {
    if slots == [] then map[]
    else if slots[0].was.Some? then KeptRows(slots[1..])[slots[0].was.value := slots[0].row]
    else KeptRows(slots[1..])
  }

  /** The rows in `newfiles` before renumbering. */
  function AddedRows(slots: seq<Slot>, n: nat): map<int, Row> {
    if slots == [] then map[]
    else if slots[0].was.None? then AddedRows(slots[1..], n + 1)[n := slots[0].row]
    else AddedRows(slots[1..], n + 1)
  }

  /** The rows of the final listing. */
  function AllRows(slots: seq<Slot>, n: nat): map<int, Row> {
    if slots == [] then map[] else AllRows(slots[1..], n + 1)[n := slots[0].row]
  }

  /** The kept rows under their final numbers. */
  function PlacedRows(slots: seq<Slot>, n: nat): map<int, Row> {
    if slots == [] then map[]
    else if slots[0].was.Some? then PlacedRows(slots[1..], n + 1)[n := slots[0].row]
    else PlacedRows(slots[1..], n + 1)
  }

  ghost predicate OldOrder(slots: seq<Slot>) {
    Increasing(KeptFids(slots))
  }

  lemma {:induction false} OldOrderTail(slots: seq<Slot>)
    requires slots != [] && OldOrder(slots)
    ensures OldOrder(slots[1..])
    ensures slots[0].was.Some? ==> slots[0].was.value !in KeptFids(slots[1..])
  {
    var fs, tail := KeptFids(slots), KeptFids(slots[1..]);
    if slots[0].was.Some? {
      assert forall i :: 0 <= i < |tail| ==> tail[i] == fs[i + 1] && fs[0] < fs[i + 1];
    } else {
      assert fs == tail;
    }
  }

  lemma {:induction false} KeptKeys(slots: seq<Slot>)
    ensures forall f :: f in KeptRows(slots) <==> f in KeptFids(slots)
    decreases |slots|
  {
    if slots != [] {
      KeptKeys(slots[1..]);
    }
  }

  lemma {:induction false} NewPlacesShape(slots: seq<Slot>, n: nat)
    ensures Increasing(NewPlaces(slots, n))
    ensures forall f :: f in NewPlaces(slots, n) ==> n <= f
    ensures forall f :: f in AddedRows(slots, n) <==> f in NewPlaces(slots, n)
    decreases |slots|
  {
    if slots != [] {
      NewPlacesShape(slots[1..], n + 1);
      var ps, tail := NewPlaces(slots, n), NewPlaces(slots[1..], n + 1);
      if slots[0].was.None? {
        forall i, j | 0 <= i < j < |ps|
          ensures ps[i] < ps[j]
        {
          assert ps[j] == tail[j - 1] && tail[j - 1] in tail;
          assert i > 0 ==> ps[i] == tail[i - 1];
        }
      } else {
        assert ps == tail;
      }
    }
  }

  /** The loop hands out exactly the positions that the new entries leave free, in order. */
  lemma {:induction false} PlacesFree(slots: seq<Slot>, n: nat)
    ensures Places(|KeptFids(slots)|, NewPlaces(slots, n), n) == Some(KeptPlaces(slots, n))
    decreases |slots|
  {
    if slots != [] {
      PlacesFree(slots[1..], n + 1);
      var news := NewPlaces(slots, n);
      if slots[0].was.None? {
        assert news[1..] == NewPlaces(slots[1..], n + 1);
        assert KeptFids(slots) == KeptFids(slots[1..]) && KeptPlaces(slots, n) == KeptPlaces(slots[1..], n + 1);
        if |KeptFids(slots)| == 0 {
          NoKept(slots[1..], n + 1);
        }
      } else {
        NewPlacesShape(slots[1..], n + 1);
        assert news == NewPlaces(slots[1..], n + 1);
        assert news != [] ==> news[0] in news;
      }
    }
  }

  lemma {:induction false} NoKept(slots: seq<Slot>, n: nat)
    requires KeptFids(slots) == []
    ensures KeptPlaces(slots, n) == []
    decreases |slots|
  {
    if slots != [] {
      NoKept(slots[1..], n + 1);
    }
  }

  lemma {:induction false} KeptLength(slots: seq<Slot>, n: nat)
    ensures |KeptPlaces(slots, n)| == |KeptFids(slots)|
    decreases |slots|
  {
    if slots != [] {
      KeptLength(slots[1..], n + 1);
    }
  }

  ghost predicate Holds(rows: map<int, Row>, slots: seq<Slot>) {
    forall i :: 0 <= i < |slots| && slots[i].was.Some? ==>
                  slots[i].was.value in rows && rows[slots[i].was.value] == slots[i].row
  }

  lemma {:induction false} KeptRowsHold(slots: seq<Slot>)
    requires OldOrder(slots)
    ensures Holds(KeptRows(slots), slots)
    decreases |slots|
  {
    if slots != [] {
      var tail := slots[1..];
      OldOrderTail(slots);
      KeptRowsHold(tail);
      KeptKeys(tail);
      forall i | 0 <= i < |slots| && slots[i].was.Some?
        ensures slots[i].was.value in KeptRows(slots) && KeptRows(slots)[slots[i].was.value] == slots[i].row
      {
        if i > 0 {
          assert slots[i] == tail[i - 1];
          var f := slots[i].was.value;
          assert f in KeptRows(tail) && f in KeptFids(tail);
        }
      }
    }
  }

  lemma {:induction false} HoldsTail(rows: map<int, Row>, slots: seq<Slot>)
    requires slots != [] && Holds(rows, slots)
    ensures Holds(rows, slots[1..])
  {
    assert forall i :: 0 <= i < |slots[1..]| ==> slots[1..][i] == slots[i + 1];
  }

  lemma {:induction false} HoldsFids(rows: map<int, Row>, slots: seq<Slot>)
    requires Holds(rows, slots)
    ensures forall i :: 0 <= i < |KeptFids(slots)| ==> KeptFids(slots)[i] in rows
    decreases |slots|
  {
    if slots != [] {
      HoldsTail(rows, slots);
      HoldsFids(rows, slots[1..]);
    }
  }

  lemma {:induction false} RenumberedPlaces(rows: map<int, Row>, slots: seq<Slot>, n: nat)
    requires Holds(rows, slots)
    ensures |KeptPlaces(slots, n)| == |KeptFids(slots)|
    ensures forall i :: 0 <= i < |KeptFids(slots)| ==> KeptFids(slots)[i] in rows
    ensures Renumbered(rows, KeptFids(slots), KeptPlaces(slots, n)) == PlacedRows(slots, n)
    decreases |slots|
  {
    KeptLength(slots, n);
    HoldsFids(rows, slots);
    if slots != [] {
      HoldsTail(rows, slots);
      RenumberedPlaces(rows, slots[1..], n + 1);
      var fs, ps := KeptFids(slots), KeptPlaces(slots, n);
      if slots[0].was.Some? {
        assert fs[1..] == KeptFids(slots[1..]) && ps[1..] == KeptPlaces(slots[1..], n + 1);
      } else {
        assert fs == KeptFids(slots[1..]) && ps == KeptPlaces(slots[1..], n + 1);
      }
    }
  }

  /** Kept and new rows together fill the listing without gap or overlap. */
  lemma {:induction false} PlacedAndAdded(slots: seq<Slot>, n: nat)
    ensures PlacedRows(slots, n).Keys !! AddedRows(slots, n).Keys
    ensures PlacedRows(slots, n) + AddedRows(slots, n) == AllRows(slots, n)
    ensures forall f :: f in AllRows(slots, n) <==> n <= f < n + |slots|
    decreases |slots|
  {
    if slots != [] {
      PlacedAndAdded(slots[1..], n + 1);
      var a, b := PlacedRows(slots[1..], n + 1), AddedRows(slots[1..], n + 1);
      assert forall f :: f in a || f in b ==> f in a + b;
      if slots[0].was.Some? {
        Maps.PutThenUnion(a, b, n, slots[0].row);
        Maps.PutBeside(a, b, n, slots[0].row);
      } else {
        Maps.PutInside(a, b, n, slots[0].row);
      }
    }
  }

  // ---------------------------------------------------------------- back references

  /** The back reference of every kept subdirectory set to its final position. */
  function Moved(dirs: map<int, Rec>, slots: seq<Slot>, n: nat): map<int, Rec> {
    if slots == [] then dirs
    else
      var c := slots[0].row.dir;
      var dirs' := if slots[0].was.Some? && c > 0 && c in dirs
                   then dirs[c := dirs[c].(slot := Some(n))] else dirs;
      Moved(dirs', slots[1..], n + 1)
  }

  /** Every kept subdirectory refers to the old position of its row. */
  ghost predicate Linked(dirs: map<int, Rec>, slots: seq<Slot>) {
    forall i :: 0 <= i < |slots| && slots[i].was.Some? && slots[i].row.dir > 0 && slots[i].row.dir in dirs ==>
                  dirs[slots[i].row.dir].slot == slots[i].was
  }

  ghost predicate DistinctDirs(slots: seq<Slot>) {
    forall i, j :: 0 <= i < j < |slots| && slots[i].row.dir > 0 ==> slots[i].row.dir != slots[j].row.dir
  }

  lemma {:induction false} LinkedTail(dirs: map<int, Rec>, slots: seq<Slot>, rec: Rec)
    requires slots != [] && Linked(dirs, slots) && DistinctDirs(slots)
    ensures Linked(dirs, slots[1..]) && DistinctDirs(slots[1..])
    ensures slots[0].row.dir > 0 ==> Linked(dirs[slots[0].row.dir := rec], slots[1..])
  {
    assert forall i :: 0 <= i < |slots[1..]| ==> slots[1..][i] == slots[i + 1];
  }

  lemma {:induction false} RelinkedMoves(dirs: map<int, Rec>, rows: map<int, Row>, slots: seq<Slot>, n: nat)
    requires Holds(rows, slots) && Linked(dirs, slots) && DistinctDirs(slots)
    ensures |KeptPlaces(slots, n)| == |KeptFids(slots)|
    ensures forall i :: 0 <= i < |KeptFids(slots)| ==> KeptFids(slots)[i] in rows
    ensures Relinked(dirs, rows, KeptFids(slots), KeptPlaces(slots, n)) == Moved(dirs, slots, n)
    decreases |slots|
  {
    KeptLength(slots, n);
    HoldsFids(rows, slots);
    if slots != [] {
      HoldsTail(rows, slots);
      var c := slots[0].row.dir;
      var fs, ps := KeptFids(slots), KeptPlaces(slots, n);
      if slots[0].was.Some? {
        assert fs[1..] == KeptFids(slots[1..]) && ps[1..] == KeptPlaces(slots[1..], n + 1);
        if c > 0 && c in dirs {
          var rec := dirs[c].(slot := Some(n));
          LinkedTail(dirs, slots, rec);
          if n == slots[0].was.value {
            assert dirs[c := rec] == dirs;
          }
          RelinkedMoves(dirs[c := rec], rows, slots[1..], n + 1);
        } else {
          LinkedTail(dirs, slots, Rec([], None, None, 0, 0, map[]));
          RelinkedMoves(dirs, rows, slots[1..], n + 1);
        }
      } else {
        assert fs == KeptFids(slots[1..]) && ps == KeptPlaces(slots[1..], n + 1);
        LinkedTail(dirs, slots, Rec([], None, None, 0, 0, map[]));
        RelinkedMoves(dirs, rows, slots[1..], n + 1);
      }
    }
  }

  lemma {:induction false} MovedBeside(dirs: map<int, Rec>, slots: seq<Slot>, n: nat, id: int)
    requires id in dirs
    requires forall i :: 0 <= i < |slots| && slots[i].was.Some? ==> slots[i].row.dir != id
    ensures Moved(dirs, slots, n).Keys == dirs.Keys && Moved(dirs, slots, n)[id] == dirs[id]
    decreases |slots|
  {
    if slots != [] {
      var c := slots[0].row.dir;
      var dirs' := if slots[0].was.Some? && c > 0 && c in dirs
      then dirs[c := dirs[c].(slot := Some(n))] else dirs;
      assert dirs'.Keys == dirs.Keys;
      assert forall i :: 0 <= i < |slots[1..]| ==> slots[1..][i] == slots[i + 1];
      MovedBeside(dirs', slots[1..], n + 1, id);
    }
  }

  /** push_path_files succeeds on the rows of a final listing and turns them into it: the entries
      that stay get, in their old order, exactly the positions that the new ones leave, and the
      directories among them are told. */
  lemma {:induction false} PushListing(t: Tables, pid: nat, slots: seq<Slot>)
    requires pid in t.dirs && t.dirs[pid].rows == KeptRows(slots) && NewRows(t, pid) == AddedRows(slots, 0)
    requires OldOrder(slots) && Linked(t.dirs, slots) && DistinctDirs(slots)
    requires forall i :: 0 <= i < |slots| && slots[i].was.Some? ==> slots[i].row.dir != pid
    ensures Push(t, pid) == Some(Tables(
                                   Moved(t.dirs, slots, 0)[pid := t.dirs[pid].(rows := AllRows(slots, 0))],
                                   t.newfiles - {pid}))
  {
    var rows := KeptRows(slots);
    KeptKeys(slots);
    OrderUnique(InOrder(rows.Keys), KeptFids(slots));
    NewPlacesShape(slots, 0);
    OrderUnique(InOrder(AddedRows(slots, 0).Keys), NewPlaces(slots, 0));
    PlacesFree(slots, 0);
    KeptRowsHold(slots);
    RenumberedPlaces(rows, slots, 0);
    PlacedAndAdded(slots, 0);
    RelinkedMoves(t.dirs, rows, slots, 0);
    MovedBeside(t.dirs, slots, 0, pid);
  }
}
