/** The listing of a directory that exists in both trees: what the patch lines leave of its rows is
    what renumbering expects, and what renumbering makes of them is the new listing. */
module Listings {
  import opened Wrappers
  import opened Trees
  import opened Store
  import opened Image
  import opened Renumber
  import opened Deltas
  import opened PatchEntries
  import Maps

  /** Rows of the subdirectories that stay, at their old positions, with their new sizes. */
  function SameRows(ops: seq<Op>): map<int, Row> {
    if ops == [] then map[]
    else if ops[0].Same? then SameRows(ops[1..])[ops[0].delta.was.fid := DirRow(ops[0].delta.dir)]
    else SameRows(ops[1..])
  }

  ghost predicate DirsFrom(ds: seq<Dir>, n: int) {
    forall i :: 0 <= i < |ds| ==> ds[i].fid == n + i
  }

  ghost predicate FilesFrom(fs: seq<File>, n: int) {
    forall i :: 0 <= i < |fs| ==> fs[i].fid == n + i
  }

  /** The first operation's part of both listings, and the numbers that remain. */
  lemma {:induction false} DirsTail(ops: seq<Op>, m: int, n: int)
    requires ops != [] && DirsFrom(Olds(ops), m) && DirsFrom(News(ops), n)
    ensures ops[0].Gone? ==> ops[0].was.fid == m && DirsFrom(Olds(ops[1..]), m + 1) && DirsFrom(News(ops[1..]), n)
    ensures ops[0].Fresh? ==> ops[0].dir.fid == n && DirsFrom(Olds(ops[1..]), m) && DirsFrom(News(ops[1..]), n + 1)
    ensures ops[0].Same? ==>
              && ops[0].delta.was.fid == m && ops[0].delta.dir.fid == n
              && DirsFrom(Olds(ops[1..]), m + 1) && DirsFrom(News(ops[1..]), n + 1)
  {
    var olds, news := Olds(ops), News(ops);
    var olds', news' := Olds(ops[1..]), News(ops[1..]);
    match ops[0] {
      case Gone(d) =>
        assert olds[0] == d && (forall i :: 0 <= i < |olds'| ==> olds'[i] == olds[i + 1]) && news == news';
      case Fresh(d) =>
        assert news[0] == d && (forall i :: 0 <= i < |news'| ==> news'[i] == news[i + 1]) && olds == olds';
      case Same(e) =>
        assert olds[0] == e.was && (forall i :: 0 <= i < |olds'| ==> olds'[i] == olds[i + 1]);
        assert news[0] == e.dir && (forall i :: 0 <= i < |news'| ==> news'[i] == news[i + 1]);
    }
  }

  lemma {:induction false} FilesTail(fops: seq<FileOp>, m: int, n: int)
    requires fops != [] && FilesFrom(FileOlds(fops), m) && FilesFrom(FileNews(fops), n)
    ensures fops[0].FileGone? ==> fops[0].was.fid == m && FilesFrom(FileOlds(fops[1..]), m + 1)
                                  && FilesFrom(FileNews(fops[1..]), n)
    ensures fops[0].FileFresh? ==> fops[0].file.fid == n && FilesFrom(FileOlds(fops[1..]), m)
                                   && FilesFrom(FileNews(fops[1..]), n + 1)
    ensures fops[0].FileSame? ==>
              && fops[0].was.fid == m && fops[0].file.fid == n
              && FilesFrom(FileOlds(fops[1..]), m + 1) && FilesFrom(FileNews(fops[1..]), n + 1)
  {
    var olds, news := FileOlds(fops), FileNews(fops);
    var olds', news' := FileOlds(fops[1..]), FileNews(fops[1..]);
    match fops[0] {
      case FileGone(f) =>
        assert olds[0] == f && (forall i :: 0 <= i < |olds'| ==> olds'[i] == olds[i + 1]) && news == news';
      case FileFresh(f) =>
        assert news[0] == f && (forall i :: 0 <= i < |news'| ==> news'[i] == news[i + 1]) && olds == olds';
      case FileSame(f, f') =>
        assert olds[0] == f && (forall i :: 0 <= i < |olds'| ==> olds'[i] == olds[i + 1]);
        assert news[0] == f' && (forall i :: 0 <= i < |news'| ==> news'[i] == news[i + 1]);
    }
  }

  // ---------------------------------------------------------------- the slots, part by part

  lemma {:induction false} DirSlotsRows(ops: seq<Op>, m: nat, n: nat)
    requires DirsFrom(Olds(ops), m) && DirsFrom(News(ops), n)
    ensures |DirSlots(ops)| == |News(ops)|
    ensures KeptRows(DirSlots(ops)) == SameRows(ops)
    ensures AddedRows(DirSlots(ops), n) == FreshRows(ops)
    ensures AllRows(DirSlots(ops), n) == DirRows(News(ops))
    ensures forall f :: f in KeptFids(DirSlots(ops)) ==> m <= f < m + |Olds(ops)|
    ensures Increasing(KeptFids(DirSlots(ops)))
    ensures forall f :: m <= f < m + |Olds(ops)| ==> f in GoneFids(ops) || f in SameRows(ops)
    decreases |ops|
  {
    if ops != [] {
      var tail := ops[1..];
      var slots, slots' := DirSlots(ops), DirSlots(tail);
      DirsTail(ops, m, n);
      match ops[0] {
        case Gone(d) =>
          DirSlotsRows(tail, m + 1, n);
          assert slots == slots' && News(ops) == News(tail);
        case Fresh(d) =>
          DirSlotsRows(tail, m, n + 1);
          assert slots[0] == Slot(None, DirRow(d)) && slots[1..] == slots';
          assert News(ops)[0] == d && News(ops)[1..] == News(tail);
          assert KeptFids(slots) == KeptFids(slots');
          assert Olds(ops) == Olds(tail);
        case Same(e) =>
          DirSlotsRows(tail, m + 1, n + 1);
          assert slots[0] == Slot(Some(m), DirRow(e.dir)) && slots[1..] == slots';
          assert News(ops)[0] == e.dir && News(ops)[1..] == News(tail);
          PutFirst(m, KeptFids(slots'));
      }
    }
  }

  lemma {:induction false} PutFirst(m: int, fs: seq<int>)
    requires Increasing(fs) && forall f :: f in fs ==> m < f
    ensures Increasing([m] + fs)
  {
    var r := [m] + fs;
    forall i, j | 0 <= i < j < |r|
      ensures r[i] < r[j]
    {
      assert r[j] == fs[j - 1] && fs[j - 1] in fs;
    }
  }

  lemma {:induction false} FileSlotsRows(fops: seq<FileOp>, m: nat, n: nat)
    requires FilesFrom(FileOlds(fops), m) && FilesFrom(FileNews(fops), n)
    ensures |FileSlots(fops)| == |FileNews(fops)|
    ensures KeptRows(FileSlots(fops)) == FileSameRows(fops)
    ensures AddedRows(FileSlots(fops), n) == FileFreshRows(fops)
    ensures AllRows(FileSlots(fops), n) == FileRows(FileNews(fops))
    ensures forall f :: f in KeptFids(FileSlots(fops)) ==> m <= f < m + |FileOlds(fops)|
    ensures Increasing(KeptFids(FileSlots(fops)))
    ensures forall f :: m <= f < m + |FileOlds(fops)| ==> f in FileGoneFids(fops) || f in FileSameRows(fops)
    decreases |fops|
  {
    if fops != [] {
      var tail := fops[1..];
      var slots, slots' := FileSlots(fops), FileSlots(tail);
      FilesTail(fops, m, n);
      match fops[0] {
        case FileGone(f) =>
          FileSlotsRows(tail, m + 1, n);
          assert slots == slots' && FileNews(fops) == FileNews(tail);
        case FileFresh(f) =>
          FileSlotsRows(tail, m, n + 1);
          assert slots[0] == Slot(None, FileRow(f)) && slots[1..] == slots';
          assert FileNews(fops)[0] == f && FileNews(fops)[1..] == FileNews(tail);
          assert KeptFids(slots) == KeptFids(slots');
          assert FileOlds(fops) == FileOlds(tail);
        case FileSame(f, f') =>
          FileSlotsRows(tail, m + 1, n + 1);
          assert slots[0] == Slot(Some(m), FileRow(f')) && slots[1..] == slots';
          assert FileNews(fops)[0] == f' && FileNews(fops)[1..] == FileNews(tail);
          PutFirst(m, KeptFids(slots'));
      }
    }
  }

  /** The parts of a listing side by side. */
  lemma {:induction false} SlotsConcat(a: seq<Slot>, b: seq<Slot>, n: nat)
    ensures KeptRows(a + b) == KeptRows(b) + KeptRows(a)
    ensures AddedRows(a + b, n) == AddedRows(b, n + |a|) + AddedRows(a, n)
    ensures AllRows(a + b, n) == AllRows(b, n + |a|) + AllRows(a, n)
    ensures KeptFids(a + b) == KeptFids(a) + KeptFids(b)
    decreases |a|
  {
    if a == [] {
      assert a + b == b;
      Maps.UnionEmpty(KeptRows(b));
      Maps.UnionEmpty(AddedRows(b, n));
      Maps.UnionEmpty(AllRows(b, n));
    } else {
      assert (a + b)[1..] == a[1..] + b && (a + b)[0] == a[0];
      SlotsConcat(a[1..], b, n + 1);
      Maps.PutInside(AllRows(b, n + |a|), AllRows(a[1..], n + 1), n, a[0].row);
      if a[0].was.Some? {
        Maps.PutInside(KeptRows(b), KeptRows(a[1..]), a[0].was.value, a[0].row);
      } else {
        Maps.PutInside(AddedRows(b, n + |a|), AddedRows(a[1..], n + 1), n, a[0].row);
      }
    }
  }

  lemma {:induction false} IncreasingConcat(a: seq<int>, b: seq<int>, m: int)
    requires Increasing(a) && Increasing(b)
    requires (forall f :: f in a ==> f < m) && (forall f :: f in b ==> m <= f)
    ensures Increasing(a + b)
  {
    var r := a + b;
    forall i, j | 0 <= i < j < |r|
      ensures r[i] < r[j]
    {
      if i < |a| <= j {
        assert a[i] in a && b[j - |a|] in b;
      }
    }
  }

  // ---------------------------------------------------------------- the whole listing

  /** Renumbering turns the listing into the one of the new tree, and the old numbers come in order. */
  lemma {:induction false} SlotsWhole(e: Delta)
    requires Fits(e)
    ensures AllRows(Slots(e), 0) == RowsOf(e.dir)
    ensures OldOrder(Slots(e))
    ensures AddedRows(Slots(e), 0) == FileFreshRows(e.fops) + FreshRows(e.ops)
    ensures KeptRows(Slots(e)) == FileSameRows(e.fops) + SameRows(e.ops)
  {
    var k, l := |e.was.dirs|, |e.dir.dirs|;
    DirSlotsRows(e.ops, 0, 0);
    FileSlotsRows(e.fops, k, l);
    SlotsConcat(DirSlots(e.ops), FileSlots(e.fops), 0);
    IncreasingConcat(KeptFids(DirSlots(e.ops)), KeptFids(FileSlots(e.fops)), k);
  }

  /** What the lines about the directory's own entries leave of its rows. */
  function EntryRows(e: Delta): map<int, Row> {
    RowsOf(e.was) - GoneFids(e.ops) - FileGoneFids(e.fops) + FileSameRows(e.fops)
  }

  /** Once the subdirectories that stay have their new sizes, the rows are those renumbering expects. */
  lemma {:induction false} EntryRowsKept(e: Delta)
    requires Fits(e)
    ensures EntryRows(e) + SameRows(e.ops) == KeptRows(Slots(e))
  {
    SlotsWhole(e);
    OldNumbers(e.was);
    DirSlotsRows(e.ops, 0, 0);
    FileSlotsRows(e.fops, |e.was.dirs|, |e.dir.dirs|);
    var left := RowsOf(e.was) - GoneFids(e.ops) - FileGoneFids(e.fops);
    forall f | f in left
      ensures f in FileSameRows(e.fops).Keys + SameRows(e.ops).Keys
    {
      assert f in RowsOf(e.was) && f !in GoneFids(e.ops) && f !in FileGoneFids(e.fops);
      assert f < |e.was.dirs| ==> f in SameRows(e.ops);
    }
    Maps.Covered(left, FileSameRows(e.fops), SameRows(e.ops));
  }

  lemma {:induction false} OldNumbers(d: Dir)
    requires Numbered(d)
    ensures forall f :: f in RowsOf(d) ==> 0 <= f < |d.dirs| + |d.files|
  {
    FileRowsKeys(d.files);
    DirRowsKeys(d.dirs);
  }

  lemma {:induction false} WithNewBoth(t: Tables, pid: int, a: map<int, Row>, b: map<int, Row>, dirs: map<int, Rec>)
    requires pid !in t.newfiles
    ensures WithNew(Tables(dirs, WithNew(t, pid, a)), pid, b) == WithNew(t, pid, a + b)
  {
    assert map[] + a == a && map[] + b == b && map[] + (a + b) == a + b;
    if a == map[] {
      assert a + b == b;
    } else {
      assert (a + b).Keys == a.Keys + b.Keys;
      assert a.Keys == {} ==> a == map[];
      if b == map[] {
        assert a + b == a;
      }
    }
  }

  // ---------------------------------------------------------------- numbers and ids of the entries

  lemma {:induction false} FreshNumbered(ops: seq<Op>, m: nat, n: nat)
    requires DirsFrom(Olds(ops), m) && DirsFrom(News(ops), n)
    ensures forall i :: 0 <= i < |ops| && ops[i].Fresh? ==> n <= ops[i].dir.fid < n + |News(ops)|
    ensures forall f :: f in GoneFids(ops) || f in SameRows(ops) ==> m <= f < m + |Olds(ops)|
    ensures FreshNumbers(ops, map[])
    decreases |ops|
  {
    if ops != [] {
      var tail := ops[1..];
      DirsTail(ops, m, n);
      FreshNumbered(tail, if ops[0].Fresh? then m else m + 1, if ops[0].Gone? then n else n + 1);
      assert |Olds(ops)| == |Olds(tail)| + if ops[0].Fresh? then 0 else 1;
      assert |News(ops)| == |News(tail)| + if ops[0].Gone? then 0 else 1;
      forall f | f in GoneFids(ops) || f in SameRows(ops)
        ensures m <= f < m + |Olds(ops)|
      {
        assert f in GoneFids(tail) || f in SameRows(tail) || (!ops[0].Fresh? && f == m);
      }
      assert forall i :: 1 <= i < |ops| ==> ops[i] == tail[i - 1];
    }
  }

  lemma {:induction false} FileNumbered(fops: seq<FileOp>, m: nat, n: nat)
    requires FilesFrom(FileOlds(fops), m) && FilesFrom(FileNews(fops), n)
    ensures forall i :: 0 <= i < |fops| && !fops[i].FileFresh? ==> m <= fops[i].was.fid
    ensures forall i :: 0 <= i < |fops| && fops[i].FileFresh? ==> n <= fops[i].file.fid
    ensures forall i :: 0 <= i < |fops| && !fops[i].FileFresh? ==> fops[i].was in FileOlds(fops)
    ensures forall i, j :: 0 <= i < j < |fops| && !fops[i].FileFresh? && !fops[j].FileFresh? ==>
                             fops[i].was.fid != fops[j].was.fid
    ensures forall i, j :: 0 <= i < j < |fops| && fops[i].FileFresh? && fops[j].FileFresh? ==>
                             fops[i].file.fid != fops[j].file.fid
    decreases |fops|
  {
    if fops != [] {
      var tail := fops[1..];
      FilesTail(fops, m, n);
      FileNumbered(tail, if fops[0].FileFresh? then m else m + 1, if fops[0].FileGone? then n else n + 1);
      assert forall i :: 1 <= i < |fops| ==> fops[i] == tail[i - 1];
    }
  }

  lemma {:induction false} FileRowsHold(fs: seq<File>, i: nat)
    requires i < |fs| && forall j, k :: 0 <= j < k < |fs| ==> fs[j].fid != fs[k].fid
    ensures fs[i].fid in FileRows(fs) && FileRows(fs)[fs[i].fid] == FileRow(fs[i])
    decreases |fs|
  {
    if i > 0 {
      assert fs[i] == fs[1..][i - 1];
      FileRowsHold(fs[1..], i - 1);
    }
  }

  lemma {:induction false} DirRowsHold(ds: seq<Dir>, i: nat)
    requires i < |ds| && forall j, k :: 0 <= j < k < |ds| ==> ds[j].fid != ds[k].fid
    ensures ds[i].fid in DirRows(ds) && DirRows(ds)[ds[i].fid] == DirRow(ds[i])
    decreases |ds|
  {
    if i > 0 {
      assert ds[i] == ds[1..][i - 1];
      DirRowsHold(ds[1..], i - 1);
    }
  }

  /** The files' numbers are in order when their lines come, after those about subdirectories. */
  lemma {:induction false} FileNumbersReady(e: Delta)
    requires Fits(e)
    ensures FileNumbers(e.fops, RowsOf(e.was) - GoneFids(e.ops), FreshRows(e.ops))
  {
    var k, l := |e.was.dirs|, |e.dir.dirs|;
    FreshNumbered(e.ops, 0, 0);
    FileNumbered(e.fops, k, l);
    FreshRowsKeys(e.ops);
    DirRowsKeys(e.was.dirs);
    forall i | 0 <= i < |e.fops| && e.fops[i].FileSame?
      ensures var f := e.fops[i].was; f.fid in RowsOf(e.was) - GoneFids(e.ops) && RowsOf(e.was)[f.fid] == FileRow(f)
    {
      var f := e.fops[i].was;
      var j :| 0 <= j < |e.was.files| && e.was.files[j] == f;
      FileRowsHold(e.was.files, j);
    }
  }

  /** Where a kept subdirectory's row is before its closing line. */
  lemma {:induction false} SameWas(ops: seq<Op>, i: nat)
    requires i < |ops| && ops[i].Same?
    ensures ops[i].delta.was in Olds(ops)
    decreases |ops|
  {
    if i > 0 {
      assert ops[i] == ops[1..][i - 1];
      SameWas(ops[1..], i - 1);
    }
  }

  ghost predicate SameHold(rows: map<int, Row>, ops: seq<Op>) {
    && (forall i :: 0 <= i < |ops| && ops[i].Same? ==>
                      ops[i].delta.was.fid in rows && rows[ops[i].delta.was.fid] == DirRow(ops[i].delta.was))
    && (forall i, j :: 0 <= i < j < |ops| && ops[i].Same? && ops[j].Same? ==>
                         ops[i].delta.was.fid != ops[j].delta.was.fid)
  }

  lemma {:induction false} SameDistinct(ops: seq<Op>, m: nat, n: nat)
    requires DirsFrom(Olds(ops), m) && DirsFrom(News(ops), n)
    ensures forall i :: 0 <= i < |ops| && ops[i].Same? ==>
                          m <= ops[i].delta.was.fid < m + |Olds(ops)| && ops[i].delta.was.fid !in GoneFids(ops)
    ensures forall i, j :: 0 <= i < j < |ops| && ops[i].Same? && ops[j].Same? ==>
                             ops[i].delta.was.fid != ops[j].delta.was.fid
    decreases |ops|
  {
    if ops != [] {
      var tail := ops[1..];
      var m', n' := if ops[0].Fresh? then m else m + 1, if ops[0].Gone? then n else n + 1;
      DirsTail(ops, m, n);
      SameDistinct(tail, m', n');
      FreshNumbered(tail, m', n');
      assert forall i :: 1 <= i < |ops| ==> ops[i] == tail[i - 1];
    }
  }

  lemma {:induction false} SameReady(e: Delta)
    requires Fits(e)
    ensures SameHold(EntryRows(e), e.ops)
  {
    var k, l := |e.was.dirs|, |e.dir.dirs|;
    SameDistinct(e.ops, 0, 0);
    FileSlotsRows(e.fops, k, l);
    FileNumbered(e.fops, k, l);
    FileKeys(e.fops);
    forall i | 0 <= i < |e.ops| && e.ops[i].Same?
      ensures var d := e.ops[i].delta.was; d.fid in EntryRows(e) && EntryRows(e)[d.fid] == DirRow(d)
    {
      var d := e.ops[i].delta.was;
      SameWas(e.ops, i);
      var j :| 0 <= j < k && e.was.dirs[j] == d;
      DirRowsHold(e.was.dirs, j);
    }
  }

  /** A directory in which nothing changed keeps its numbers. */
  lemma {:induction false} Unchanged(e: Delta)
    requires Fits(e) && !Changed(e)
    ensures KeptRows(Slots(e)) == RowsOf(e.dir) && AddedRows(Slots(e), 0) == map[]
    ensures FreshRecs(e.ops, [], 0) == map[]
    ensures forall i :: 0 <= i < |e.ops| ==> e.ops[i].Same? && e.ops[i].delta.was.fid == e.ops[i].delta.dir.fid
  {
    UnchangedDirs(e.ops, 0);
    UnchangedFiles(e.fops, |e.was.dirs|);
    SlotsConcat(DirSlots(e.ops), FileSlots(e.fops), 0);
    SlotsWhole(e);
    Maps.UnionEmpty<int, Row>(map[]);
  }

  lemma {:induction false} UnchangedDirs(ops: seq<Op>, m: nat)
    requires forall i :: 0 <= i < |ops| ==> ops[i].Same?
    requires DirsFrom(Olds(ops), m) && DirsFrom(News(ops), m)
    ensures |Olds(ops)| == |News(ops)| == |DirSlots(ops)|
    ensures KeptRows(DirSlots(ops)) == AllRows(DirSlots(ops), m) && AddedRows(DirSlots(ops), m) == map[]
    ensures FreshRecs(ops, [], 0) == map[]
    ensures forall i :: 0 <= i < |ops| ==> ops[i].delta.was.fid == ops[i].delta.dir.fid
    decreases |ops|
  {
    if ops != [] {
      DirsTail(ops, m, m);
      UnchangedDirs(ops[1..], m + 1);
      assert forall i :: 1 <= i < |ops| ==> ops[i] == ops[1..][i - 1];
      assert DirSlots(ops)[1..] == DirSlots(ops[1..]);
    }
  }

  lemma {:induction false} UnchangedFiles(fops: seq<FileOp>, m: nat)
    requires forall i :: 0 <= i < |fops| ==> !Differs(fops[i])
    requires FilesFrom(FileOlds(fops), m) && FilesFrom(FileNews(fops), m)
    ensures KeptRows(FileSlots(fops)) == AllRows(FileSlots(fops), m) && AddedRows(FileSlots(fops), m) == map[]
    decreases |fops|
  {
    if fops != [] {
      FilesTail(fops, m, m);
      UnchangedFiles(fops[1..], m + 1);
      assert forall i :: 1 <= i < |fops| ==> fops[i] == fops[1..][i - 1];
      assert FileSlots(fops)[1..] == FileSlots(fops[1..]);
    }
  }

  /** Different positions hold different directories, none of them the directory itself. */
  lemma {:induction false} SlotDirs(ops: seq<Op>)
    requires FitsOf(ops) && UniqueIdsOf(BothOf(ops))
    ensures forall i :: 0 <= i < |DirSlots(ops)| ==> DirSlots(ops)[i].row.dir in IdsOf(BothOf(ops))
    ensures DistinctDirs(DirSlots(ops))
    decreases |ops|
  {
    if ops != [] {
      var slots, tail := DirSlots(ops), DirSlots(ops[1..]);
      assert BothOf(ops)[1..] == BothOf(ops[1..]);
      SlotDirs(ops[1..]);
      if ops[0].Gone? {
        assert slots == tail;
      } else {
        assert slots[1..] == tail && slots[0].row.dir in Ids(BothOf(ops)[0]);
        assert forall i :: 1 <= i < |slots| ==> slots[i] == tail[i - 1];
      }
    }
  }

  lemma {:induction false} FileSlotDirs(fops: seq<FileOp>)
    ensures forall i :: 0 <= i < |FileSlots(fops)| ==> FileSlots(fops)[i].row.dir == 0
    decreases |fops|
  {
    if fops != [] {
      var slots, tail := FileSlots(fops), FileSlots(fops[1..]);
      FileSlotDirs(fops[1..]);
      match fops[0] {
        case FileGone(_) => assert slots == tail;
        case FileFresh(_) => assert forall i :: 1 <= i < |slots| ==> slots[i] == tail[i - 1];
        case FileSame(_, _) => assert forall i :: 1 <= i < |slots| ==> slots[i] == tail[i - 1];
      }
    }
  }

  lemma {:induction false} SlotsDistinct(e: Delta)
    requires Fits(e) && UniqueIds(Both(e))
    ensures DistinctDirs(Slots(e))
    ensures forall i :: 0 <= i < |Slots(e)| ==> Slots(e)[i].row.dir != e.dir.id
  {
    SlotDirs(e.ops);
    FileSlotDirs(e.fops);
  }
}
