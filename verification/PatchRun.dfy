/** Running the patch lines of a directory, by induction over the delta. */
module PatchRun {
  import opened Wrappers
  import opened Trees
  import opened Store
  import opened Image
  import opened Renumber
  import opened Deltas
  import opened PatchEntries
  import opened Listings
  import opened Middle
  import Maps

  /** `pending` holds, within the tree, exactly the directories that the patch leaves to the end. */
  ghost predicate Awaits(e: Delta, pending: set<int>) {
    (e.dir.id in pending <==> Pending(e)) && AwaitsOf(e.ops, pending)
  }

  ghost predicate AwaitsOf(ops: seq<Op>, pending: set<int>) {
    ops != [] ==>
      && (ops[0].Same? ==> (assert ops[0].delta < ops[0]; Awaits(ops[0].delta, pending)))
      && AwaitsOf(ops[1..], pending)
  }

  // ---------------------------------------------------------------- the directory's own entries

  /** The state in which a directory's lines are read: its old rows are there, beside `base`. */
  ghost predicate Ready(s: Spider, base: map<int, Rec>, e: Delta, path: Path, pid: nat, g: map<int, Path>) {
    && Fits(e) && UniqueIds(Both(e))
    && base.Keys !! Ids(Both(e))
    && s.t.dirs == base + Recs(e.was, path, pid)
    && s.buffer.Keys !! Ids(Both(e)) && s.t.newfiles.Keys !! Ids(Both(e))
    && Injective(g) && Follows(s.t.dirs, g) && Placed(Both(e), path, g)
  }

  function Headed(buffer: map<int, bool>, e: Delta): map<int, bool> {
    if Changed(e) then buffer[e.dir.id := true] else buffer
  }

  lemma {:induction false} HeadRun(s: Spider, e: Delta, path: Path)
    ensures Run(s, HeadLines(e, path)) == Some(s.(buffer := Headed(s.buffer, e)))
  {
    if Changed(e) {
      var line := PathLine(Mod, e.dir.id, path);
      assert ExecAll(s.t, []) == Some(s.t);
      RunOne(s, line);
    }
  }

  /** The directory's own row, as the old tree left it but with the given `files` rows. */
  function OwnRec(e: Delta, path: Path, pid: nat, rows: map<int, Row>): Rec {
    Rec(path, Some(pid), Some(e.was.fid), e.was.items, e.was.size, rows)
  }

  /** The lines about subdirectories that came or went, read after the head line. */
  lemma {:induction false} OwnDirsRun(s: Spider, base: map<int, Rec>, e: Delta, path: Path, pid: nat, g: map<int, Path>)
    requires Ready(s, base, e, path, pid, g)
    ensures var id, rec := e.dir.id, OwnRec(e, path, pid, RowsOf(e.was));
            var dirs := AfterOps(base[id := rec], e.ops, id, path) + RecsOf(SameOlds(e.ops), path, id);
            && Run(s.(buffer := Headed(s.buffer, e)), OpLines(e.ops, id, path))
               == Some(s.(t := Tables(dirs, WithNew(s.t, id, FreshRows(e.ops))), buffer := Headed(s.buffer, e)))
            && Follows(dirs, g)
  {
    hide Step, Run, Injective, Follows, AfterOps, WithNew, RecsOf, OpLines, FreshRows, Ready, OwnRec;
    OwnDirsReady(s, base, e, path, pid, g);
    OpsRun(s.(buffer := Headed(s.buffer, e)), base[e.dir.id := OwnRec(e, path, pid, RowsOf(e.was))], e.ops, e.dir.id,
           path, g);
  }

  lemma {:induction false} OwnDirsReady(s: Spider, base: map<int, Rec>, e: Delta, path: Path, pid: nat,
                                        g: map<int, Path>)
    requires Ready(s, base, e, path, pid, g)
    ensures var id, base1 := e.dir.id, base[e.dir.id := OwnRec(e, path, pid, RowsOf(e.was))];
            var buffer := Headed(s.buffer, e);
            && id > 0 && FitsOf(e.ops) && base1.Keys !! IdsOf(BothOf(e.ops)) && UniqueIdsOf(BothOf(e.ops))
            && ((exists i :: 0 <= i < |e.ops| && !e.ops[i].Same?) ==> Modified(buffer, id))
            && buffer.Keys !! IdsOf(BothOf(e.ops)) && FreshNumbers(e.ops, NewRows(s.t, id))
            && s.t.dirs == base1 + RecsOf(Olds(e.ops), path, id)
            && Injective(g) && Follows(s.t.dirs, g) && PlacedOf(BothOf(e.ops), path, g)
  {
    var id, rec := e.dir.id, OwnRec(e, path, pid, RowsOf(e.was));
    hide Step, Run, Injective, Follows;
    RecsOfKeys(e.was.dirs, path, id);
    BothContains(e.ops, path, id);
    Maps.PutThenUnion(base, RecsOf(e.was.dirs, path, id), id, rec);
    FreshNumbered(e.ops, 0, 0);
  }

  /** The tables once the directory's own entries have been brought up to date. */
  function EntryDirs(base: map<int, Rec>, e: Delta, path: Path, pid: nat): map<int, Rec> {
    base[e.dir.id := OwnRec(e, path, pid, EntryRows(e))] + FreshRecs(e.ops, path, e.dir.id)
  }

  lemma {:induction false} OwnFilesRun(s: Spider, base: map<int, Rec>, e: Delta, path: Path, pid: nat,
                                       g: map<int, Path>)
    requires Ready(s, base, e, path, pid, g)
    ensures var id := e.dir.id;
            var dirs := EntryDirs(base, e, path, pid) + RecsOf(SameOlds(e.ops), path, id);
            && Run(s.(buffer := Headed(s.buffer, e)), OpLines(e.ops, id, path) + FileOpLines(e.fops, id))
               == Some(s.(t := Tables(dirs, WithNew(s.t, id, AddedRows(Slots(e), 0))), buffer := Headed(s.buffer, e)))
            && Follows(dirs, g)
  {
    hide Step, Run, Injective, Follows, FileNumbers, WithNew;
    var id, rec := e.dir.id, OwnRec(e, path, pid, RowsOf(e.was));
    var rest, news := RecsOf(SameOlds(e.ops), path, id), FreshRecs(e.ops, path, id);
    var s1 := s.(buffer := Headed(s.buffer, e));
    var rows := RowsOf(e.was) - GoneFids(e.ops);
    OwnDirsRun(s, base, e, path, pid, g);
    var dirs2 := AfterOps(base[id := rec], e.ops, id, path) + rest;
    var s2 := s1.(t := Tables(dirs2, WithNew(s.t, id, FreshRows(e.ops))));
    OwnApart(e, path);
    Maps.PutLast(base, news, rest, id, rec, rec.(rows := rows), rec.(rows := EntryRows(e)));
    FilesReady(s.t, e, dirs2);
    FileOpsRun(s2, e.fops, id);
    RunConcat(s1, OpLines(e.ops, id, path), FileOpLines(e.fops, id));
    OwnNews(s.t, e, dirs2);
    FollowsRows(dirs2, id, EntryRows(e), g);
  }

  lemma {:induction false} OwnApart(e: Delta, path: Path)
    requires Fits(e) && UniqueIds(Both(e))
    ensures e.dir.id !in FreshRecs(e.ops, path, e.dir.id)
    ensures e.dir.id !in RecsOf(SameOlds(e.ops), path, e.dir.id)
  {
    BothContains(e.ops, path, e.dir.id);
    RecsOfKeys(SameOlds(e.ops), path, e.dir.id);
  }

  lemma {:induction false} OwnNews(t: Tables, e: Delta, dirs: map<int, Rec>)
    requires Fits(e) && e.dir.id !in t.newfiles
    ensures WithNew(Tables(dirs, WithNew(t, e.dir.id, FreshRows(e.ops))), e.dir.id, FileFreshRows(e.fops))
         == WithNew(t, e.dir.id, AddedRows(Slots(e), 0))
  {
    WithNewBoth(t, e.dir.id, FreshRows(e.ops), FileFreshRows(e.fops), dirs);
    SlotsWhole(e);
    NewsApart(e);
    Maps.UnionCommutes(FreshRows(e.ops), FileFreshRows(e.fops));
  }

  lemma {:induction false} NewsApart(e: Delta)
    requires Fits(e)
    ensures FreshRows(e.ops).Keys !! FileFreshRows(e.fops).Keys
  {
    FreshNumbered(e.ops, 0, 0);
    FreshRowsKeys(e.ops);
    FileNumbered(e.fops, |e.was.dirs|, |e.dir.dirs|);
    FileKeys(e.fops);
    forall f | f in FreshRows(e.ops)
      ensures f !in FileFreshRows(e.fops)
    {
      assert f < |e.dir.dirs|;
    }
  }

  lemma {:induction false} FilesReady(t: Tables, e: Delta, dirs: map<int, Rec>)
    requires Fits(e) && e.dir.id !in t.newfiles
    ensures FileNumbers(e.fops, RowsOf(e.was) - GoneFids(e.ops),
                        NewRows(Tables(dirs, WithNew(t, e.dir.id, FreshRows(e.ops))), e.dir.id))
  {
    FileNumbersReady(e);
    Maps.EmptyUnion(FreshRows(e.ops));
  }

  // ---------------------------------------------------------------- the closing line

  /** The parent's row of a directory, once the directory has its new size. */
  function FootDirs(base: map<int, Rec>, e: Delta, pid: nat): map<int, Rec> {
    if pid > 0 && pid in base then WithRows(base, pid, base[pid].rows[e.was.fid := DirRow(e.dir)]) else base
  }

  function FootTotal(total: Option<nat>, e: Delta, pid: nat): Option<nat> {
    if pid == 0 && Closes(e) then Some(e.dir.size) else total
  }

  /** The parent holds the old row, or there is no parent. */
  ghost predicate Held(dirs: map<int, Rec>, e: Delta, pid: nat) {
    pid > 0 ==> pid in dirs && e.was.fid in dirs[pid].rows && dirs[pid].rows[e.was.fid] == DirRow(e.was)
  }

  lemma {:induction false} StepFoot(s: Spider, e: Delta, pid: nat, t1: Tables, t2: Tables)
    requires Fits(e) && Closes(e) && pid != e.dir.id
    requires Exec(s.t, UpdatePath(e.dir.id, pid, e.was.fid, e.dir.items, e.dir.size)) == Some(t1)
    requires if Modified(s.buffer, e.dir.id) then Push(t1, e.dir.id) == Some(t2) else t2 == t1
    requires Held(t2.dirs, e, pid)
    ensures Run(s, FootLines(e, pid))
         == Some(Spider(t2.(dirs := FootDirs(t2.dirs, e, pid)), s.buffer - {e.dir.id}, FootTotal(s.total, e, pid)))
  {
    var line := DirLine(Mod, pid, e.was.(size := e.dir.size, items := e.dir.items));
    RunOne(s, line);
    var u := UpdatePath(e.dir.id, pid, e.was.fid, e.dir.items, e.dir.size);
    var q := UpdateSize(pid, e.was.fid, e.dir.size);
    var push := if Modified(s.buffer, e.dir.id) then [PushFiles(e.dir.id)] else [];
    ExecFront(s.t, u, push, t1);
    ExecFront(s.t, u, push + [q], t1);
    ExecPush(t1, push, e.dir.id, q, t2);
    assert [u] + push + [q] == [u] + (push + [q]);
  }

  lemma {:induction false} ExecFront(t: Tables, q: Stmt, rest: seq<Stmt>, t': Tables)
    requires Exec(t, q) == Some(t')
    ensures ExecAll(t, [q] + rest) == ExecAll(t', rest)
  {
    assert ([q] + rest)[1..] == rest;
  }

  lemma {:induction false} ExecPush(t: Tables, push: seq<Stmt>, id: nat, q: Stmt, t': Tables)
    requires (push == [] && t' == t) || (push == [PushFiles(id)] && Push(t, id) == Some(t'))
    ensures ExecAll(t, push) == Some(t') && ExecAll(t, push + [q]) == Exec(t', q)
  {
    assert push + [q] == [q] || (push + [q] == [PushFiles(id), q] && [PushFiles(id), q][1..] == [q]);
    if push != [] {
      assert push[1..] == [];
    }
    assert ExecAll(t', [q]) == Exec(t', q);
  }

  lemma {:induction false} SettleHere(e: Delta, path: Path, pid: nat, slot: nat, pending: set<int>)
    requires Fits(e) && UniqueIds(Both(e)) && !Changed(e)
    ensures MidRecs(e, path, pid, slot, pending) == MidRecs(e, path, pid, slot, pending - {e.dir.id})
  {
    Unchanged(e);
    SettleSames(e.ops, path, e.dir.id, pending);
  }

  lemma {:induction false} SettleSames(ops: seq<Op>, path: Path, pid: nat, pending: set<int>)
    requires FitsOf(ops) && pid !in IdsOf(BothOf(ops))
    requires forall i :: 0 <= i < |ops| ==> ops[i].Same? && ops[i].delta.was.fid == ops[i].delta.dir.fid
    ensures MidSames(ops, path, pid, pending) == MidSames(ops, path, pid, pending - {pid})
    decreases |ops|
  {
    if ops != [] {
      var e := ops[0].delta;
      assert BothOf(ops)[0] == Both(e) && BothOf(ops)[1..] == BothOf(ops[1..]);
      assert forall i :: 0 <= i < |ops[1..]| ==> ops[1..][i] == ops[i + 1];
      SettleSames(ops[1..], path, pid, pending);
      MidLocal(e, path + [e.dir.name], pid, e.dir.fid, pending, pending - {pid});
    }
  }

  /** What the tables hold for a directory between its own lines and its closing line. */
  function Unclosed(base: map<int, Rec>, e: Delta, path: Path, pid: nat, pending: set<int>): map<int, Rec> {
    base + (FreshRecs(e.ops, path, e.dir.id) + MidSames(e.ops, path, e.dir.id, pending))
    [e.dir.id := OwnRec(e, path, pid, KeptRows(Slots(e)))]
  }

  lemma {:induction false} FootRun(s: Spider, base: map<int, Rec>, e: Delta, path: Path, pid: nat, pending: set<int>)
    requires Fits(e) && UniqueIds(Both(e)) && base.Keys !! Ids(Both(e)) && Held(base, e, pid)
    requires e.dir.id in pending && s.t.dirs == Unclosed(base, e, path, pid, pending)
    requires (e.dir.id in s.buffer <==> Changed(e)) && (Changed(e) ==> s.buffer[e.dir.id])
    requires NewRows(s.t, e.dir.id) == AddedRows(Slots(e), 0)
    ensures var settled := if Pending(e) then pending else pending - {e.dir.id};
            var newfiles := if Changed(e) && Closes(e) then s.t.newfiles - {e.dir.id} else s.t.newfiles;
            var tables := Tables(FootDirs(base, e, pid) + MidRecs(e, path, pid, e.was.fid, settled), newfiles);
            var buffer := if Closes(e) then s.buffer - {e.dir.id} else s.buffer;
            Run(s, FootLines(e, pid)) == Some(Spider(tables, buffer, FootTotal(s.total, e, pid)))
  {
    var id, slot := e.dir.id, e.was.fid;
    var mid, mid' := MidRecs(e, path, pid, slot, pending), MidRecs(e, path, pid, slot, pending - {id});
    MidKeys(e, path, pid, slot, pending);
    MidKeys(e, path, pid, slot, pending - {id});
    BothHasNew(e);
    if !Changed(e) {
      SettleHere(e, path, pid, slot, pending);
    }
    if Closes(e) {
      var u := UpdatePath(id, pid, slot, e.dir.items, e.dir.size);
      UnclosedUpdate(base, e, path, pid, pending);
      var t1 := s.t.(dirs := base + mid);
      assert Exec(s.t, u) == Some(t1);
      if Changed(e) {
        PushMid(t1, base, e, path, pid, slot, pending);
      }
      var t2 := if Changed(e) then Tables(base + mid', s.t.newfiles - {id}) else t1;
      StepFoot(s, e, pid, t1, t2);
      FootBeside(base, mid', e, pid);
    } else {
      FootSame(base, e, pid);
    }
  }

  lemma {:induction false} UnclosedUpdate(base: map<int, Rec>, e: Delta, path: Path, pid: nat, pending: set<int>)
    requires e.dir.id in pending
    ensures var dirs, id := Unclosed(base, e, path, pid, pending), e.dir.id;
            && id in dirs
            && var rec := dirs[id].(parent := Some(pid), slot := Some(e.was.fid), items := e.dir.items,
                          size := e.dir.size);
            dirs[id := rec] == base + MidRecs(e, path, pid, e.was.fid, pending)
    ensures e.was.items == e.dir.items && e.was.size == e.dir.size ==>
              Unclosed(base, e, path, pid, pending) == base + MidRecs(e, path, pid, e.was.fid, pending)
  {
    var id, own := e.dir.id, OwnRec(e, path, pid, KeptRows(Slots(e)));
    var inner := FreshRecs(e.ops, path, id) + MidSames(e.ops, path, id, pending);
    var rec := MidRec(e, path, pid, e.was.fid, pending);
    Maps.PutInside(base, inner[id := own], id, rec);
    Maps.PutTwice(inner, id, own, rec);
  }

  lemma {:induction false} FootBeside(base: map<int, Rec>, mid: map<int, Rec>, e: Delta, pid: nat)
    requires Held(base, e, pid) && base.Keys !! mid.Keys
    ensures Held(base + mid, e, pid)
    ensures FootDirs(base + mid, e, pid) == FootDirs(base, e, pid) + mid
  {
    if pid != 0 {
      Maps.PutBeside(base, mid, pid, base[pid].(rows := base[pid].rows[e.was.fid := DirRow(e.dir)]));
    }
  }

  lemma {:induction false} FootSame(base: map<int, Rec>, e: Delta, pid: nat)
    requires Held(base, e, pid) && Fits(e) && !Closes(e)
    ensures FootDirs(base, e, pid) == base
  {
    if pid > 0 {
      Maps.PutSame(base[pid].rows, e.was.fid);
      Maps.PutSame(base, pid);
    }
  }

  // ---------------------------------------------------------------- induction

  /** The ids of the subtrees that stay. */
  function SameIds(ops: seq<Op>): set<int> {
    if ops == [] then {}
    else (if ops[0].Same? then Ids(Both(ops[0].delta)) else {}) + SameIds(ops[1..])
  }

  lemma {:induction false} SameIdsWithin(ops: seq<Op>)
    ensures SameIds(ops) <= IdsOf(BothOf(ops))
    decreases |ops|
  {
    if ops != [] {
      SameIdsWithin(ops[1..]);
      assert BothOf(ops)[1..] == BothOf(ops[1..]);
      if ops[0].Same? {
        assert BothOf(ops)[0] == Both(ops[0].delta);
      }
    }
  }

  lemma {:induction false} SameOldsWithin(ops: seq<Op>)
    requires FitsOf(ops)
    ensures IdsOf(SameOlds(ops)) <= SameIds(ops)
    decreases |ops|
  {
    if ops != [] {
      SameOldsWithin(ops[1..]);
      if ops[0].Same? {
        BothHasNew(ops[0].delta);
        assert SameOlds(ops)[0] == ops[0].delta.was && SameOlds(ops)[1..] == SameOlds(ops[1..]);
      } else {
        assert SameOlds(ops) == SameOlds(ops[1..]);
      }
    }
  }

  lemma {:induction false} PendingWithin(e: Delta)
    ensures PendingIds(e) <= Ids(Both(e)) && PendingRows(e).Keys <= PendingIds(e)
    decreases e, 1
  {
    PendingWithinOf(e.ops);
    SameIdsWithin(e.ops);
  }

  lemma {:induction false} PendingWithinOf(ops: seq<Op>)
    ensures PendingIdsOf(ops) <= SameIds(ops) && PendingRowsOf(ops).Keys <= PendingIdsOf(ops)
    decreases ops, 0
  {
    if ops != [] {
      PendingWithinOf(ops[1..]);
      if ops[0].Same? {
        assert ops[0].delta < ops[0];
        PendingWithin(ops[0].delta);
      }
    }
  }

  /** The state in which the lines of the subdirectories that stay are read. */
  ghost predicate SamesReady(s: Spider, base: map<int, Rec>, ops: seq<Op>, path: Path, pid: nat, g: map<int, Path>,
                             pending: set<int>) {
    && FitsOf(ops) && UniqueIdsOf(BothOf(ops)) && AwaitsOf(ops, pending)
    && pid > 0 && pid in base && pid in pending && SameHold(base[pid].rows, ops)
    && base.Keys !! SameIds(ops) && s.buffer.Keys !! SameIds(ops) && s.t.newfiles.Keys !! SameIds(ops)
    && s.t.dirs == base + RecsOf(SameOlds(ops), path, pid)
    && Injective(g) && Follows(s.t.dirs, g) && PlacedOf(BothOf(ops), path, g)
  }

  /** The state after the lines of a directory that stays. */
  function Patched(s: Spider, base: map<int, Rec>, e: Delta, path: Path, pid: nat, pending: set<int>): Spider {
    Spider(Tables(FootDirs(base, e, pid) + MidRecs(e, path, pid, e.was.fid, pending), s.t.newfiles + PendingRows(e)),
           s.buffer + Maps.Constant(PendingIds(e), true), FootTotal(s.total, e, pid))
  }

  function SamesPatched(s: Spider, base: map<int, Rec>, ops: seq<Op>, path: Path, pid: nat, pending: set<int>): Spider
    requires pid in base
  {
    s.(t := Tables(WithRows(base, pid, base[pid].rows + SameRows(ops)) + MidSames(ops, path, pid, pending),
                   s.t.newfiles + PendingRowsOf(ops)),
    buffer := s.buffer + Maps.Constant(PendingIdsOf(ops), true))
  }

  /** The first subdirectory that stays: its part of the tables is set apart. */
  lemma {:induction false} SameApartReady(s: Spider, base: map<int, Rec>, ops: seq<Op>, path: Path, pid: nat,
                                          g: map<int, Path>, pending: set<int>)
    requires SamesReady(s, base, ops, path, pid, g, pending) && ops != [] && ops[0].Same?
    ensures var e, base1 := ops[0].delta, base + RecsOf(SameOlds(ops[1..]), path, pid);
            && Ready(s, base1, e, path + [e.dir.name], pid, g) && Held(base1, e, pid) && Awaits(e, pending)
  {
    var e, rest := ops[0].delta, RecsOf(SameOlds(ops[1..]), path, pid);
    assert BothOf(ops)[0] == Both(e) && BothOf(ops)[1..] == BothOf(ops[1..]);
    OldsTail(ops, path, pid);
    SameOldsWithin(ops[1..]);
    SameIdsWithin(ops[1..]);
    RecsOfKeys(SameOlds(ops[1..]), path, pid);
    RecsKeys(e.was, path + [e.was.name], pid);
    BothHasNew(e);
    assert ops[0].delta.was.fid in base[pid].rows;
    Maps.UnionAssociative(base, rest, Recs(e.was, path + [e.was.name], pid));
    Maps.UnionCommutes(Recs(e.was, path + [e.was.name], pid), rest);
  }

  /** What the first one leaves as the base for the others. */
  function SameBase(base: map<int, Rec>, e: Delta, path: Path, pid: nat, pending: set<int>): map<int, Rec>
    requires pid in base
  {
    WithRows(base, pid, base[pid].rows[e.was.fid := DirRow(e.dir)])
    + MidRecs(e, path + [e.dir.name], pid, e.was.fid, pending)
  }

  lemma {:induction false} SameBaseReady(s: Spider, base: map<int, Rec>, ops: seq<Op>, path: Path, pid: nat,
                                         g: map<int, Path>, pending: set<int>)
    requires SamesReady(s, base, ops, path, pid, g, pending) && ops != [] && ops[0].Same?
    requires Follows(Patched(s, base + RecsOf(SameOlds(ops[1..]), path, pid), ops[0].delta,
                             path + [ops[0].delta.dir.name], pid, pending).t.dirs, g)
    ensures var e, tail := ops[0].delta, ops[1..];
            var s1 := Patched(s, base + RecsOf(SameOlds(tail), path, pid), e, path + [e.dir.name], pid, pending);
            var base2 := SameBase(base, e, path, pid, pending);
            && SamesReady(s1, base2, tail, path, pid, g, pending) && s1.total == s.total
            && base2[pid].rows == base[pid].rows[e.was.fid := DirRow(e.dir)]
  {
    var e, tail := ops[0].delta, ops[1..];
    var p := path + [e.dir.name];
    var rest, mid := RecsOf(SameOlds(tail), path, pid), MidRecs(e, p, pid, e.was.fid, pending);
    assert BothOf(ops)[0] == Both(e) && BothOf(ops)[1..] == BothOf(tail);
    SameOldsWithin(tail);
    SameIdsWithin(tail);
    RecsOfKeys(SameOlds(tail), path, pid);
    MidKeys(e, p, pid, e.was.fid, pending);
    BothHasNew(e);
    PendingWithin(e);
    SameHoldTail(base[pid].rows, ops);
    var rows := base[pid].rows[e.was.fid := DirRow(e.dir)];
    Maps.PutBeside(base, rest, pid, base[pid].(rows := rows));
    Maps.UnionSwap(WithRows(base, pid, rows), rest, mid);
  }

  lemma {:induction false} SameHoldTail(rows: map<int, Row>, ops: seq<Op>)
    requires ops != [] && ops[0].Same? && SameHold(rows, ops)
    ensures SameHold(rows[ops[0].delta.was.fid := DirRow(ops[0].delta.dir)], ops[1..])
    ensures ops[0].delta.was.fid !in SameRows(ops[1..])
  {
    assert forall i :: 0 <= i < |ops[1..]| ==> ops[1..][i] == ops[i + 1];
    SameRowsKeys(ops[1..]);
  }

  lemma {:induction false} SameRowsKeys(ops: seq<Op>)
    ensures forall f :: f in SameRows(ops) ==> exists i :: 0 <= i < |ops| && ops[i].Same? && ops[i].delta.was.fid == f
    decreases |ops|
  {
    if ops != [] {
      SameRowsKeys(ops[1..]);
      forall f | f in SameRows(ops)
        ensures exists i :: 0 <= i < |ops| && ops[i].Same? && ops[i].delta.was.fid == f
      {
        if f in SameRows(ops[1..]) {
          var i :| 0 <= i < |ops[1..]| && ops[1..][i].Same? && ops[1..][i].delta.was.fid == f;
          assert ops[i + 1].delta.was.fid == f;
        }
      }
    }
  }

  lemma {:induction false} SamesAddUp(s: Spider, base: map<int, Rec>, ops: seq<Op>, path: Path, pid: nat,
                                      g: map<int, Path>, pending: set<int>)
    requires SamesReady(s, base, ops, path, pid, g, pending) && ops != [] && ops[0].Same?
    ensures var e, tail := ops[0].delta, ops[1..];
            var s1 := Patched(s, base + RecsOf(SameOlds(tail), path, pid), e, path + [e.dir.name], pid, pending);
            var base2 := SameBase(base, e, path, pid, pending);
            pid in base2 && SamesPatched(s1, base2, tail, path, pid, pending)
                            == SamesPatched(s, base, ops, path, pid, pending)
  {
    var e, tail := ops[0].delta, ops[1..];
    var p, rows := path + [e.dir.name], base[pid].rows;
    var mid := MidRecs(e, p, pid, e.was.fid, pending);
    MidKeys(e, p, pid, e.was.fid, pending);
    BothHasNew(e);
    SameHoldTail(rows, ops);
    Maps.PutThenUnion(rows, SameRows(tail), e.was.fid, DirRow(e.dir));
    Maps.Overwrite(base, mid, MidSames(tail, path, pid, pending), pid,
                   base[pid].(rows := rows[e.was.fid := DirRow(e.dir)]), base[pid].(rows := rows + SameRows(ops)));
    Maps.UnionAssociative(s.t.newfiles, PendingRows(e), PendingRowsOf(tail));
    Maps.ConstantUnion(s.buffer, PendingIds(e), PendingIdsOf(tail), true);
  }

  lemma {:induction false} SamesRun(s: Spider, base: map<int, Rec>, ops: seq<Op>, path: Path, pid: nat,
                                    g: map<int, Path>, pending: set<int>)
    requires SamesReady(s, base, ops, path, pid, g, pending)
    ensures Run(s, SameLines(ops, pid, path)) == Some(SamesPatched(s, base, ops, path, pid, pending))
    ensures Follows(SamesPatched(s, base, ops, path, pid, pending).t.dirs, g)
    decreases ops, 0
  {
    if ops == [] {
      NoSames(s, base, path, pid, pending);
    } else if ops[0].Same? {
      var e, tail := ops[0].delta, ops[1..];
      assert e < ops[0];
      var p := path + [e.dir.name];
      var base1 := base + RecsOf(SameOlds(tail), path, pid);
      SameApartReady(s, base, ops, path, pid, g, pending);
      hide SamesReady, Ready, Follows, Injective, Patched, SamesPatched, Step;
      DeltaRun(s, base1, e, p, pid, g, pending);
      var s1 := Patched(s, base1, e, p, pid, pending);
      SameBaseReady(s, base, ops, path, pid, g, pending);
      SamesRun(s1, SameBase(base, e, path, pid, pending), tail, path, pid, g, pending);
      SamesAddUp(s, base, ops, path, pid, g, pending);
      RunConcat(s, PatchLines(e, pid, p), SameLines(tail, pid, path));
    } else {
      SkipOther(s, base, ops, path, pid, g, pending);
      SamesRun(s, base, ops[1..], path, pid, g, pending);
      assert [] + SameLines(ops[1..], pid, path) == SameLines(ops[1..], pid, path);
    }
  }

  lemma {:induction false} NoSames(s: Spider, base: map<int, Rec>, path: Path, pid: nat, pending: set<int>)
    requires pid in base && s.t.dirs == base + RecsOf([], path, pid)
    ensures SamesPatched(s, base, [], path, pid, pending) == s
  {
    Maps.UnionEmpty(base);
    Maps.UnionEmpty(base[pid].rows);
    Maps.PutSame(base, pid);
    Maps.UnionEmpty(s.t.newfiles);
    assert s.buffer + Maps.Constant({}, true) == s.buffer;
  }

  lemma {:induction false} SkipOther(s: Spider, base: map<int, Rec>, ops: seq<Op>, path: Path, pid: nat,
                                     g: map<int, Path>, pending: set<int>)
    requires SamesReady(s, base, ops, path, pid, g, pending) && ops != [] && !ops[0].Same?
    ensures SamesReady(s, base, ops[1..], path, pid, g, pending)
    ensures SamesPatched(s, base, ops[1..], path, pid, pending) == SamesPatched(s, base, ops, path, pid, pending)
  {
    var tail := ops[1..];
    assert BothOf(ops)[1..] == BothOf(tail);
    assert forall i :: 0 <= i < |tail| ==> tail[i] == ops[i + 1];
    OldsTail(ops, path, pid);
    Maps.EmptyUnion(RecsOf(SameOlds(tail), path, pid));
    Maps.EmptyUnion(MidSames(tail, path, pid, pending));
    Maps.EmptyUnion(PendingRowsOf(tail));
    assert {} + PendingIdsOf(tail) == PendingIdsOf(tail);
  }

  // ---------------------------------------------------------------- one directory

  lemma {:induction false} FreshApart(ops: seq<Op>, path: Path, pid: nat)
    requires FitsOf(ops) && UniqueIdsOf(BothOf(ops))
    ensures FreshRecs(ops, path, pid).Keys !! SameIds(ops)
    decreases |ops|
  {
    if ops != [] {
      var tail := ops[1..];
      assert BothOf(ops)[1..] == BothOf(tail);
      FreshApart(tail, path, pid);
      SameIdsWithin(tail);
      BothContains(tail, path, pid);
      match ops[0] {
        case Gone(_) =>
        case Fresh(d) => RecsKeys(d, path + [d.name], pid);
        case Same(e) => assert BothOf(ops)[0] == Both(e);
      }
    }
  }

  lemma {:induction false} AwaitsLocal(e: Delta, a: set<int>, b: set<int>)
    requires Fits(e) && Awaits(e, a) && forall x :: x in Ids(Both(e)) ==> (x in a <==> x in b)
    ensures Awaits(e, b)
    decreases e, 1
  {
    AwaitsLocalOf(e.ops, a, b);
  }

  lemma {:induction false} AwaitsLocalOf(ops: seq<Op>, a: set<int>, b: set<int>)
    requires FitsOf(ops) && AwaitsOf(ops, a) && forall x :: x in IdsOf(BothOf(ops)) ==> (x in a <==> x in b)
    ensures AwaitsOf(ops, b)
    decreases ops, 0
  {
    if ops != [] {
      assert BothOf(ops)[1..] == BothOf(ops[1..]);
      AwaitsLocalOf(ops[1..], a, b);
      if ops[0].Same? {
        assert ops[0].delta < ops[0] && BothOf(ops)[0] == Both(ops[0].delta);
        AwaitsLocal(ops[0].delta, a, b);
      }
    }
  }

  /** The state after the directory's own lines. */
  function Entered(s: Spider, base: map<int, Rec>, e: Delta, path: Path, pid: nat): Spider {
    Spider(Tables(EntryDirs(base, e, path, pid) + RecsOf(SameOlds(e.ops), path, e.dir.id),
                  WithNew(s.t, e.dir.id, AddedRows(Slots(e), 0))),
           Headed(s.buffer, e), s.total)
  }

  lemma {:induction false} EntriesReady(s: Spider, base: map<int, Rec>, e: Delta, path: Path, pid: nat,
                                        g: map<int, Path>, pending: set<int>)
    requires Ready(s, base, e, path, pid, g) && Awaits(e, pending)
    requires Follows(Entered(s, base, e, path, pid).t.dirs, g)
    ensures SamesReady(Entered(s, base, e, path, pid), EntryDirs(base, e, path, pid), e.ops, path, e.dir.id, g,
                       pending + {e.dir.id})
  {
    var id := e.dir.id;
    AwaitsLocalOf(e.ops, pending, pending + {id});
    OwnApart(e, path);
    SameReady(e);
    SameIdsWithin(e.ops);
    FreshApart(e.ops, path, id);
    assert EntryDirs(base, e, path, pid)[id].rows == EntryRows(e);
  }

  lemma {:induction false} EnteredClosed(base: map<int, Rec>, e: Delta, path: Path, pid: nat, pending: set<int>)
    requires Fits(e) && UniqueIds(Both(e))
    ensures var base3 := EntryDirs(base, e, path, pid);
            && e.dir.id in base3 && base3[e.dir.id].rows == EntryRows(e)
            && WithRows(base3, e.dir.id, EntryRows(e) + SameRows(e.ops)) + MidSames(e.ops, path, e.dir.id, pending)
               == Unclosed(base, e, path, pid, pending)
  {
    var id := e.dir.id;
    var news, mids := FreshRecs(e.ops, path, id), MidSames(e.ops, path, id, pending);
    var own := OwnRec(e, path, pid, KeptRows(Slots(e)));
    MidIds(e, path, pending);
    EntryRowsKept(e);
    Maps.PutBeside(base[id := OwnRec(e, path, pid, EntryRows(e))], news, id, own);
    Maps.PutTwice(base, id, OwnRec(e, path, pid, EntryRows(e)), own);
    Maps.PutBeside(base, news, id, own);
    Maps.PutOutside(base, news, mids, id, own);
  }

  /** Rows in newfiles: only a directory left to the end keeps them. */
  lemma {:induction false} WaitingRows(s: Spider, e: Delta)
    requires Fits(e) && UniqueIds(Both(e)) && e.dir.id !in s.t.newfiles
    ensures var id := e.dir.id;
            var newfiles := WithNew(s.t, id, AddedRows(Slots(e), 0)) + PendingRowsOf(e.ops);
            && (if Changed(e) && Closes(e) then newfiles - {id} else newfiles) == s.t.newfiles + PendingRows(e)
            && NewRows(Tables(map[], newfiles), id) == AddedRows(Slots(e), 0)
  {
    var id, added, below := e.dir.id, AddedRows(Slots(e), 0), PendingRowsOf(e.ops);
    PendingWithinOf(e.ops);
    SameIdsWithin(e.ops);
    Maps.EmptyUnion(added);
    Maps.EmptyUnion(below);
    if !Changed(e) {
      Unchanged(e);
    }
    Maps.PutBeside(s.t.newfiles, below, id, added);
    Maps.PutRemove(s.t.newfiles + below, id, added);
    Maps.PutBeside(map[], below, id, added);
    Maps.UnionAssociative(s.t.newfiles, map[id := added], below);
    hide PendingRowsOf, AddedRows, Slots, Fits, UniqueIds, Changed, Closes;
    assert s.t.newfiles[id := added] == s.t.newfiles + map[id := added];
    assert s.t.newfiles + below - {id} == s.t.newfiles + below;
  }

  /** Marks in the buffer: only a directory left to the end keeps its own. */
  lemma {:induction false} WaitingMarks(s: Spider, e: Delta)
    requires Fits(e) && UniqueIds(Both(e)) && e.dir.id !in s.buffer
    ensures var id := e.dir.id;
            var buffer := Headed(s.buffer, e) + Maps.Constant(PendingIdsOf(e.ops), true);
            && (if Closes(e) then buffer - {id} else buffer) == s.buffer + Maps.Constant(PendingIds(e), true)
            && (id in buffer <==> Changed(e)) && (Changed(e) ==> buffer[id])
  {
    var id, below := e.dir.id, Maps.Constant(PendingIdsOf(e.ops), true);
    PendingWithinOf(e.ops);
    SameIdsWithin(e.ops);
    Maps.PutBeside(s.buffer, below, id, true);
    Maps.PutThenConstant(s.buffer, PendingIdsOf(e.ops), id, true);
    Maps.PutRemove(s.buffer + below, id, true);
    assert s.buffer + below - {id} == s.buffer + below;
    assert {} + PendingIdsOf(e.ops) == PendingIdsOf(e.ops);
  }

  lemma {:induction false} CloseRun(s: Spider, base: map<int, Rec>, e: Delta, path: Path, pid: nat, g: map<int, Path>,
                                    pending: set<int>)
    requires Ready(s, base, e, path, pid, g) && Held(base, e, pid) && Awaits(e, pending)
    ensures e.dir.id in EntryDirs(base, e, path, pid)
    ensures Run(SamesPatched(Entered(s, base, e, path, pid), EntryDirs(base, e, path, pid), e.ops, path, e.dir.id,
                             pending + {e.dir.id}),
                FootLines(e, pid))
         == Some(Patched(s, base, e, path, pid, pending))
  {
    var id := e.dir.id;
    var waiting := pending + {id};
    EnteredClosed(base, e, path, pid, waiting);
    WaitingRows(s, e);
    WaitingMarks(s, e);
    var s4 := SamesPatched(Entered(s, base, e, path, pid), EntryDirs(base, e, path, pid), e.ops, path, id, waiting);
    hide Run, Step, Injective, Follows, MidRecs, MidSames, EntryRows, SameRows, AddedRows, Slots, Changed, Closes;
    FootRun(s4, base, e, path, pid, waiting);
    WaitingAgain(e, pending);
  }

  lemma WaitingAgain(e: Delta, pending: set<int>)
    requires Awaits(e, pending)
    ensures var id := e.dir.id;
            (if Pending(e) then pending + {id} else pending + {id} - {id}) == pending
  {
  }

  lemma {:induction false} DeltaRun(s: Spider, base: map<int, Rec>, e: Delta, path: Path, pid: nat, g: map<int, Path>,
                                    pending: set<int>)
    requires Ready(s, base, e, path, pid, g) && Held(base, e, pid) && Awaits(e, pending)
    ensures Run(s, PatchLines(e, pid, path)) == Some(Patched(s, base, e, path, pid, pending))
    ensures Follows(Patched(s, base, e, path, pid, pending).t.dirs, g)
    decreases e, 1
  {
    var id := e.dir.id;
    var base3, s3 := EntryDirs(base, e, path, pid), Entered(s, base, e, path, pid);
    HeadRun(s, e, path);
    OwnFilesRun(s, base, e, path, pid, g);
    hide Ready, SamesReady, Follows, Injective, Held, Step, Patched, SamesPatched, Awaits;
    EntriesReady(s, base, e, path, pid, g, pending);
    SamesRun(s3, base3, e.ops, path, id, g, pending + {id});
    CloseRun(s, base, e, path, pid, g, pending);
    PatchedFollows(s, base, e, path, pid, g, pending);
    RunParts(s, HeadLines(e, path), OpLines(e.ops, id, path), FileOpLines(e.fops, id), SameLines(e.ops, id, path),
             FootLines(e, pid), s.(buffer := Headed(s.buffer, e)), s3);
  }

  lemma {:induction false} RunParts(s: Spider, h: seq<Line>, o: seq<Line>, f: seq<Line>, m: seq<Line>, t: seq<Line>,
                                    s1: Spider, s2: Spider)
    requires Run(s, h) == Some(s1) && Run(s1, o + f) == Some(s2) && Run(s2, m).Some?
    ensures Run(s, h + o + f + m + t) == Run(Run(s2, m).value, t)
  {
    assert h + o + f == h + (o + f);
    RunConcat(s, h, o + f);
    RunConcat(s, h + o + f, m);
    RunConcat(s, h + o + f + m, t);
  }

  lemma {:induction false} PatchedFollows(s: Spider, base: map<int, Rec>, e: Delta, path: Path, pid: nat,
                                          g: map<int, Path>, pending: set<int>)
    requires Ready(s, base, e, path, pid, g)
    ensures Follows(Patched(s, base, e, path, pid, pending).t.dirs, g)
  {
    MidFollows(e, path, pid, e.was.fid, pending, g);
    RecsKeys(e.was, path, pid);
    BothHasNew(e);
    forall x | x in base
      ensures x in g && g[x] == base[x].path
    {
      assert s.t.dirs[x] == base[x];
    }
  }
}
