/** The tables in the middle of a patch: what a pending renumbering is worth. */
module Middle {
  import opened Wrappers
  import opened Trees
  import opened Store
  import opened Image
  import opened Renumber
  import opened Deltas
  import opened PatchEntries
  import opened Listings
  import Maps

  // ---------------------------------------------------------------- ids

  lemma {:induction false} BothHasNew(e: Delta)
    requires Fits(e)
    ensures Ids(e.dir) <= Ids(Both(e)) && Ids(e.was) <= Ids(Both(e))
    decreases e, 1
  {
    BothHasNewOf(e.ops);
    BothContains(e.ops, [], 0);
  }

  lemma {:induction false} BothHasNewOf(ops: seq<Op>)
    requires FitsOf(ops)
    ensures IdsOf(News(ops)) <= IdsOf(BothOf(ops))
    decreases ops, 0
  {
    if ops != [] {
      BothHasNewOf(ops[1..]);
      match ops[0] {
        case Gone(d) => assert News(ops) == News(ops[1..]);
        case Fresh(d) => assert News(ops)[0] == d && News(ops)[1..] == News(ops[1..]);
        case Same(e) =>
          assert e < ops[0];
          BothHasNew(e);
          assert News(ops)[0] == e.dir && News(ops)[1..] == News(ops[1..]);
      }
    }
  }

  lemma {:induction false} MidKeys(e: Delta, path: Path, pid: nat, slot: nat, pending: set<int>)
    requires Fits(e)
    ensures MidRecs(e, path, pid, slot, pending).Keys == Ids(e.dir)
    decreases e, 1
  {
    MidKeysOf(e.ops, path, e.dir.id, pending);
  }

  lemma {:induction false} MidKeysOf(ops: seq<Op>, path: Path, pid: nat, pending: set<int>)
    requires FitsOf(ops)
    ensures FreshRecs(ops, path, pid).Keys + MidSames(ops, path, pid, pending).Keys == IdsOf(News(ops))
    decreases ops, 0
  {
    if ops != [] {
      MidKeysOf(ops[1..], path, pid, pending);
      MidKeysNext(ops, path, pid, pending);
      match ops[0] {
        case Gone(d) =>
        case Fresh(d) => RecsKeys(d, path + [d.name], pid);
        case Same(e) =>
          assert e < ops[0];
          MidKeys(e, path + [e.dir.name], pid, if pid in pending then e.was.fid else e.dir.fid, pending);
      }
    }
  }

  /** What the first operation adds to the keys and to the ids. */
  lemma {:induction false} MidKeysNext(ops: seq<Op>, path: Path, pid: nat, pending: set<int>)
    requires ops != []
    ensures var op := ops[0];
            var new' := if op.Fresh? then Recs(op.dir, path + [op.dir.name], pid).Keys else {};
            FreshRecs(ops, path, pid).Keys == new' + FreshRecs(ops[1..], path, pid).Keys
    ensures var op := ops[0];
            var same := if op.Same? then MidRecs(op.delta, path + [op.delta.dir.name], pid,
                                                 if pid in pending then op.delta.was.fid else op.delta.dir.fid,
                                                 pending).Keys else {};
            MidSames(ops, path, pid, pending).Keys == same + MidSames(ops[1..], path, pid, pending).Keys
    ensures var op := ops[0];
            IdsOf(News(ops))
            == (if op.Fresh? then Ids(op.dir) else if op.Same? then Ids(op.delta.dir) else {}) + IdsOf(News(ops[1..]))
  {
    hide Recs, MidRecs, Ids;
    var news, rest := News(ops), News(ops[1..]);
    if ops[0].Gone? {
      assert news == rest;
    } else {
      assert news[1..] == rest;
    }
  }

  /** Only what is pending inside a tree matters for it. */
  lemma {:induction false} MidLocal(e: Delta, path: Path, pid: nat, slot: nat, a: set<int>, b: set<int>)
    requires Fits(e) && forall x :: x in Ids(Both(e)) ==> (x in a <==> x in b)
    ensures MidRecs(e, path, pid, slot, a) == MidRecs(e, path, pid, slot, b)
    decreases e, 1
  {
    MidLocalOf(e.ops, path, e.dir.id, a, b);
  }

  lemma {:induction false} MidLocalOf(ops: seq<Op>, path: Path, pid: nat, a: set<int>, b: set<int>)
    requires FitsOf(ops) && (pid in a <==> pid in b)
    requires forall x :: x in IdsOf(BothOf(ops)) ==> (x in a <==> x in b)
    ensures MidSames(ops, path, pid, a) == MidSames(ops, path, pid, b)
    decreases ops, 0
  {
    if ops != [] {
      assert BothOf(ops)[1..] == BothOf(ops[1..]);
      MidLocalOf(ops[1..], path, pid, a, b);
      if ops[0].Same? {
        var e := ops[0].delta;
        assert e < ops[0] && BothOf(ops)[0] == Both(e);
        MidLocal(e, path + [e.dir.name], pid, if pid in a then e.was.fid else e.dir.fid, a, b);
      }
    }
  }

  lemma {:induction false} MidFollows(e: Delta, path: Path, pid: nat, slot: nat, pending: set<int>, g: map<int, Path>)
    requires Fits(e) && Placed(Both(e), path, g)
    ensures Follows(MidRecs(e, path, pid, slot, pending), g)
    decreases e, 1
  {
    MidFollowsOf(e.ops, path, e.dir.id, pending, g);
  }

  lemma {:induction false} MidFollowsOf(ops: seq<Op>, path: Path, pid: nat, pending: set<int>, g: map<int, Path>)
    requires FitsOf(ops) && PlacedOf(BothOf(ops), path, g)
    ensures Follows(FreshRecs(ops, path, pid) + MidSames(ops, path, pid, pending), g)
    ensures Follows(MidSames(ops, path, pid, pending), g)
    decreases ops, 0
  {
    if ops != [] {
      assert BothOf(ops)[1..] == BothOf(ops[1..]);
      MidFollowsOf(ops[1..], path, pid, pending, g);
      match ops[0] {
        case Gone(d) =>
        case Fresh(d) => RecsFollow(d.dirs, path + [d.name], d.id, g);
        case Same(e) =>
          assert e < ops[0];
          MidFollows(e, path + [e.dir.name], pid, if pid in pending then e.was.fid else e.dir.fid, pending, g);
      }
    }
  }

  // ---------------------------------------------------------------- nothing pending: the image of the new tree

  lemma {:induction false} MidSettled(e: Delta, path: Path, pid: nat, pending: set<int>)
    requires Fits(e) && UniqueIds(Both(e)) && pending !! Ids(Both(e))
    ensures MidRecs(e, path, pid, e.dir.fid, pending) == Recs(e.dir, path, pid)
    decreases e, 1
  {
    MidSettledOf(e.ops, path, e.dir.id, pending);
  }

  lemma {:induction false} MidSettledOf(ops: seq<Op>, path: Path, pid: nat, pending: set<int>)
    requires FitsOf(ops) && UniqueIdsOf(BothOf(ops)) && pending !! IdsOf(BothOf(ops)) && pid !in pending
    ensures FreshRecs(ops, path, pid) + MidSames(ops, path, pid, pending) == RecsOf(News(ops), path, pid)
    decreases ops, 0
  {
    if ops != [] {
      var tail := ops[1..];
      var a, b := FreshRecs(tail, path, pid), MidSames(tail, path, pid, pending);
      assert BothOf(ops)[1..] == BothOf(tail);
      MidSettledOf(tail, path, pid, pending);
      Maps.EmptyUnion(a);
      Maps.EmptyUnion(b);
      match ops[0] {
        case Gone(d) => assert News(ops) == News(tail);
        case Fresh(d) =>
          assert News(ops)[0] == d && News(ops)[1..] == News(tail);
          Maps.UnionAssociative(Recs(d, path + [d.name], pid), a, b);
        case Same(e) =>
          assert e < ops[0] && BothOf(ops)[0] == Both(e);
          assert News(ops)[0] == e.dir && News(ops)[1..] == News(tail);
          MidSettled(e, path + [e.dir.name], pid, pending);
          BothHasNew(e);
          BothContains(tail, path, pid);
          MidKeys(e, path + [e.dir.name], pid, e.dir.fid, pending);
          Maps.UnionRotate(a, MidRecs(e, path + [e.dir.name], pid, e.dir.fid, pending), b);
      }
    }
  }

  // ---------------------------------------------------------------- renumbering one directory

  /** Back references of the subdirectories that stay, moved to their new positions. */
  lemma {:induction false} MovedMids(base: map<int, Rec>, ops: seq<Op>, path: Path, pid: nat, n: nat, m: nat,
                                     a: set<int>, b: set<int>)
    requires FitsOf(ops) && UniqueIdsOf(BothOf(ops))
    requires DirsFrom(Olds(ops), m) && DirsFrom(News(ops), n) && pid in a && pid !in b
    requires forall x :: x in IdsOf(BothOf(ops)) ==> (x in a <==> x in b)
    ensures Moved(base + MidSames(ops, path, pid, a), DirSlots(ops), n) == base + MidSames(ops, path, pid, b)
    decreases |ops|
  {
    if ops != [] {
      var tail := ops[1..];
      var slots, slots' := DirSlots(ops), DirSlots(tail);
      assert BothOf(ops)[1..] == BothOf(tail);
      DirsTail(ops, m, n);
      match ops[0] {
        case Gone(d) =>
          assert slots == slots';
          Maps.EmptyUnion(MidSames(tail, path, pid, a));
          Maps.EmptyUnion(MidSames(tail, path, pid, b));
          MovedMids(base, tail, path, pid, n, m + 1, a, b);
        case Fresh(d) =>
          assert slots[0] == Slot(None, DirRow(d)) && slots[1..] == slots';
          Maps.EmptyUnion(MidSames(tail, path, pid, a));
          Maps.EmptyUnion(MidSames(tail, path, pid, b));
          MovedMids(base, tail, path, pid, n + 1, m, a, b);
        case Same(e) =>
          assert slots[0] == Slot(Some(m), DirRow(e.dir)) && slots[1..] == slots';
          MovedOne(base, ops, e, path, pid, n, m, a, b);
          var one := MidRecs(e, path + [e.dir.name], pid, n, b);
          MovedMids(base + one, tail, path, pid, n + 1, m + 1, a, b);
          Maps.UnionAssociative(base, one, MidSames(tail, path, pid, b));
      }
    }
  }

  lemma {:induction false} MovedOne(base: map<int, Rec>, ops: seq<Op>, e: Delta, path: Path, pid: nat, n: nat, m: nat,
                                    a: set<int>, b: set<int>)
    requires ops != [] && ops[0] == Same(e) && FitsOf(ops) && UniqueIdsOf(BothOf(ops))
    requires e.was.fid == m && e.dir.fid == n && pid in a && pid !in b
    requires forall x :: x in IdsOf(BothOf(ops)) ==> (x in a <==> x in b)
    ensures var dirs := base + MidSames(ops, path, pid, a);
            && e.dir.id > 0 && e.dir.id in dirs
            && dirs[e.dir.id := dirs[e.dir.id].(slot := Some(n))]
               == (base + MidRecs(e, path + [e.dir.name], pid, n, b)) + MidSames(ops[1..], path, pid, a)
  {
    var p, c := path + [e.dir.name], e.dir.id;
    var tail := MidSames(ops[1..], path, pid, a);
    var one := MidRecs(e, p, pid, m, a);
    assert BothOf(ops)[0] == Both(e) && BothOf(ops)[1..] == BothOf(ops[1..]);
    MidKeys(e, p, pid, m, a);
    MidKeysOf(ops[1..], path, pid, a);
    BothHasNew(e);
    BothHasNewOf(ops[1..]);
    MidLocal(e, p, pid, n, a, b);
    MidSlot(e, p, pid, m, n, a);
    Maps.PutMiddle(base, one, tail, c, MidRec(e, p, pid, n, a));
  }

  lemma {:induction false} MidSlot(e: Delta, path: Path, pid: nat, m: nat, n: nat, pending: set<int>)
    ensures MidRecs(e, path, pid, n, pending)
         == MidRecs(e, path, pid, m, pending)[e.dir.id := MidRec(e, path, pid, n, pending)]
  {
    Maps.PutTwice(FreshRecs(e.ops, path, e.dir.id) + MidSames(e.ops, path, e.dir.id, pending), e.dir.id,
                  MidRec(e, path, pid, m, pending), MidRec(e, path, pid, n, pending));
  }

  lemma {:induction false} MovedConcat(dirs: map<int, Rec>, a: seq<Slot>, b: seq<Slot>, n: nat)
    ensures Moved(dirs, a + b, n) == Moved(Moved(dirs, a, n), b, n + |a|)
    decreases |a|
  {
    if a == [] {
      assert a + b == b;
    } else {
      assert (a + b)[0] == a[0] && (a + b)[1..] == a[1..] + b;
      var c := a[0].row.dir;
      var dirs' := if a[0].was.Some? && c > 0 && c in dirs then dirs[c := dirs[c].(slot := Some(n))] else dirs;
      MovedConcat(dirs', a[1..], b, n + 1);
    }
  }

  lemma {:induction false} MovedFiles(dirs: map<int, Rec>, slots: seq<Slot>, n: nat)
    requires forall i :: 0 <= i < |slots| ==> slots[i].row.dir == 0
    ensures Moved(dirs, slots, n) == dirs
    decreases |slots|
  {
    if slots != [] {
      assert forall i :: 0 <= i < |slots[1..]| ==> slots[1..][i] == slots[i + 1];
      MovedFiles(dirs, slots[1..], n + 1);
    }
  }

  /** While a directory waits for its renumbering, its subdirectories refer to their old positions. */
  lemma {:induction false} MidsLinked(ops: seq<Op>, path: Path, pid: nat, pending: set<int>, i: nat)
    requires FitsOf(ops) && UniqueIdsOf(BothOf(ops)) && pid in pending
    requires i < |DirSlots(ops)| && DirSlots(ops)[i].was.Some?
    ensures var c := DirSlots(ops)[i].row.dir;
            && c in MidSames(ops, path, pid, pending)
            && MidSames(ops, path, pid, pending)[c].slot == DirSlots(ops)[i].was
    decreases |ops|
  {
    var slots, slots' := DirSlots(ops), DirSlots(ops[1..]);
    assert BothOf(ops)[1..] == BothOf(ops[1..]);
    match ops[0] {
      case Gone(_) =>
        assert slots == slots';
        MidsLinked(ops[1..], path, pid, pending, i);
      case Fresh(d) =>
        assert slots[1..] == slots' && i > 0;
        MidsLinked(ops[1..], path, pid, pending, i - 1);
      case Same(e) =>
        assert slots[0] == Slot(Some(e.was.fid), DirRow(e.dir)) && slots[1..] == slots';
        assert BothOf(ops)[0] == Both(e);
        MidKeys(e, path + [e.dir.name], pid, e.was.fid, pending);
        MidKeysOf(ops[1..], path, pid, pending);
        BothHasNew(e);
        BothHasNewOf(ops[1..]);
        if i > 0 {
          MidsLinked(ops[1..], path, pid, pending, i - 1);
          assert slots[i] == slots'[i - 1];
        }
    }
  }

  lemma {:induction false} MidLinked(dirs: map<int, Rec>, base: map<int, Rec>, e: Delta, path: Path, pending: set<int>)
    requires Fits(e) && UniqueIds(Both(e)) && e.dir.id in pending
    requires dirs == base + MidSames(e.ops, path, e.dir.id, pending)
    ensures Linked(dirs, Slots(e))
  {
    var slots := Slots(e);
    FileSlotDirs(e.fops);
    assert forall i :: |DirSlots(e.ops)| <= i < |slots| ==> slots[i].row.dir == 0;
    forall i | 0 <= i < |slots| && slots[i].was.Some? && slots[i].row.dir > 0 && slots[i].row.dir in dirs
      ensures dirs[slots[i].row.dir].slot == slots[i].was
    {
      if i < |DirSlots(e.ops)| {
        MidsLinked(e.ops, path, e.dir.id, pending, i);
      }
    }
  }

  /** Renumbering a directory that waits for it: only that directory stops waiting. */
  lemma {:induction false} PushMid(t: Tables, base: map<int, Rec>, e: Delta, path: Path, pid: nat, slot: nat,
                                   pending: set<int>)
    requires Fits(e) && UniqueIds(Both(e)) && base.Keys !! Ids(Both(e)) && e.dir.id in pending
    requires t.dirs == base + MidRecs(e, path, pid, slot, pending)
    requires NewRows(t, e.dir.id) == AddedRows(Slots(e), 0)
    ensures Push(t, e.dir.id)
         == Some(Tables(base + MidRecs(e, path, pid, slot, pending - {e.dir.id}), t.newfiles - {e.dir.id}))
  {
    var id, a, b := e.dir.id, pending, pending - {e.dir.id};
    var news, mids, mids' := FreshRecs(e.ops, path, id), MidSames(e.ops, path, id, a), MidSames(e.ops, path, id, b);
    var rec, rec' := MidRec(e, path, pid, slot, a), MidRec(e, path, pid, slot, b);
    MidIds(e, path, a);
    MidIds(e, path, b);
    SlotsWhole(e);
    SlotsDistinct(e);
    var base' := (base + news)[id := rec];
    Maps.PutOutside(base, news, mids, id, rec);
    MidLinked(t.dirs, base', e, path, a);
    PushListing(t, id, Slots(e));
    MovedSlots(base, e, path, rec, a, b);
    Maps.PutBeside(base', mids', id, rec');
    Maps.PutTwice(base + news, id, rec, rec');
    Maps.PutOutside(base, news, mids', id, rec');
  }

  lemma {:induction false} MidIds(e: Delta, path: Path, pending: set<int>)
    requires Fits(e) && UniqueIds(Both(e))
    ensures e.dir.id !in MidSames(e.ops, path, e.dir.id, pending)
    ensures e.dir.id !in FreshRecs(e.ops, path, e.dir.id)
    ensures MidSames(e.ops, path, e.dir.id, pending).Keys <= IdsOf(BothOf(e.ops))
    ensures FreshRecs(e.ops, path, e.dir.id).Keys <= IdsOf(BothOf(e.ops))
  {
    MidKeysOf(e.ops, path, e.dir.id, pending);
    BothHasNewOf(e.ops);
  }

  lemma {:induction false} MovedSlots(base: map<int, Rec>, e: Delta, path: Path, rec: Rec, a: set<int>, b: set<int>)
    requires Fits(e) && UniqueIds(Both(e)) && base.Keys !! Ids(Both(e)) && e.dir.id in a && b == a - {e.dir.id}
    ensures var base' := (base + FreshRecs(e.ops, path, e.dir.id))[e.dir.id := rec];
            Moved(base' + MidSames(e.ops, path, e.dir.id, a), Slots(e), 0) == base' + MidSames(e.ops, path, e.dir.id, b)
  {
    var id := e.dir.id;
    var base' := (base + FreshRecs(e.ops, path, id))[id := rec];
    var dirs := base' + MidSames(e.ops, path, id, a);
    MovedConcat(dirs, DirSlots(e.ops), FileSlots(e.fops), 0);
    FileSlotDirs(e.fops);
    MovedFiles(Moved(dirs, DirSlots(e.ops), 0), FileSlots(e.fops), |DirSlots(e.ops)|);
    MovedMids(base', e.ops, path, id, 0, 0, a, b);
  }
}
