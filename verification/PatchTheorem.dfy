/** Patching refines reloading: the tables after a patch are those that loading the reprinted tree
    from scratch would give. */
module PatchTheorem {
  import opened Wrappers
  import opened Trees
  import opened Store
  import opened Image
  import opened Paths
  import opened Renumber
  import opened Deltas
  import opened PatchEntries
  import opened Middle
  import opened PatchRun
  import Maps

  /** The directories that exist in both trees. */
  function StayingIds(e: Delta): set<int> {
    {e.dir.id} + StayingIdsOf(e.ops)
  }

  function StayingIdsOf(ops: seq<Op>): set<int> {
    if ops == [] then {}
    else (if ops[0].Same? then (assert ops[0].delta < ops[0]; StayingIds(ops[0].delta)) else {})
         + StayingIdsOf(ops[1..])
  }

  /** The new entries of every pending directory wait in newfiles. */
  ghost predicate NewsWait(t: Tables, e: Delta, pending: set<int>) {
    (e.dir.id in pending ==> NewRows(t, e.dir.id) == AddedRows(Slots(e), 0)) && NewsWaitOf(t, e.ops, pending)
  }

  ghost predicate NewsWaitOf(t: Tables, ops: seq<Op>, pending: set<int>) {
    ops != [] ==>
      && (ops[0].Same? ==> (assert ops[0].delta < ops[0]; NewsWait(t, ops[0].delta, pending)))
      && NewsWaitOf(t, ops[1..], pending)
  }

  lemma {:induction false} StayingWithin(ops: seq<Op>)
    ensures StayingIdsOf(ops) <= SameIds(ops)
    decreases ops
  {
    if ops != [] {
      StayingWithin(ops[1..]);
      if ops[0].Same? {
        assert ops[0].delta < ops[0];
        StayingWithin(ops[0].delta.ops);
        SameIdsWithin(ops[0].delta.ops);
      }
    }
  }

  lemma {:induction false} StayingPositive(ops: seq<Op>)
    requires FitsOf(ops)
    ensures forall x :: x in StayingIdsOf(ops) ==> x > 0
    decreases ops
  {
    if ops != [] {
      StayingPositive(ops[1..]);
      if ops[0].Same? {
        assert ops[0].delta < ops[0];
        StayingPositive(ops[0].delta.ops);
      }
      forall x | x in StayingIdsOf(ops)
        ensures x > 0
      {
        if x !in StayingIdsOf(ops[1..]) {
          var e := ops[0].delta;
          assert x in StayingIds(e) && Fits(e);
          assert StayingIds(e) == {e.dir.id} + StayingIdsOf(e.ops);
          assert (x == e.dir.id || x in StayingIdsOf(e.ops));
        }
      }
    }
  }

  // ---------------------------------------------------------------- one directory left to the end

  /** Renumbering any pending directory of the tree: only that one stops being pending. */
  lemma {:induction false} PushInside(t: Tables, base: map<int, Rec>, e: Delta, path: Path, pid: nat, slot: nat,
                                      pending: set<int>, d: nat)
    requires Fits(e) && UniqueIds(Both(e)) && base.Keys !! Ids(Both(e))
    requires d in pending && d in StayingIds(e) && NewsWait(t, e, pending)
    requires t.dirs == base + MidRecs(e, path, pid, slot, pending)
    ensures Push(t, d) == Some(Tables(base + MidRecs(e, path, pid, slot, pending - {d}), t.newfiles - {d}))
    decreases e, 1
  {
    var id := e.dir.id;
    if d == id {
      PushMid(t, base, e, path, pid, slot, pending);
    } else {
      var news, mids := FreshRecs(e.ops, path, id), MidSames(e.ops, path, id, pending);
      var mids' := MidSames(e.ops, path, id, pending - {d});
      var rec := MidRec(e, path, pid, slot, pending);
      MidIds(e, path, pending);
      MidIds(e, path, pending - {d});
      SameIdsWithin(e.ops);
      FreshApart(e.ops, path, id);
      Maps.PutOutside(base, news, mids, id, rec);
      Maps.PutOutside(base, news, mids', id, rec);
      PushInsideOf(t, (base + news)[id := rec], e.ops, path, id, pending, d);
    }
  }

  lemma {:induction false} PushInsideOf(t: Tables, base: map<int, Rec>, ops: seq<Op>, path: Path, pid: nat,
                                        pending: set<int>, d: nat)
    requires FitsOf(ops) && UniqueIdsOf(BothOf(ops)) && base.Keys !! SameIds(ops)
    requires d in pending && d in StayingIdsOf(ops) && d != pid && NewsWaitOf(t, ops, pending)
    requires t.dirs == base + MidSames(ops, path, pid, pending)
    ensures Push(t, d) == Some(Tables(base + MidSames(ops, path, pid, pending - {d}), t.newfiles - {d}))
    decreases ops, 2
  {
    var tail := ops[1..];
    var rest, rest' := MidSames(tail, path, pid, pending), MidSames(tail, path, pid, pending - {d});
    assert BothOf(ops)[1..] == BothOf(tail);
    if ops[0].Same? {
      PushInsideSame(t, base, ops, path, pid, pending, d);
    } else {
      Maps.EmptyUnion(rest);
      Maps.EmptyUnion(rest');
      PushInsideOf(t, base, tail, path, pid, pending, d);
    }
  }

  lemma {:induction false} PushInsideSame(t: Tables, base: map<int, Rec>, ops: seq<Op>, path: Path, pid: nat,
                                          pending: set<int>, d: nat)
    requires FitsOf(ops) && UniqueIdsOf(BothOf(ops)) && base.Keys !! SameIds(ops)
    requires d in pending && d in StayingIdsOf(ops) && d != pid && NewsWaitOf(t, ops, pending)
    requires t.dirs == base + MidSames(ops, path, pid, pending)
    requires ops != [] && ops[0].Same?
    ensures Push(t, d) == Some(Tables(base + MidSames(ops, path, pid, pending - {d}), t.newfiles - {d}))
    decreases ops, 1
  {
    if d in StayingIds(ops[0].delta) {
      PushInsideFirst(t, base, ops, path, pid, pending, d);
    } else {
      PushInsideLater(t, base, ops, path, pid, pending, d);
    }
  }

  lemma {:induction false} PushInsideFirst(t: Tables, base: map<int, Rec>, ops: seq<Op>, path: Path, pid: nat,
                                           pending: set<int>, d: nat)
    requires FitsOf(ops) && UniqueIdsOf(BothOf(ops)) && base.Keys !! SameIds(ops)
    requires d in pending && d in StayingIdsOf(ops) && d != pid && NewsWaitOf(t, ops, pending)
    requires t.dirs == base + MidSames(ops, path, pid, pending)
    requires ops != [] && ops[0].Same? && d in StayingIds(ops[0].delta)
    ensures Push(t, d) == Some(Tables(base + MidSames(ops, path, pid, pending - {d}), t.newfiles - {d}))
    decreases ops, 0
  {
    var e, tail := ops[0].delta, ops[1..];
    assert e < ops[0];
    var p, slot := path + [e.dir.name], if pid in pending then e.was.fid else e.dir.fid;
    var rest := MidSames(tail, path, pid, pending);
    FirstAround(base, ops, path, pid, pending);
    FirstAround(base, ops, path, pid, pending - {d});
    StayingWithin(e.ops);
    SameIdsWithin(e.ops);
    assert BothOf(ops)[0] == Both(e) && BothOf(ops)[1..] == BothOf(tail);
    MidLocalOf(tail, path, pid, pending, pending - {d});
    hide MidSames, MidRecs, Fits, UniqueIds;
    PushInside(t, base + rest, e, p, pid, slot, pending, d);
  }

  /** The rows of the first directory that stays can be told apart from all others. */
  lemma {:induction false} FirstAround(base: map<int, Rec>, ops: seq<Op>, path: Path, pid: nat, pending: set<int>)
    requires FitsOf(ops) && UniqueIdsOf(BothOf(ops)) && base.Keys !! SameIds(ops) && ops != [] && ops[0].Same?
    ensures var e, rest := ops[0].delta, MidSames(ops[1..], path, pid, pending);
            var one := MidRecs(e, path + [e.dir.name], pid, if pid in pending then e.was.fid else e.dir.fid, pending);
            && Fits(e) && UniqueIds(Both(e)) && (base + rest).Keys !! Ids(Both(e))
            && base + MidSames(ops, path, pid, pending) == (base + rest) + one
  {
    var e, rest := ops[0].delta, MidSames(ops[1..], path, pid, pending);
    var one := MidRecs(e, path + [e.dir.name], pid, if pid in pending then e.was.fid else e.dir.fid, pending);
    SameParts(ops, path, pid, pending);
    SameIdsWithin(e.ops);
    hide MidSames, MidRecs;
    Maps.UnionCommutes(one, rest);
    Maps.UnionAssociative(base, rest, one);
  }

  lemma {:induction false} PushInsideLater(t: Tables, base: map<int, Rec>, ops: seq<Op>, path: Path, pid: nat,
                                           pending: set<int>, d: nat)
    requires FitsOf(ops) && UniqueIdsOf(BothOf(ops)) && base.Keys !! SameIds(ops)
    requires d in pending && d in StayingIdsOf(ops) && d != pid && NewsWaitOf(t, ops, pending)
    requires t.dirs == base + MidSames(ops, path, pid, pending)
    requires ops != [] && ops[0].Same? && d !in StayingIds(ops[0].delta)
    ensures Push(t, d) == Some(Tables(base + MidSames(ops, path, pid, pending - {d}), t.newfiles - {d}))
    decreases ops, 0
  {
    var e, tail := ops[0].delta, ops[1..];
    assert e < ops[0];
    var p, slot := path + [e.dir.name], if pid in pending then e.was.fid else e.dir.fid;
    var one, rest := MidRecs(e, p, pid, slot, pending), MidSames(tail, path, pid, pending);
    var rest' := MidSames(tail, path, pid, pending - {d});
    SameParts(ops, path, pid, pending);
    SameParts(ops, path, pid, pending - {d});
    StayingWithin(tail);
    SameIdsWithin(tail);
    MidLocal(e, p, pid, slot, pending, pending - {d});
    Maps.UnionAssociative(base, one, rest);
    PushInsideOf(t, base + one, tail, path, pid, pending, d);
    Maps.UnionAssociative(base, one, rest');
  }

  /** The first subdirectory that stays and the others do not overlap. */
  lemma {:induction false} SameParts(ops: seq<Op>, path: Path, pid: nat, pending: set<int>)
    requires FitsOf(ops) && UniqueIdsOf(BothOf(ops)) && ops != [] && ops[0].Same?
    ensures var e, tail := ops[0].delta, ops[1..];
            var one := MidRecs(e, path + [e.dir.name], pid, if pid in pending then e.was.fid else e.dir.fid, pending);
            var rest := MidSames(tail, path, pid, pending);
            && BothOf(ops)[0] == Both(e) && BothOf(ops)[1..] == BothOf(tail) && UniqueIds(Both(e))
            && one.Keys <= Ids(Both(e)) && rest.Keys <= SameIds(tail)
            && Ids(Both(e)) !! IdsOf(BothOf(tail)) && SameIds(tail) <= IdsOf(BothOf(tail))
            && MidSames(ops, path, pid, pending) == one + rest
  {
    var e, tail := ops[0].delta, ops[1..];
    assert BothOf(ops)[0] == Both(e) && BothOf(ops)[1..] == BothOf(tail);
    MidKeys(e, path + [e.dir.name], pid, if pid in pending then e.was.fid else e.dir.fid, pending);
    BothHasNew(e);
    MidSamesKeys(tail, path, pid, pending);
    SameIdsWithin(tail);
  }

  lemma {:induction false} MidSamesKeys(ops: seq<Op>, path: Path, pid: nat, pending: set<int>)
    requires FitsOf(ops)
    ensures MidSames(ops, path, pid, pending).Keys <= SameIds(ops)
    decreases |ops|
  {
    if ops != [] {
      MidSamesKeys(ops[1..], path, pid, pending);
      if ops[0].Same? {
        var e := ops[0].delta;
        MidKeys(e, path + [e.dir.name], pid, if pid in pending then e.was.fid else e.dir.fid, pending);
        BothHasNew(e);
      }
    }
  }

  // ---------------------------------------------------------------- all that is left to the end

  function Elements(order: seq<int>): set<int> {
    set x | x in order
  }

  lemma {:induction false} NewsStillWait(t: Tables, t': Tables, e: Delta, pending: set<int>, d: int)
    requires NewsWait(t, e, pending) && t'.newfiles == t.newfiles - {d}
    ensures NewsWait(t', e, pending - {d})
    decreases e, 1
  {
    NewsStillWaitOf(t, t', e.ops, pending, d);
  }

  lemma {:induction false} NewsStillWaitOf(t: Tables, t': Tables, ops: seq<Op>, pending: set<int>, d: int)
    requires NewsWaitOf(t, ops, pending) && t'.newfiles == t.newfiles - {d}
    ensures NewsWaitOf(t', ops, pending - {d})
    decreases ops, 0
  {
    if ops != [] {
      NewsStillWaitOf(t, t', ops[1..], pending, d);
      if ops[0].Same? {
        assert ops[0].delta < ops[0];
        NewsStillWait(t, t', ops[0].delta, pending, d);
      }
    }
  }

  /** The order in which the remaining directories are renumbered does not matter. */
  lemma {:induction false} FlushAll(t: Tables, e: Delta, order: seq<int>)
    requires Sound(e) && e.was.fid == e.dir.fid && NewsWait(t, e, Elements(order))
    requires forall i :: 0 <= i < |order| ==> order[i] in StayingIds(e) && order[i] >= 0
    requires forall i, j :: 0 <= i < j < |order| ==> order[i] != order[j]
    requires t.dirs == MidRecs(e, [], 0, e.dir.fid, Elements(order))
    ensures Flush(t, order) == Some(Tables(Recs(e.dir, [], 0), t.newfiles - Elements(order)))
    decreases |order|
  {
    if order == [] {
      MidSettled(e, [], 0, {});
      assert Elements(order) == {};
      assert t.newfiles - {} == t.newfiles;
    } else {
      var d, rest := order[0], order[1..];
      var pending := Elements(order);
      assert d in order;
      assert Elements(rest) == pending - {d} by {
        forall x | x in rest
          ensures x != d
        {
          var i :| 0 <= i < |rest| && rest[i] == x;
          assert order[i + 1] == x;
        }
        assert forall x :: x in order ==> x == d || x in rest;
      }
      var mid := MidRecs(e, [], 0, e.dir.fid, pending);
      Maps.EmptyUnion(mid);
      PushInside(t, map[], e, [], 0, e.dir.fid, pending, d);
      Maps.EmptyUnion(MidRecs(e, [], 0, e.dir.fid, pending - {d}));
      var t1 := Tables(MidRecs(e, [], 0, e.dir.fid, pending - {d}), t.newfiles - {d});
      NewsStillWait(t, t1, e, pending, d);
      FlushAll(t1, e, rest);
      assert {d} + Elements(rest) == pending;
      Maps.RemoveTwice(t.newfiles, {d}, Elements(rest));
    }
  }

  lemma {:induction false} AwaitsPending(e: Delta)
    requires Fits(e) && UniqueIds(Both(e))
    ensures Awaits(e, PendingIds(e)) && PendingIds(e) <= StayingIds(e)
    decreases e, 1
  {
    AwaitsPendingOf(e.ops);
    PendingWithinOf(e.ops);
    SameIdsWithin(e.ops);
    AwaitsLocalOf(e.ops, PendingIdsOf(e.ops), PendingIds(e));
  }

  lemma {:induction false} AwaitsPendingOf(ops: seq<Op>)
    requires FitsOf(ops) && UniqueIdsOf(BothOf(ops))
    ensures AwaitsOf(ops, PendingIdsOf(ops)) && PendingIdsOf(ops) <= StayingIdsOf(ops)
    decreases ops, 0
  {
    if ops != [] {
      var tail := ops[1..];
      assert BothOf(ops)[1..] == BothOf(tail);
      AwaitsPendingOf(tail);
      PendingWithinOf(tail);
      SameIdsWithin(tail);
      if ops[0].Same? {
        var e := ops[0].delta;
        assert e < ops[0] && BothOf(ops)[0] == Both(e);
        AwaitsPending(e);
        PendingWithin(e);
        AwaitsLocal(e, PendingIds(e), PendingIdsOf(ops));
      }
      AwaitsLocalOf(tail, PendingIdsOf(tail), PendingIdsOf(ops));
    }
  }

  /** Inside a tree, newfiles holds what the tree's pending directories have put there. */
  ghost predicate PendsWithin(e: Delta, t: Tables) {
    forall x :: x in Ids(Both(e)) ==> NewRows(t, x) == NewRows(Tables(map[], PendingRows(e)), x)
  }

  ghost predicate PendsWithinOf(ops: seq<Op>, t: Tables) {
    forall x :: x in SameIds(ops) ==> NewRows(t, x) == NewRows(Tables(map[], PendingRowsOf(ops)), x)
  }

  lemma {:induction false} PendsBelow(e: Delta, t: Tables)
    requires Fits(e) && UniqueIds(Both(e)) && PendsWithin(e, t)
    ensures PendsWithinOf(e.ops, t)
    ensures NewRows(t, e.dir.id) == if Pending(e) then AddedRows(Slots(e), 0) else map[]
  {
    PendingWithinOf(e.ops);
    SameIdsWithin(e.ops);
  }

  lemma {:induction false} PendsApart(ops: seq<Op>, t: Tables)
    requires ops != [] && FitsOf(ops) && UniqueIdsOf(BothOf(ops)) && PendsWithinOf(ops, t)
    ensures BothOf(ops)[1..] == BothOf(ops[1..]) && PendsWithinOf(ops[1..], t)
    ensures ops[0].Same? ==> BothOf(ops)[0] == Both(ops[0].delta) && PendsWithin(ops[0].delta, t)
  {
    assert BothOf(ops)[1..] == BothOf(ops[1..]);
    PendingWithinOf(ops[1..]);
    SameIdsWithin(ops[1..]);
    if ops[0].Same? {
      assert BothOf(ops)[0] == Both(ops[0].delta);
      PendingWithin(ops[0].delta);
    }
  }

  lemma {:induction false} PendingNewsWait(e: Delta, t: Tables, pending: set<int>)
    requires Fits(e) && UniqueIds(Both(e)) && PendsWithin(e, t) && Awaits(e, pending)
    ensures NewsWait(t, e, pending)
    decreases e, 1
  {
    PendsBelow(e, t);
    PendingNewsWaitOf(e.ops, t, pending);
  }

  lemma {:induction false} PendingNewsWaitOf(ops: seq<Op>, t: Tables, pending: set<int>)
    requires FitsOf(ops) && UniqueIdsOf(BothOf(ops)) && PendsWithinOf(ops, t) && AwaitsOf(ops, pending)
    ensures NewsWaitOf(t, ops, pending)
    decreases ops, 0
  {
    if ops != [] {
      PendsApart(ops, t);
      PendingNewsWaitOf(ops[1..], t, pending);
      if ops[0].Same? {
        assert ops[0].delta < ops[0];
        PendingNewsWait(ops[0].delta, t, pending);
      }
    }
  }

  // ---------------------------------------------------------------- the theorem

  /** Where the spider stands when it has read the last patch line. */
  function AfterPatch(e: Delta): Spider {
    Spider(Tables(MidRecs(e, [], 0, e.dir.fid, PendingIds(e)), PendingRows(e)),
           Maps.Constant(PendingIds(e), true), FootTotal(None, e, 0))
  }

  lemma {:induction false} PatchRuns(e: Delta)
    requires Sound(e) && e.was.fid == e.dir.fid
    ensures Run(Spider(TablesOf(e.was), map[], None), Patch(e)) == Some(AfterPatch(e))
  {
    var g := PathMap(Both(e), []);
    PathsDistinct(Both(e), []);
    PathMapPlaces(Both(e), [], g);
    var s := Spider(TablesOf(e.was), map[], None);
    OldFollows(e, [], 0, g);
    AwaitsPending(e);
    Maps.EmptyUnion(Recs(e.was, [], 0));
    Maps.EmptyUnion(MidRecs(e, [], 0, e.dir.fid, PendingIds(e)));
    Maps.EmptyUnion(PendingRows(e));
    Maps.EmptyUnion(Maps.Constant(PendingIds(e), true));
    DeltaRun(s, map[], e, [], 0, g, PendingIds(e));
  }

  lemma {:induction false} OldFollows(e: Delta, path: Path, pid: nat, g: map<int, Path>)
    requires Fits(e) && Placed(Both(e), path, g)
    ensures Follows(Recs(e.was, path, pid), g)
    decreases e, 1
  {
    OldFollowsOf(e.ops, path, e.dir.id, g);
  }

  lemma {:induction false} OldFollowsOf(ops: seq<Op>, path: Path, pid: nat, g: map<int, Path>)
    requires FitsOf(ops) && PlacedOf(BothOf(ops), path, g)
    ensures Follows(RecsOf(Olds(ops), path, pid), g)
    decreases ops, 0
  {
    if ops != [] {
      assert BothOf(ops)[1..] == BothOf(ops[1..]);
      OldFollowsOf(ops[1..], path, pid, g);
      OldsTail(ops, path, pid);
      match ops[0] {
        case Gone(d) => RecsFollow(d.dirs, path + [d.name], d.id, g);
        case Fresh(_) =>
        case Same(e) =>
          assert e < ops[0];
          OldFollows(e, path + [e.dir.name], pid, g);
      }
    }
  }

  /** Patching never fails, and in whatever order the directories left to the end are renumbered, the
      tables of the old tree become exactly those of the new one: the same ids, positions, sizes,
      item counts, back references and names. */
  lemma {:induction false} PatchGivesImage(e: Delta, order: seq<int>)
    requires Sound(e) && e.was.fid == e.dir.fid
    ensures Run(Spider(TablesOf(e.was), map[], None), Patch(e)).Some?
    ensures var s := Run(Spider(TablesOf(e.was), map[], None), Patch(e)).value;
            && (IterationOrder(s.buffer, order) ==> Flush(s.t, order) == Some(TablesOf(e.dir)))
            && (s.total == if Closes(e) then Some(e.dir.size) else None)
  {
    hide TablesOf, Flush, Patch, Run, IterationOrder;
    PatchRuns(e);
    if IterationOrder(AfterPatch(e).buffer, order) {
      OrderIsPending(e, order);
      PendingFlushed(e, order);
    }
  }

  /** The directories that the spider renumbers at the end are the pending ones. */
  lemma {:induction false} OrderIsPending(e: Delta, order: seq<int>)
    requires Sound(e) && IterationOrder(AfterPatch(e).buffer, order)
    ensures Elements(order) == PendingIds(e)
  {
    var buffer := AfterPatch(e).buffer;
    AwaitsPending(e);
    PendingWithin(e);
    assert forall x :: Modified(buffer, x) <==> x in PendingIds(e);
    forall x | x in order
      ensures x in PendingIds(e)
    {
      assert Modified(buffer, x);
    }
    forall x | x in PendingIds(e)
      ensures x in order
    {
      assert Modified(buffer, x);
    }
  }

  lemma {:induction false} PendingFlushed(e: Delta, order: seq<int>)
    requires Sound(e) && e.was.fid == e.dir.fid && Elements(order) == PendingIds(e)
    requires IterationOrder(AfterPatch(e).buffer, order)
    ensures Flush(AfterPatch(e).t, order) == Some(TablesOf(e.dir))
  {
    var s := AfterPatch(e);
    AwaitsPending(e);
    PendingWithin(e);
    StayingPositive(e.ops);
    PendingNewsWait(e, s.t, PendingIds(e));
    FlushAll(s.t, e, order);
    assert PendingRows(e) - PendingIds(e) == map[];
  }

  /** A patch is as good as a reload of the reprinted tree. */
  lemma {:induction false} PatchRefinesReload(e: Delta, order: seq<int>)
    requires Sound(e) && e.was.fid == e.dir.fid && Canonical(e.dir) && UniqueIds(e.dir)
    ensures var patched := Run(Spider(TablesOf(e.was), map[], None), Patch(e));
            var reloaded := Run(Spider(EMPTY, map[], None), AsAdded(Print(e.dir)));
            && patched.Some? && reloaded.Some?
            && (IterationOrder(patched.value.buffer, order) ==>
                  Flush(patched.value.t, order) == Some(reloaded.value.t))
  {
    PatchGivesImage(e, order);
    LoadGivesImage(e.dir);
  }
}
