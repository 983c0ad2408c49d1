/** What the programs' loops do is what the steps of the handshake say. */
module Steps {
  import opened Wrappers
  import opened Trees
  import opened Printing
  import opened Restore
  import opened Jamming
  import opened Store
  import opened Image
  import opened Deltas
  import opened Scan
  import opened Diff
  import opened Text
  import opened Walks
  import opened Handshake
  import Cache
  import FullWalk
  import ScanShare
  import DtDiff
  import DtRead
  import PatchTheorem
  import Md5

  /** The scanner, with a save to compare with or without one. */
  method RunTheScanner(save: Option<string>, wk: Walker, fuel: nat)
    returns (end: DtDiff.Ending, header: Option<Md5.Hash>, lines: seq<Line>)
    requires wk.Valid() && wk.Unread() && Proper(wk.here) && wk.above == [] && wk.cwd == []
    modifies wk
    ensures end == DtDiff.Halted <==> save.Some? && JamsText(save.value, fuel)
    ensures end != DtDiff.Halted ==>
              var o := RunScanner(if save.Some? then Some(LinesOf(save.value)) else None, old(wk.here));
              && (end == DtDiff.Died <==> o == None)
              && (o.Some? ==> header == o.value.header && lines == o.value.patch + Print(o.value.t))
  {
    hide Walker.Valid, Print, DiffScan, FullScan, DtDiff.Fatal, Stops, LinesShown;
    if save.None? {
      var io := new FullWalk.Stdout(Some(""));
      FullWalk.Reverse(wk, io);
      end, header, lines := DtDiff.Complete, None, io.lines;
      assert [] + io.lines == io.lines;
    } else {
      end, header, lines := DtDiff.DtDiff(save.value, wk, fuel);
    }
  }

  /** The reader of a save never gets stuck in its table if the share had at most one subdirectory. */
  lemma {:induction false} SmallShareReads(o: Output, fuel: nat)
    requires IsPatch(o.patch) && DirCount(o.t) <= 2 && forall s :: s in LinesFrom(o) ==> '\n' !in s
    ensures !JamsText(Unlines(LinesFrom(o)), fuel)
  {
    hide LinesFrom, Jams, Meanings;
    var lines := LinesFrom(o);
    DtRead.LinesInFront(lines, "");
    assert Unlines(lines) + "" == Unlines(lines) && lines + LinesOf("") == lines;
    TellsOutput(o);
    SmallSaveNeverJams(if o.header.Some? then [Skipped] else [], o.patch, o.t, fuel);
  }

  /** The choice of the mode, and all statements up to the save: whoever scans in `s`, the tables become
      those that the step gives. The patch is used only if the first line is the committed digest. */
  method UpdateTables(cursor: Cache.Cursor, oldhash: Option<Md5.Hash>, patchmode: bool, tooLong: bool, first: string,
                      lines: seq<Line>, ghost s: System, ghost i: nat)
    returns (ok: bool, patching: bool, total: Option<nat>, ghost order: seq<int>)
    requires Inv(s) && NoCollision(s.seen) && cursor.t == s.tables
    requires var p := PhaseOf(s, i);
             && p.Ran? && p.oldhash == oldhash && p.patchmode == patchmode && UniqueIds(p.o.t)
             && lines == p.o.patch + Print(p.o.t) && LinesFrom(p.o) != [] && first == LinesFrom(p.o)[0]
    modifies cursor
    ensures ok && Update(s.tables, PhaseOf(s, i).o, patching, order) == Some(Spider(cursor.t, map[], total))
    ensures var p := PhaseOf(s, i);
            var base := if patching then BaseOf(p.from) else None;
            ApplyStep(s, i, tooLong, order)
            == Some(s.(phases := s.phases[i := Applied(p.o, patching, base, cursor.t, total)]))
  {
    hide Inv, Print, Patch, TablesOf, BaseOf, LinesFrom, Hex, Update, ApplyStep;
    ghost var p := PhaseOf(s, i);
    order := [];
    patching := patchmode && !tooLong && oldhash.Some? && first == "* " + Hex(oldhash.value);
    RanStands(s, i);
    if oldhash.Some? {
      FirstLineIsHeader(p.o, oldhash.value);
    }
    if patching {
      ghost var e := DeltaOf(s, p);
      ok, total, order := ScanShare.PatchTables(cursor, lines, e);
      Patched(s.tables, p.o, e, order);
    } else {
      TablesPlain(s);
      ok, total := ScanShare.LoadTables(cursor, lines, p.o.patch, p.o.t);
      FullUpdate(s.tables, p.o, order);
    }
    Applies(s, i, tooLong, order, patching, cursor.t, total);
  }

  lemma {:induction false} RanStands(s: System, i: nat)
    requires Inv(s) && PhaseOf(s, i).Ran? && UniqueIds(PhaseOf(s, i).o.t)
    ensures var p := PhaseOf(s, i);
            Stands(s, p) && GoodOutput(p.o) && (p.o.header == None ==> p.o.patch == [])
  {
    assert Stands(s, PhaseOf(s, i)) by {
      hide Stands;
    }
    RanGood(s, PhaseOf(s, i));
  }

  lemma {:induction false} Applies(s: System, i: nat, tooLong: bool, order: seq<int>, patching: bool, t: Tables,
                                   total: Option<nat>)
    requires PhaseOf(s, i).Ran?
    requires var p := PhaseOf(s, i);
             && patching == (p.patchmode && !tooLong && p.oldhash.Some? && p.o.header == p.oldhash)
             && (patching ==> FairOrder(s.tables, p.o, order))
             && Update(s.tables, p.o, patching, order) == Some(Spider(t, map[], total))
    ensures var p := PhaseOf(s, i);
            var base := if patching then BaseOf(p.from) else None;
            ApplyStep(s, i, tooLong, order) == Some(s.(phases := s.phases[i := Applied(p.o, patching, base, t, total)]))
  {
    hide Update, FairOrder, BaseOf;
  }

  lemma TablesPlain(s: System)
    requires Inv(s)
    ensures s.tables.newfiles == map[]
  {
  }

  /** The delta between the committed tree and the scanned one. */
  lemma {:induction false} DeltaOf(s: System, p: Phase) returns (e: Delta)
    requires Inv(s) && NoCollision(s.seen) && Stands(s, p) && p.Ran? && p.patchmode && p.oldhash.Some?
             && p.o.header == p.oldhash
    ensures Sound(e) && e.was.fid == e.dir.fid && s.tables == TablesOf(e.was) && p.o.patch == Patch(e) && p.o.t == e.dir
  {
    hide TablesOf, Patch, HashOf, DiffScan, LinesFrom;
    var n, maxid := MadeAgainst(s, p);
    var t := s.last.value.t;
    DiffSound(t, n, maxid);
    e := DiffScan(t, n, maxid);
  }

  lemma {:induction false} Patched(t: Tables, o: Output, e: Delta, order: seq<int>)
    requires Sound(e) && e.was.fid == e.dir.fid && t == TablesOf(e.was) && o.patch == Patch(e)
    requires var r := Run(Spider(t, map[], None), o.patch); r.Some? && IterationOrder(r.value.buffer, order)
    ensures FairOrder(t, o, order)
    ensures Update(t, o, true, order)
         == Some(Spider(TablesOf(e.dir), map[], if Closes(e) then Some(e.dir.size) else None))
  {
    hide TablesOf, Patch, Run, Flush;
    PatchTheorem.PatchGivesImage(e, order);
  }
}
