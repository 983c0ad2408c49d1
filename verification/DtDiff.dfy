/** dt_diff: the scanner's second mode, from the text of the last save to the text of the next. */
module DtDiff {
  import opened Wrappers
  import opened Trees
  import opened Printing
  import opened Text
  import opened Restore
  import opened Jamming
  import opened Scan
  import opened Deltas
  import opened Diff
  import opened Walks
  import W = FullWalk
  import T = TreeWalk
  import D = DiffWalk
  import R = DiffRun
  import DtRead
  import Md5

  /** The digest that a patch is headed by, which names the save it was taken against. */
  function HeaderOf(save: string): Md5.Hash {
    Md5.Digest(Md5.Bytes(Unlines(LinesOf(save))))
  }

  /** Whatever name a save gives to its root, the new tree has an unnamed one. */
  function Unnamed(root: Dir): (r: Dir)
    ensures root.name == "" ==> r == root
  {
    root.(name := "")
  }

  /** How a run of the scanner ends: it has printed everything, it has died, or it was stopped inside
      the table of the reader (see Cuckoo.Outcome). */
  datatype Ending = Complete | Died | Halted

  /** The scanner dies on its way through a share that shows `n`. */
  predicate Fatal(tree: Tree, n: Node) {
    Dies(Patch(DiffScan(tree.root, n, tree.maxid)), tree.RootName())
  }

  /** dt_diff. A save that cannot be read makes it print the whole share as dt_reverse does; otherwise
      it prints the header, the patch from the old tree to the new one, and the new tree. It dies if the
      save has a file that belongs to no directory, or if its root has no name and the path of an old
      directory is to be printed. */
  method DtDiff(save: string, wk: Walker, fuel: nat)
    returns (end: Ending, header: Option<Md5.Hash>, lines: seq<Line>)
    requires wk.Valid() && wk.Unread() && Proper(wk.here) && wk.above == [] && wk.cwd == []
    modifies wk
    ensures end == Halted <==> JamsText(save, fuel)
    ensures end != Halted ==>
              (end == Died <==> StopsText(save) || (ReadText(save).Some? && Fatal(ReadText(save).value, old(wk.here))))
    ensures end == Complete && ReadText(save).None? ==> header == None && lines == Print(FullScan(old(wk.here)))
    ensures end == Complete && ReadText(save).Some? ==>
              var t := ReadText(save).value;
              var e := DiffScan(t.root, old(wk.here), t.maxid);
              && header == Some(HeaderOf(save))
              && lines == LinesShown(Patch(e), t.RootName()) + Print(Unnamed(e.dir))
              && wk.log == old(wk.log) + D.DiffTrace(t.root, 0, old(wk.here), t.maxid + 1, [])
  {
    hide Walker.Valid, Patch, Print, DiffScan, FullScan, ReadText, StopsText, HeaderOf, D.DiffTrace, Dies,
      JamsText;
    header, lines := None, [];
    var a, tree, digest := DtRead.ReadFile(save, fuel);
    HeaderIs(save);
    ReadLives(save);
    if a == DtRead.Halted {
      end := Halted;
    } else if a == DtRead.Stopped {
      end := Died;
    } else if a == DtRead.Failed {
      var io := new W.Stdout(Some(""));
      W.Reverse(wk, io);
      end, lines := Complete, io.lines;
      assert [] + io.lines == io.lines;
    } else {
      var died;
      died, lines := DiffAgainst(tree, wk);
      end, header := if died then Died else Complete, Some(digest);
    }
  }

  lemma {:induction false} ReadLives(save: string)
    ensures ReadText(save).Some? ==> !StopsText(save)
  {
    var tolds := Tells(LinesOf(save));
    StopsConcat(START, tolds, []);
    assert tolds + [] == tolds;
  }

  /** The second half of dt_diff, once the old tree is there. */
  method DiffAgainst(tree: Tree, wk: Walker) returns (died: bool, lines: seq<Line>)
    requires wk.Valid() && wk.Unread() && Proper(wk.here) && wk.above == [] && wk.cwd == []
    modifies wk
    ensures died <==> Fatal(tree, old(wk.here))
    ensures died ==> lines == LinesShown(Patch(DiffScan(tree.root, old(wk.here), tree.maxid)), tree.RootName())
    ensures !died ==>
              var e := DiffScan(tree.root, old(wk.here), tree.maxid);
              && lines == LinesShown(Patch(e), tree.RootName()) + Print(Unnamed(e.dir))
              && wk.log == old(wk.log) + D.DiffTrace(tree.root, 0, old(wk.here), tree.maxid + 1, [])
  {
    hide Walker.Valid, PatchLines, Print, DiffDir, D.DiffTrace, Dies, LinesShown;
    var io := new W.Stdout(tree.RootName());
    var root := Listed(tree.root.name, tree.root.id, 0, [], []);
    var wc := new R.Context(wk, io, root, tree.root, tree.maxid + 1);
    ghost var e;
    died, e := wc.Walk();
    if !died {
      var root' := Unnamed(wc.d);
      PrintPlain(root');
      ShownConcat(io.lines, Print(root'), io.oldRoot);
      ShownPlain(Print(root'), io.oldRoot);
      T.ReverseP(io, root');
    }
    lines := LinesShown(io.lines, io.oldRoot);
  }

  lemma HeaderIs(save: string)
    ensures HeaderOf(save) == Md5.Digest(Md5.Bytes(Unlines(LinesOf(save))))
  {
  }
}
