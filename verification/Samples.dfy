/** Worked examples: what is printed and stored for one small share, character by character. */
module Samples {
  import opened Wrappers
  import opened Names
  import opened Trees
  import opened Text
  import opened Scan
  import opened Deltas
  import opened Diff
  import opened Store
  import opened Image
  import opened Printing

  // A share with a file r and two subdirectories, a with a file x, and b with nothing in it.

  const SHARE := Node([Sub("a", true, Node([], [Plain.Plain("x", 7)])), Sub("b", true, Node([], []))],
                      [Plain.Plain("r", 5)])

  const A := Dir("a", 2, 0, 7, 1, [], [File("x", 0, 7)])
  const B := Dir("b", 3, 1, 0, 0, [], [])
  const ROOT := Dir("", 1, 0, 12, 3, [A, B], [File("r", 2, 5)])

  lemma {:induction false} OneFile(name: string, id: nat, fid: nat, f: Plain, next: nat)
    ensures ScanDir(name, id, fid, Node([], [f]), next)
         == Scanned(Dir(name, id, fid, f.size, 1, [], [File(f.name, 0, f.size)]), next)
  {
    assert [f][1..] == [];
    assert Numbering([f], 0) == [File(f.name, 0, f.size)];
    FilesTotalSums(File(f.name, 0, f.size), [], []);
  }

  lemma NoFile(name: string, id: nat, fid: nat, next: nat)
    ensures ScanDir(name, id, fid, Node([], []), next) == Scanned(Dir(name, id, fid, 0, 0, [], []), next)
  {
  }

  lemma {:induction false} TwoSubs(a: Sub, b: Sub, id: nat, fid: nat, next: nat)
    ensures var x := ScanSub(a, id, fid, next);
            var y := ScanSub(b, id + 1, fid + 1, x.next);
            ScanSubs([a, b], id, fid, next) == ScannedAll([x.dir, y.dir], y.next)
  {
    hide ScanSub;
    var x := ScanSub(a, id, fid, next);
    var y := ScanSub(b, id + 1, fid + 1, x.next);
    assert [a, b][1..] == [b] && [b][1..] == [];
    assert ScanSubs([], id + 2, fid + 2, y.next) == ScannedAll([], y.next);
    assert ScanSubs([b], id + 1, fid + 1, x.next) == ScannedAll([y.dir], y.next);
  }

  /** Ids go down the listing first, positions count the directories before the files. */
  lemma {:induction false} SampleScan()
    ensures FullScan(SHARE) == ROOT
  {
    var a, b := SHARE.subs[0], SHARE.subs[1];
    OneFile("a", 2, 0, Plain.Plain("x", 7), 4);
    NoFile("b", 3, 1, 4);
    TwoSubs(a, b, 2, 0, 4);
    assert SHARE.files[1..] == [];
    assert Numbering(SHARE.files, 2) == [File("r", 2, 5)];
    FilesTotalSums(File("r", 2, 5), [], []);
    SizesOfSums(A, [A], [B]);
    SizesOfSums(B, [], []);
    assert [A] + [B] == [A, B];
    assert ScanSubs(SHARE.subs, 2, 0, 4).dirs == [A, B];
  }

  // ---------------------------------------------------------------- its print

  lemma {:induction false} BodyOfFile(act: Act, d: Dir, path: Path)
    requires d.dirs == [] && |d.files| == 1
    ensures Body(act, d, path) == [FileLine(act, d.id, d.files[0])]
  {
    assert d.files[1..] == [];
    assert FileLines(act, d.id, d.files) == [FileLine(act, d.id, d.files[0])];
  }

  lemma BodyOfNothing(act: Act, d: Dir, path: Path)
    requires d.dirs == [] && d.files == []
    ensures Body(act, d, path) == []
  {
  }

  lemma {:induction false} TwoDirs(act: Act, a: Dir, b: Dir, pid: nat, path: Path)
    ensures OpenLines(act, [a, b], path)
         == [PathLine(act, a.id, path + [a.name]), PathLine(act, b.id, path + [b.name])]
    ensures CloseLines(act, pid, [a, b]) == [DirLine(act, pid, a), DirLine(act, pid, b)]
    ensures Bodies(act, [a, b], path) == Body(act, a, path + [a.name]) + Body(act, b, path + [b.name])
  {
    hide Body;
    assert [a, b][1..] == [b] && [b][1..] == [];
    assert OpenLines(act, [b], path) == [PathLine(act, b.id, path + [b.name])];
    assert CloseLines(act, pid, [b]) == [DirLine(act, pid, b)];
    assert Bodies(act, [b], path) == Body(act, b, path + [b.name]);
  }

  /** The body of a directory of two directories and a file. */
  lemma {:induction false} BodyOfThree(act: Act, d: Dir, a: Dir, b: Dir, path: Path)
    requires d.dirs == [a, b] && |d.files| == 1
    ensures Body(act, d, path)
         == [PathLine(act, a.id, path + [a.name]), PathLine(act, b.id, path + [b.name]),
             FileLine(act, d.id, d.files[0])]
            + (Body(act, a, path + [a.name]) + Body(act, b, path + [b.name]))
            + [DirLine(act, d.id, a), DirLine(act, d.id, b)]
  {
    hide Bodies, OpenLines, CloseLines;
    TwoDirs(act, a, b, d.id, path);
    assert d.files[1..] == [];
    assert FileLines(act, d.id, d.files) == [FileLine(act, d.id, d.files[0])];
  }

  /** Paths of all subdirectories, the files, what is below, and the entries of the subdirectories. */
  lemma {:induction false} SamplePrint()
    ensures Print(ROOT)
         == [PathLine(Act.Plain, 1, []), PathLine(Act.Plain, 2, ["a"]), PathLine(Act.Plain, 3, ["b"]),
             EntryLine(Act.Plain, 1, 2, 5, 0, 0, "r"), EntryLine(Act.Plain, 2, 0, 7, 0, 0, "x"),
             EntryLine(Act.Plain, 1, 0, 7, 2, 1, "a"), EntryLine(Act.Plain, 1, 1, 0, 3, 0, "b"),
             EntryLine(Act.Plain, 0, 0, 12, 1, 3, "")]
  {
    hide Body;
    BodyOfFile(Act.Plain, A, ["a"]);
    BodyOfNothing(Act.Plain, B, ["b"]);
    BodyOfThree(Act.Plain, ROOT, A, B, []);
    assert [] + ["a"] == ["a"] && [] + ["b"] == ["b"];
  }

  // ---------------------------------------------------------------- the text

  /** The line of an old root without a name, when its size has changed. */
  lemma NullText(size: nat, dir: nat, items: nat, name: string)
    ensures LineShown(EntryLine(Mod, 0, 0, size, dir, items, name), None)
         == Some(EntryLine(Mod, 0, 0, size, 0, 0, "(null)"))
  {
  }


  lemma {:induction false} Numerals()
    ensures Decimal(0) == "0" && Decimal(1) == "1" && Decimal(2) == "2" && Decimal(3) == "3" && Decimal(5) == "5"
    ensures Decimal(7) == "7" && Decimal(12) == "12" && Decimal(4096) == "4096"
  {
    assert Decimal(4) == "4" && Decimal(40) == "40" && Decimal(409) == "409";
  }

  lemma {:induction false} EntryText(pid: nat, fid: nat, size: nat, dir: nat, items: nat, name: string)
    ensures Format(EntryLine(Act.Plain, pid, fid, size, dir, items, name))
         == "1 " + Decimal(pid) + " " + Decimal(fid) + " " + Decimal(size) + " " + Decimal(dir) + " "
            + Decimal(items) + " " + name
  {
    hide Decimal;
  }

  lemma {:induction false} Marks(line: Line)
    ensures Format(line) == (match line.act
                             case Plain => ""
                             case Add => "+ "
                             case Del => "- "
                             case Mod => "* ") + Format(line.(act := Act.Plain))
  {
  }

  lemma {:induction false} PathText(id: nat, a: string, b: string)
    ensures Format(PathLine(Act.Plain, id, [])) == "0 " + Decimal(id) + " "
    ensures Format(PathLine(Act.Plain, id, [a])) == "0 " + Decimal(id) + " " + a
    ensures Format(PathLine(Act.Plain, id, [a, b])) == "0 " + Decimal(id) + " " + a + "/" + b
  {
    hide Decimal;
    assert [a, b][..1] == [a];
  }

  lemma {:induction false} PrintoutAt(lines: seq<Line>, i: nat)
    requires i < |lines|
    ensures |Printout(lines)| == |lines| && Printout(lines)[i] == Format(lines[i])
    decreases |lines|
  {
    hide Format;
    if |lines| > 1 {
      PrintoutAt(lines[1..], if i > 0 then i - 1 else 0);
    }
  }

  lemma {:induction false} SampleLines()
    ensures Format(PathLine(Act.Plain, 1, [])) == "0 1 " && Format(PathLine(Act.Plain, 2, ["a"])) == "0 2 a"
    ensures Format(PathLine(Act.Plain, 3, ["b"])) == "0 3 b"
    ensures Format(EntryLine(Act.Plain, 1, 2, 5, 0, 0, "r")) == "1 1 2 5 0 0 r"
    ensures Format(EntryLine(Act.Plain, 2, 0, 7, 0, 0, "x")) == "1 2 0 7 0 0 x"
    ensures Format(EntryLine(Act.Plain, 1, 0, 7, 2, 1, "a")) == "1 1 0 7 2 1 a"
    ensures Format(EntryLine(Act.Plain, 1, 1, 0, 3, 0, "b")) == "1 1 1 0 3 0 b"
    ensures Format(EntryLine(Act.Plain, 0, 0, 12, 1, 3, "")) == "1 0 0 12 1 3 "
  {
    hide Decimal, Format;
    Numerals();
    PathText(1, "", "");
    PathText(2, "a", "");
    PathText(3, "b", "");
    EntryText(1, 2, 5, 0, 0, "r");
    EntryText(2, 0, 7, 0, 0, "x");
    EntryText(1, 0, 7, 2, 1, "a");
    EntryText(1, 1, 0, 3, 0, "b");
    EntryText(0, 0, 12, 1, 3, "");
  }

  /** The save of the sample, but for its header. */
  lemma {:induction false} SampleText()
    ensures Printout(Print(ROOT))
         == ["0 1 ", "0 2 a", "0 3 b", "1 1 2 5 0 0 r", "1 2 0 7 0 0 x", "1 1 0 7 2 1 a", "1 1 1 0 3 0 b",
             "1 0 0 12 1 3 "]
  {
    hide Print, Printout, Format;
    SamplePrint();
    SampleLines();
    forall i | 0 <= i < 8
      ensures |Printout(Print(ROOT))| == 8 && Printout(Print(ROOT))[i] == Format(Print(ROOT)[i])
    {
      PrintoutAt(Print(ROOT), i);
    }
    PrintoutAt(Print(ROOT), 0);
  }

  /** Lines that no scan prints: what the reader makes of them. */
  lemma {:induction false} OddLines()
    ensures Tell("") == Malformed && Tell("0") == Malformed && Tell("0 ") == Malformed && Tell("0 a") == Malformed
    ensures Tell("0 0 a") == Malformed && Tell("0x7 a") == Opens(7) && Tell("2 7 a") == Malformed
    ensures Tell("+ 0 4 c") == Skipped && Tell("- 0 3 b") == Skipped && Tell("* d41d") == Skipped
  {
    assert "0 0 a"[2..] == "0 a" && "0 a"[1..] == " a" && NumberFrom(0, " a") == 0;
    assert "0x7 a"[2..] == "7 a" && "7 a"[1..] == " a" && NumberFrom(7, " a") == 7;
    assert NumberFrom(0, "0 a") == NumberFrom(0, " a") && NumberFrom(0, "7 a") == NumberFrom(7, " a");
  }

  lemma {:induction false} NoSpaceNoField(s: string)
    requires ' ' !in s
    ensures PastSpace(s) == None
    decreases |s|
  {
    if s != [] {
      NoSpaceNoField(s[1..]);
    }
  }

  /** An entry that ends before the space in front of its name. */
  function Nameless(pid: nat, fid: nat, size: nat, dir: nat, items: nat): string {
    var t4 := " " + Decimal(items);
    var t3 := " " + (Decimal(dir) + t4);
    var t2 := " " + (Decimal(size) + t3);
    "1 " + (Decimal(pid) + (" " + (Decimal(fid) + t2)))
  }

  lemma {:induction false} NoName(pid: nat, fid: nat, size: nat, dir: nat, items: nat)
    ensures Tell(Nameless(pid, fid, size, dir, items)) == Malformed
  {
    hide Decimal, NextField, PastSpace;
    var t4 := " " + Decimal(items);
    var t3 := " " + (Decimal(dir) + t4);
    var t2 := " " + (Decimal(size) + t3);
    var t1 := " " + (Decimal(fid) + t2);
    assert "1 " + (Decimal(pid) + t1) == "1" + " " + (Decimal(pid) + t1);
    NextFieldAt("1", pid, t1);
    FieldAfter(pid, fid, t2);
    FieldAfter(fid, size, t3);
    FieldAfter(size, dir, t4);
    LastField(dir, items);
    NoSpaces(items);
    NoSpaceNoField(Decimal(items));
  }

  lemma {:induction false} LastField(m: nat, n: nat)
    ensures NextField(Decimal(m) + (" " + Decimal(n))) == Field(n, Decimal(n))
  {
    NoSpaces(m);
    PastSpaceAt(Decimal(m), Decimal(n));
    assert Decimal(m) + " " + Decimal(n) == Decimal(m) + (" " + Decimal(n));
    NumberOfDecimal(n, "");
    assert Decimal(n) + "" == Decimal(n);
  }

  /** An entry needs the space in front of its name, but no name. */
  lemma {:induction false} ShortEntry(pid: nat, fid: nat, size: nat, dir: nat, items: nat)
    ensures var start := "1 " + Decimal(pid) + " " + Decimal(fid) + " " + Decimal(size) + " " + Decimal(dir) + " "
                         + Decimal(items);
            Tell(start) == Malformed && Tell(start + " ") == Entry(pid, fid, size, dir, items, "")
  {
    hide Tell, Format, Decimal;
    var start := "1 " + Decimal(pid) + " " + Decimal(fid) + " " + Decimal(size) + " " + Decimal(dir) + " "
    + Decimal(items);
    EntryText(pid, fid, size, dir, items, "");
    TellsFormat(EntryLine(Act.Plain, pid, fid, size, dir, items, ""));
    assert start + " " + "" == start + " ";
    NoName(pid, fid, size, dir, items);
    assert start == Nameless(pid, fid, size, dir, items);
  }

  // ---------------------------------------------------------------- the patch to a later scan

  // Later x has grown, b is gone, and there is a directory c with a file y.

  const LATER := Node([Sub("a", true, Node([], [Plain.Plain("x", 9)])),
                       Sub("c", true, Node([], [Plain.Plain("y", 1)]))],
                      [Plain.Plain("r", 5)])

  const A9 := Dir("a", 2, 0, 9, 1, [], [File("x", 0, 9)])
  const C := Dir("c", 4, 1, 1, 1, [], [File("y", 0, 1)])
  const GROWN := Delta(A, A9, [], [FileSame(File("x", 0, 7), File("x", 0, 9))])
  const CHANGE := Delta(ROOT, Dir("", 1, 0, 15, 3, [A9, C], [File("r", 2, 5)]), [Same(GROWN), Gone(B), Fresh(C)],
                        [FileSame(File("r", 2, 5), File("r", 2, 5))])

  lemma {:induction false} SameFile(f: File, g: Plain, fid: nat)
    requires f.name == g.name
    ensures MergeFiles([f], [g], fid) == [FileSame(f, File(g.name, fid, g.size))]
    ensures FileNews(MergeFiles([f], [g], fid)) == [File(g.name, fid, g.size)]
  {
    CompareZero(f.name, g.name);
    assert [f][1..] == [] && [g][1..] == [];
    assert MergeFiles([], [], fid + 1) == [];
  }

  lemma {:induction false} SampleKept(next: nat)
    ensures DiffDir(A, 0, Node([], [Plain.Plain("x", 9)]), next) == Built(GROWN, next)
  {
    var n := Node([], [Plain.Plain("x", 9)]);
    SameFile(File("x", 0, 7), n.files[0], 0);
    FilesTotalSums(File("x", 0, 9), [], []);
    assert Merge(A.dirs, n.subs, 0, next) == Merged([], next);
    assert Descend([], n.subs, 0, next) == BuiltAll([], next);
  }

  lemma {:induction false} SampleMerge()
    ensures Merge([A, B], LATER.subs, 0, 4) == Merged([KeptMark(A), GoneMark(B), FreshMark(C)], 5)
  {
    var a, c := LATER.subs[0], LATER.subs[1];
    CompareZero("a", "a");
    assert Less("b", "c") && !Less("a", "a");
    OneFile("c", 4, 1, Plain.Plain("y", 1), 5);
    assert [A, B][1..] == [B] && [B][1..] == [] && LATER.subs[1..] == [c] && [c][1..] == [];
    assert Merge([], [], 2, 5) == Merged([], 5);
    assert Merge([], [c], 1, 4) == Merged([FreshMark(C)], 5);
    assert Merge([B], [c], 1, 4) == Merged([GoneMark(B), FreshMark(C)], 5);
  }

  /** Names are merged in order; what is new gets the next ids, what stays is compared in turn. */
  lemma {:induction false} SampleDelta()
    ensures DiffScan(ROOT, LATER, 3) == CHANGE
  {
    hide Merge, DiffDir, MergeFiles;
    var marks := [KeptMark(A), GoneMark(B), FreshMark(C)];
    SampleMerge();
    SampleDescend();
    SameFile(File("r", 2, 5), LATER.files[0], 2);
    SampleJoined();
    DiffIs(ROOT, 0, LATER, 4);
  }

  lemma DiffIs(was: Dir, fid: nat, n: Node, next: nat)
    ensures var merged := Merge(was.dirs, n.subs, 0, next);
            var all := Descend(merged.marks, n.subs, 0, merged.next);
            DiffDir(was, fid, n, next)
            == Built(Joined(was, fid, all.ops, MergeFiles(was.files, n.files, |n.subs|)), all.next)
  {
  }

  lemma {:induction false} SampleDescend()
    ensures Descend([KeptMark(A), GoneMark(B), FreshMark(C)], LATER.subs, 0, 5).ops == [Same(GROWN), Gone(B), Fresh(C)]
  {
    hide DiffDir;
    var marks: seq<Mark> := [KeptMark(A), GoneMark(B), FreshMark(C)];
    var a, c := LATER.subs[0], LATER.subs[1];
    SampleKept(5);
    assert marks[1..] == [GoneMark(B), FreshMark(C)] && marks[1..][1..] == [FreshMark(C)];
    assert LATER.subs[1..] == [c] && [c][1..] == [];
    assert Descend([], [], 2, 5) == BuiltAll([], 5);
    assert Descend([FreshMark(C)], [c], 1, 5).ops == [Fresh(C)];
    assert Descend([GoneMark(B), FreshMark(C)], [c], 1, 5).ops == [Gone(B), Fresh(C)];
  }

  lemma {:induction false} SampleJoined()
    ensures Joined(ROOT, 0, [Same(GROWN), Gone(B), Fresh(C)], [FileSame(File("r", 2, 5), File("r", 2, 5))]) == CHANGE
  {
    FilesTotalSums(File("r", 2, 5), [], []);
    SizesOfSums(A9, [A9], [C]);
    SizesOfSums(C, [], []);
    assert [A9] + [C] == [A9, C];
    var ops: seq<Op> := [Same(GROWN), Gone(B), Fresh(C)];
    assert ops[1..] == [Gone(B), Fresh(C)] && ops[1..][1..] == [Fresh(C)];
    assert News([Fresh(C)]) == [C] && News([Gone(B), Fresh(C)]) == [C];
    assert News(ops) == [A9, C];
    var fops: seq<FileOp> := [FileSame(File("r", 2, 5), File("r", 2, 5))];
    assert fops[1..] == [] && FileNews(fops) == [File("r", 2, 5)];
  }

  /** What is gone and what is new, under the line of the directory that has changed; then what is below;
      then the new sizes. */
  lemma {:induction false} SamplePatch()
    ensures Patch(CHANGE)
         == [PathLine(Mod, 1, []), PathLine(Del, 3, ["b"]), EntryLine(Del, 1, 1, 0, 3, 0, "b"),
             PathLine(Add, 4, ["c"]), EntryLine(Add, 4, 0, 1, 0, 0, "y"), EntryLine(Add, 1, 1, 1, 4, 1, "c"),
             PathLine(Mod, 2, ["a"]), EntryLine(Mod, 2, 0, 9, 0, 0, "x"), EntryLine(Mod, 1, 0, 9, 2, 1, "a"),
             EntryLine(Mod, 0, 0, 15, 1, 3, "")]
  {
    hide OpLines, SameLines, FileOpLines, FootLines, HeadLines;
    SampleOps();
    SampleSames();
    SampleEnds();
    PatchIs(CHANGE, 0, []);
  }

  lemma PatchIs(e: Delta, pid: nat, path: Path)
    ensures PatchLines(e, pid, path)
         == HeadLines(e, path) + OpLines(e.ops, e.dir.id, path) + FileOpLines(e.fops, e.dir.id)
            + SameLines(e.ops, e.dir.id, path) + FootLines(e, pid)
  {
  }

  lemma {:induction false} SampleOps()
    ensures OpLines(CHANGE.ops, 1, [])
         == [PathLine(Del, 3, ["b"]), EntryLine(Del, 1, 1, 0, 3, 0, "b"), PathLine(Add, 4, ["c"]),
             EntryLine(Add, 4, 0, 1, 0, 0, "y"), EntryLine(Add, 1, 1, 1, 4, 1, "c")]
  {
    hide Body, GoneLines;
    var ops: seq<Op> := CHANGE.ops;
    assert ops[1..] == [Gone(B), Fresh(C)] && [Gone(B), Fresh(C)][1..] == [Fresh(C)] && [Fresh(C)][1..] == [];
    assert [] + ["b"] == ["b"] && [] + ["c"] == ["c"];
    BodyOfFile(Add, C, ["c"]);
    SampleGone();
    assert OpLines([Fresh(C)], 1, []) == TreeLines(Add, C, 1, ["c"]);
    assert OpLines([Gone(B), Fresh(C)], 1, []) == GoneLines(B, 1, ["b"]) + TreeLines(Add, C, 1, ["c"]);
  }

  lemma {:induction false} SampleSames()
    ensures SameLines(CHANGE.ops, 1, [])
         == [PathLine(Mod, 2, ["a"]), EntryLine(Mod, 2, 0, 9, 0, 0, "x"), EntryLine(Mod, 1, 0, 9, 2, 1, "a")]
  {
    hide PatchLines;
    var ops: seq<Op> := CHANGE.ops;
    assert ops[1..] == [Gone(B), Fresh(C)] && [Gone(B), Fresh(C)][1..] == [Fresh(C)] && [Fresh(C)][1..] == [];
    assert [] + ["a"] == ["a"];
    SampleGrown();
    assert SameLines([Fresh(C)], 1, []) == [] && SameLines([Gone(B), Fresh(C)], 1, []) == [];
  }

  lemma {:induction false} SampleEnds()
    ensures HeadLines(CHANGE, []) == [PathLine(Mod, 1, [])] && FileOpLines(CHANGE.fops, 1) == []
    ensures FootLines(CHANGE, 0) == [EntryLine(Mod, 0, 0, 15, 1, 3, "")]
  {
    assert !CHANGE.ops[1].Same? && CHANGE.fops[1..] == [];
  }

  lemma {:induction false} SampleGone()
    ensures GoneLines(B, 1, ["b"]) == [PathLine(Del, 3, ["b"]), EntryLine(Del, 1, 1, 0, 3, 0, "b")]
  {
  }

  lemma {:induction false} SampleGrown()
    ensures PatchLines(GROWN, 1, ["a"])
         == [PathLine(Mod, 2, ["a"]), EntryLine(Mod, 2, 0, 9, 0, 0, "x"), EntryLine(Mod, 1, 0, 9, 2, 1, "a")]
  {
    assert GROWN.fops[1..] == [] && Differs(GROWN.fops[0]);
    assert FileOpLines(GROWN.fops, 2) == [EntryLine(Mod, 2, 0, 9, 0, 0, "x")];
  }

  // ---------------------------------------------------------------- its tables

  /** Entries lie under the id of their directory and their position; files have no directory id. */
  lemma {:induction false} SampleTables()
    ensures TablesOf(ROOT)
         == Tables(map[1 := Rec([], Some(0), Some(0), 3, 12, map[0 := Row(2, 7, "a"), 1 := Row(3, 0, "b"),
                                                                 2 := Row(0, 5, "r")]),
                       2 := Rec(["a"], Some(1), Some(0), 1, 7, map[0 := Row(0, 7, "x")]),
                       3 := Rec(["b"], Some(1), Some(1), 0, 0, map[])], map[])
  {
    assert [] + ["a"] == ["a"] && [] + ["b"] == ["b"] && ROOT.dirs[1..] == [B] && [B][1..] == []
           && ROOT.files[1..] == [];
    assert A.files[1..] == [] && FileRows(A.files) == map[0 := Row(0, 7, "x")];
    assert RowsOf(A) == map[0 := Row(0, 7, "x")];
    assert RowsOf(B) == map[];
    assert DirRows([B]) == map[1 := Row(3, 0, "b")] && DirRows([A, B]) == map[0 := Row(2, 7, "a"), 1 := Row(3, 0, "b")];
    assert RowsOf(ROOT) == map[0 := Row(2, 7, "a"), 1 := Row(3, 0, "b"), 2 := Row(0, 5, "r")];
    assert Recs(A, ["a"], 1) == map[2 := Rec(["a"], Some(1), Some(0), 1, 7, map[0 := Row(0, 7, "x")])];
    assert Recs(B, ["b"], 1) == map[3 := Rec(["b"], Some(1), Some(1), 0, 0, map[])];
    assert RecsOf([B], [], 1) == Recs(B, ["b"], 1);
    assert RecsOf([A, B], [], 1) == Recs(A, ["a"], 1) + Recs(B, ["b"], 1);
  }
}
