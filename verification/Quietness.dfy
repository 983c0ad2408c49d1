/** Patches and prints never come back to a directory that they have added. */
module Quietness {
  import opened Trees
  import opened Store
  import opened Image
  import opened Deltas
  import opened PatchRun
  import opened Cache
  import opened Paths

  function Adds(lines: seq<Line>): set<int> {
    if lines == [] then {} else Adding(lines[0]) + Adds(lines[1..])
  }

  lemma {:induction false} AddsConcat(a: seq<Line>, b: seq<Line>)
    ensures Adds(a + b) == Adds(a) + Adds(b)
    decreases |a|
  {
    if a == [] {
      assert a + b == b;
    } else {
      AddsConcat(a[1..], b);
      assert (a + b)[1..] == a[1..] + b && (a + b)[0] == a[0];
    }
  }

  lemma {:induction false} QuietConcat(a: seq<Line>, b: seq<Line>, x: set<int>)
    requires Quiet(a, x) && Quiet(b, x + Adds(a))
    ensures Quiet(a + b, x)
    decreases |a|
  {
    hide Harmless, Adding;
    if a == [] {
      assert a + b == b && x + Adds(a) == x;
    } else {
      assert (a + b)[1..] == a[1..] + b && (a + b)[0] == a[0];
      assert (x + Adding(a[0])) + Adds(a[1..]) == x + Adds(a);
      QuietConcat(a[1..], b, x + Adding(a[0]));
    }
  }

  lemma {:induction false} QuietOne(line: Line, x: set<int>)
    requires Harmless(line, x)
    ensures Quiet([line], x) && Adds([line]) == Adding(line)
  {
    assert [line][1..] == [];
  }

  /** Lines that add no directory, about directories that were not added. */
  ghost predicate Old(lines: seq<Line>, x: set<int>) {
    forall line :: line in lines ==> Harmless(line, x) && Adding(line) == {}
  }

  lemma OldQuiet(lines: seq<Line>, x: set<int>)
    requires Old(lines, x)
    ensures Quiet(lines, x) && Adds(lines) == {}
    decreases |lines|
  {
    if lines != [] {
      assert lines[0] in lines;
      assert x + {} == x;
      OldQuiet(lines[1..], x);
    }
  }

  // ---------------------------------------------------------------- new subtrees

  lemma {:induction false} OpensQuiet(ds: seq<Dir>, path: Path, x: set<int>)
    requires UniqueIdsOf(ds) && IdsOf(ds) !! x
    ensures Quiet(OpenLines(Add, ds, path), x) && Adds(OpenLines(Add, ds, path)) == Tops(ds)
    decreases |ds|
  {
    if ds != [] {
      var rest := OpenLines(Add, ds[1..], path);
      assert OpenLines(Add, ds, path)[1..] == rest;
      assert ds[0].id in Ids(ds[0]);
      forall y | y in IdsOf(ds[1..])
        ensures y !in x + {ds[0].id}
      {
      }
      OpensQuiet(ds[1..], path, x + {ds[0].id});
      TopsStep(ds);
    } else {
      NoTops();
    }
  }

  lemma FilesQuiet(pid: nat, fs: seq<File>, x: set<int>)
    ensures Quiet(FileLines(Add, pid, fs), x) && Adds(FileLines(Add, pid, fs)) == {}
    decreases |fs|
  {
    if fs != [] {
      FilesQuiet(pid, fs[1..], x);
      assert FileLines(Add, pid, fs)[1..] == FileLines(Add, pid, fs[1..]) && x + {} == x;
    }
  }

  lemma ClosesQuiet(pid: nat, ds: seq<Dir>, x: set<int>)
    ensures Quiet(CloseLines(Add, pid, ds), x) && Adds(CloseLines(Add, pid, ds)) == {}
    decreases |ds|
  {
    if ds != [] {
      ClosesQuiet(pid, ds[1..], x);
      assert CloseLines(Add, pid, ds)[1..] == CloseLines(Add, pid, ds[1..]) && x + {} == x;
    }
  }

  lemma {:induction false} BodyQuiet(d: Dir, path: Path, x: set<int>)
    requires UniqueIds(d) && IdsOf(d.dirs) !! x
    ensures Quiet(Body(Add, d, path), x) && Adds(Body(Add, d, path)) == IdsOf(d.dirs)
    decreases d, 1
  {
    var a, b := OpenLines(Add, d.dirs, path), FileLines(Add, d.id, d.files);
    var c, e := Bodies(Add, d.dirs, path), CloseLines(Add, d.id, d.dirs);
    OpensQuiet(d.dirs, path, x);
    FilesQuiet(d.id, d.files, x + Adds(a));
    AddsConcat(a, b);
    QuietConcat(a, b, x);
    BelowApart(d.dirs);
    TopsAndBelow(d.dirs);
    forall y | y in BelowOf(d.dirs)
      ensures y !in x + Adds(a + b)
    {
    }
    BodiesQuiet(d.dirs, path, x + Adds(a + b));
    AddsConcat(a + b, c);
    QuietConcat(a + b, c, x);
    ClosesQuiet(d.id, d.dirs, x + Adds(a + b + c));
    AddsConcat(a + b + c, e);
    QuietConcat(a + b + c, e, x);
  }

  lemma {:induction false} BodiesQuiet(ds: seq<Dir>, path: Path, x: set<int>)
    requires UniqueIdsOf(ds) && BelowOf(ds) !! x
    ensures Quiet(Bodies(Add, ds, path), x) && Adds(Bodies(Add, ds, path)) == BelowOf(ds)
    decreases ds, 0
  {
    if ds != [] {
      var a, b := Body(Add, ds[0], path + [ds[0].name]), Bodies(Add, ds[1..], path);
      BodyQuiet(ds[0], path + [ds[0].name], x);
      BelowApart(ds[1..]);
      TopsAndBelow(ds[1..]);
      forall y | y in BelowOf(ds[1..])
        ensures y !in x + Adds(a)
      {
      }
      BodiesQuiet(ds[1..], path, x + Adds(a));
      AddsConcat(a, b);
      QuietConcat(a, b, x);
    }
  }

  lemma {:induction false} TreeQuiet(d: Dir, pid: nat, path: Path, x: set<int>)
    requires UniqueIds(d) && Ids(d) !! x
    ensures Quiet(TreeLines(Add, d, pid, path), x) && Adds(TreeLines(Add, d, pid, path)) == Ids(d)
  {
    var a, b, c := [PathLine(Add, d.id, path)], Body(Add, d, path), [DirLine(Add, pid, d)];
    QuietOne(a[0], x);
    forall y | y in IdsOf(d.dirs)
      ensures y !in x + {d.id}
    {
    }
    BodyQuiet(d, path, x + {d.id});
    AddsConcat(a, b);
    QuietConcat(a, b, x);
    QuietOne(c[0], x + Adds(a + b));
    AddsConcat(a + b, c);
    QuietConcat(a + b, c, x);
  }

  // ---------------------------------------------------------------- subtrees that are gone

  lemma {:induction false} GoneOpensOld(ds: seq<Dir>, path: Path, x: set<int>)
    requires IdsOf(ds) !! x
    ensures Old(OpenLines(Del, ds, path), x)
    decreases |ds|
  {
    if ds != [] {
      GoneOpensOld(ds[1..], path, x);
      assert ds[0].id in Ids(ds[0]);
    }
  }

  lemma {:induction false} GoneBodyOld(d: Dir, path: Path, x: set<int>)
    requires IdsOf(d.dirs) !! x
    ensures Old(GoneBody(d, path), x)
    decreases d, 1
  {
    GoneOpensOld(d.dirs, path, x);
    GoneBodiesOld(d.dirs, path, x);
  }

  lemma {:induction false} GoneBodiesOld(ds: seq<Dir>, path: Path, x: set<int>)
    requires IdsOf(ds) !! x
    ensures Old(GoneBodies(ds, path), x)
    decreases ds, 0
  {
    if ds != [] {
      forall y | y in IdsOf(ds[0].dirs)
        ensures y !in x
      {
        assert y in Ids(ds[0]);
      }
      GoneBodyOld(ds[0], path + [ds[0].name], x);
      GoneBodiesOld(ds[1..], path, x);
    }
  }

  lemma {:induction false} GoneOld(d: Dir, pid: nat, path: Path, x: set<int>)
    requires Ids(d) !! x && pid !in x
    ensures Old(GoneLines(d, pid, path), x)
  {
    assert d.id in Ids(d);
    forall y | y in IdsOf(d.dirs)
      ensures y !in x
    {
      assert y in Ids(d);
    }
    GoneBodyOld(d, path, x);
  }

  // ---------------------------------------------------------------- patches

  function FreshIds(ops: seq<Op>): set<int> {
    if ops == [] then {} else (if ops[0].Fresh? then Ids(ops[0].dir) else {}) + FreshIds(ops[1..])
  }

  lemma {:induction false} FreshApart(ops: seq<Op>)
    requires UniqueIdsOf(BothOf(ops))
    ensures FreshIds(ops) <= IdsOf(BothOf(ops)) && FreshIds(ops) !! SameIds(ops)
    decreases |ops|
  {
    if ops != [] {
      var all := BothOf(ops);
      assert all[1..] == BothOf(ops[1..]);
      FreshApart(ops[1..]);
      SameIdsWithin(ops[1..]);
      forall y | y in FreshIds(ops)
        ensures y in IdsOf(all) && y !in SameIds(ops)
      {
        if ops[0].Fresh? && y in Ids(ops[0].dir) {
          assert all[0] == ops[0].dir;
        } else if ops[0].Same? {
          assert ops[0].delta < ops[0];
          assert all[0] == Both(ops[0].delta);
        }
      }
    }
  }

  lemma {:induction false} OpsQuiet(ops: seq<Op>, pid: nat, path: Path, x: set<int>)
    requires UniqueIdsOf(BothOf(ops)) && IdsOf(BothOf(ops)) !! x && pid !in x && pid !in IdsOf(BothOf(ops))
    ensures Quiet(OpLines(ops, pid, path), x) && Adds(OpLines(ops, pid, path)) == FreshIds(ops)
    decreases |ops|
  {
    if ops != [] {
      var all := BothOf(ops);
      assert all[1..] == BothOf(ops[1..]);
      FreshApart(ops[1..]);
      var a, b := OpLine(ops[0], pid, path), OpLines(ops[1..], pid, path);
      match ops[0] {
        case Gone(d) =>
          assert all[0] == d;
          GoneOld(d, pid, path + [d.name], x);
          OldQuiet(a, x);
        case Fresh(d) =>
          assert all[0] == d;
          TreeQuiet(d, pid, path + [d.name], x);
        case Same(_) =>
          assert a == [];
      }
      forall y | y in IdsOf(BothOf(ops[1..]))
        ensures y !in x + Adds(a)
      {
      }
      OpsQuiet(ops[1..], pid, path, x + Adds(a));
      QuietConcat(a, b, x);
      AddsConcat(a, b);
    }
  }

  lemma FileOpsQuiet(fops: seq<FileOp>, pid: nat, x: set<int>)
    requires pid !in x
    ensures Quiet(FileOpLines(fops, pid), x) && Adds(FileOpLines(fops, pid)) == {}
    decreases |fops|
  {
    if fops != [] {
      FileOpsQuiet(fops[1..], pid, x);
      var a := FileOpLine(fops[0], pid);
      if a != [] {
        QuietOne(a[0], x);
        assert a == [a[0]];
      }
      assert Adds(a) == {} && x + {} == x;
      QuietConcat(a, FileOpLines(fops[1..], pid), x);
      AddsConcat(a, FileOpLines(fops[1..], pid));
    }
  }

  /** Patch lines come back to old directories only. */
  lemma {:induction false} DeltaQuiet(e: Delta, pid: nat, path: Path, x: set<int>)
    requires UniqueIds(Both(e)) && Ids(Both(e)) !! x && (pid == 0 || (pid !in x && pid !in Ids(Both(e))))
    ensures Quiet(PatchLines(e, pid, path), x) && Adds(PatchLines(e, pid, path)) <= Ids(Both(e))
    decreases e, 1
  {
    hide Quiet, Adds, OpLines, FileOpLines, SameLines;
    var a, b, c := HeadLines(e, path), OpLines(e.ops, e.dir.id, path), FileOpLines(e.fops, e.dir.id);
    var d, f := SameLines(e.ops, e.dir.id, path), FootLines(e, pid);
    assert e.dir.id in Ids(Both(e));
    assert Old(a, x);
    OldQuiet(a, x);
    OpsQuiet(e.ops, e.dir.id, path, x);
    assert x + {} == x;
    QuietConcat(a, b, x);
    AddsConcat(a, b);
    FreshApart(e.ops);
    FileOpsQuiet(e.fops, e.dir.id, x + Adds(a + b));
    QuietConcat(a + b, c, x);
    AddsConcat(a + b, c);
    SameIdsWithin(e.ops);
    forall y | y in SameIds(e.ops)
      ensures y !in x + Adds(a + b + c)
    {
    }
    SamesQuiet(e.ops, e.dir.id, path, x + Adds(a + b + c));
    QuietConcat(a + b + c, d, x);
    AddsConcat(a + b + c, d);
    assert Old(f, x + Adds(a + b + c + d));
    OldQuiet(f, x + Adds(a + b + c + d));
    QuietConcat(a + b + c + d, f, x);
    AddsConcat(a + b + c + d, f);
  }

  lemma {:induction false} SamesQuiet(ops: seq<Op>, pid: nat, path: Path, x: set<int>)
    requires UniqueIdsOf(BothOf(ops)) && SameIds(ops) !! x && pid !in x && pid !in IdsOf(BothOf(ops))
    ensures Quiet(SameLines(ops, pid, path), x) && Adds(SameLines(ops, pid, path)) <= SameIds(ops)
    decreases ops, 0
  {
    if ops != [] {
      var all := BothOf(ops);
      assert all[1..] == BothOf(ops[1..]);
      SameIdsWithin(ops[1..]);
      if ops[0].Same? {
        var e := ops[0].delta;
        assert e < ops[0] && all[0] == Both(e);
        DeltaQuiet(e, pid, path + [e.dir.name], x);
        var a, b := PatchLines(e, pid, path + [e.dir.name]), SameLines(ops[1..], pid, path);
        forall y | y in SameIds(ops[1..])
          ensures y !in x + Adds(a)
        {
        }
        SamesQuiet(ops[1..], pid, path, x + Adds(a));
        QuietConcat(a, b, x);
        AddsConcat(a, b);
      } else {
        SamesQuiet(ops[1..], pid, path, x);
        assert SameLines(ops, pid, path) == SameLines(ops[1..], pid, path);
      }
    }
  }

  lemma PatchQuiet(e: Delta)
    requires Sound(e)
    ensures Quiet(Patch(e), {})
  {
    DeltaQuiet(e, 0, [], {});
  }

  lemma PrintQuiet(t: Dir)
    requires UniqueIds(t)
    ensures Quiet(AsAdded(Print(t)), {})
  {
    AddedPrint(t);
    TreeQuiet(t, 0, [], {});
  }

  // ---------------------------------------------------------------- patch lines are marked

  lemma {:induction false} OpensPatch(act: Act, ds: seq<Dir>, path: Path)
    requires !act.Plain?
    ensures IsPatch(OpenLines(act, ds, path))
    decreases |ds|
  {
    if ds != [] {
      OpensPatch(act, ds[1..], path);
    }
  }

  lemma {:induction false} BodyPatch(act: Act, d: Dir, path: Path)
    requires !act.Plain?
    ensures IsPatch(Body(act, d, path)) && IsPatch(GoneBody(d, path))
    decreases d, 1
  {
    OpensPatch(act, d.dirs, path);
    OpensPatch(Del, d.dirs, path);
    EntriesPatch(act, d.id, d.files, d.dirs);
    BodiesPatch(act, d.dirs, path);
  }

  lemma {:induction false} EntriesPatch(act: Act, pid: nat, fs: seq<File>, ds: seq<Dir>)
    requires !act.Plain?
    ensures IsPatch(FileLines(act, pid, fs)) && IsPatch(CloseLines(act, pid, ds))
    decreases |fs| + |ds|
  {
    if fs != [] {
      EntriesPatch(act, pid, fs[1..], ds);
    }
    if ds != [] {
      EntriesPatch(act, pid, fs, ds[1..]);
    }
  }

  lemma {:induction false} BodiesPatch(act: Act, ds: seq<Dir>, path: Path)
    requires !act.Plain?
    ensures IsPatch(Bodies(act, ds, path)) && IsPatch(GoneBodies(ds, path))
    decreases ds, 0
  {
    if ds != [] {
      BodyPatch(act, ds[0], path + [ds[0].name]);
      BodiesPatch(act, ds[1..], path);
    }
  }

  lemma {:induction false} OpsPatch(ops: seq<Op>, pid: nat, path: Path)
    ensures IsPatch(OpLines(ops, pid, path))
    decreases |ops|
  {
    if ops != [] {
      OpsPatch(ops[1..], pid, path);
      if ops[0].Gone? {
        BodyPatch(Del, ops[0].was, path + [ops[0].was.name]);
      } else if ops[0].Fresh? {
        BodyPatch(Add, ops[0].dir, path + [ops[0].dir.name]);
      }
    }
  }

  lemma {:induction false} FileOpsPatch(fops: seq<FileOp>, pid: nat)
    ensures IsPatch(FileOpLines(fops, pid))
    decreases |fops|
  {
    if fops != [] {
      FileOpsPatch(fops[1..], pid);
    }
  }

  /** Every line of a patch starts with its mark, so that readers of the print skip it. */
  lemma {:induction false} DeltaPatch(e: Delta, pid: nat, path: Path)
    ensures IsPatch(PatchLines(e, pid, path))
    decreases e, 1
  {
    OpsPatch(e.ops, e.dir.id, path);
    FileOpsPatch(e.fops, e.dir.id);
    SamesPatch(e.ops, e.dir.id, path);
  }

  lemma {:induction false} SamesPatch(ops: seq<Op>, pid: nat, path: Path)
    ensures IsPatch(SameLines(ops, pid, path))
    decreases ops, 0
  {
    if ops != [] {
      SamesPatch(ops[1..], pid, path);
      if ops[0].Same? {
        var e := ops[0].delta;
        assert e < ops[0];
        DeltaPatch(e, pid, path + [e.dir.name]);
      }
    }
  }
}
