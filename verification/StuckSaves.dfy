/** What a save without its last line does to a share: once it is there, every scan fails as long as one
    of its directories is absent, and the tables stay as they are. */
module StuckSaves {
  import opened Wrappers
  import opened Trees
  import opened Store
  import opened Image
  import opened Scan
  import opened Restore
  import opened Rescan
  import opened Handshake
  import NR = NamelessRoot

  function ShortSave(o: Output): Lines {
    var lines := LinesFrom(o);
    if lines == [] then [] else lines[..|lines| - 1]
  }

  /** The save is one of these, and nobody is past the start of a scan. */
  ghost predicate Stuck(s: System, o: Output, p: Path) {
    && GoodOutput(o) && NR.HasDir(o.t, p) && s.save == Some(ShortSave(o)) && s.hash.Some?
    && forall i :: i in s.phases ==> Waiting(s.phases[i])
  }

  predicate Waiting(p: Phase) {
    p.Idle? || p.Claimed? || (p.Locked? && p.oldhash.Some? && p.hadSave)
  }

  /** The directory is absent, and nobody takes the save away. */
  ghost predicate Leaves(a: Action, p: Path) {
    (a.Scan? ==> !NR.Shows(a.n, p)) && !a.DeleteSave? && !a.PutSave?
  }

  lemma {:induction false} StuckStep(s: System, o: Output, p: Path, a: Action)
    requires Stuck(s, o, p) && Leaves(a, p) && Next(s, a).Some?
    ensures var s' := Next(s, a).value;
            Stuck(s', o, p) && s'.tables == s.tables && s'.hash == s.hash && s'.size == s.size
  {
    hide GoodOutput, LinesFrom, RunScanner, HashOf, Update, FairOrder, BaseOf, NR.HasDir, NR.Shows;
    if a.Scan? && PhaseOf(s, a.i).Locked? && Proper(a.n) {
      ShortKills(o, p, a.n);
    }
  }

  lemma {:induction false} ShortKills(o: Output, p: Path, n: Node)
    requires GoodOutput(o) && NR.HasDir(o.t, p) && Proper(n) && !NR.Shows(n, p)
    ensures RunScanner(Some(ShortSave(o)), n) == None
  {
    hide GoodOutput, LinesFrom, RunScanner, NR.HasDir, NR.Shows;
    Lengths(o);
    CutKills(o, |LinesFrom(o)| - 1, n);
  }

  /** For instance: a share had one subdirectory, its save lacks the last line, and the subdirectory is
      gone. The save is read as a tree, and the scanner dies. */
  lemma {:induction false} GoneDirectoryKills()
    ensures var o := FirstOutput(Node([Sub("a", true, Node([], []))], []));
            && GoodOutput(o) && ReadTolds(Tells(ShortSave(o))).Some?
            && RunScanner(Some(ShortSave(o)), Node([], [])) == None
  {
    hide GoodOutput, ShortSave, RunScanner, NR.HasDir, FullScan, ReadTolds, Tells;
    var n := Node([Sub("a", true, Node([], []))], []);
    FirstGood(n);
    ShortRead(FirstOutput(n));
    ShortKills(FirstOutput(n), ["a"], Node([], []));
  }

  lemma {:induction false} ShortRead(o: Output)
    requires GoodOutput(o)
    ensures ReadTolds(Tells(ShortSave(o))).Some?
  {
    hide GoodOutput, LinesFrom, ReadTolds, Tells;
    Lengths(o);
    CutSave(o, |LinesFrom(o)| - 1);
  }

  /** From then on all scans fail, whoever makes them. */
  lemma {:induction false} StuckForGood(s: System, o: Output, p: Path, run: seq<Action>)
    requires Stuck(s, o, p) && RunAll(s, run).Some? && forall a :: a in run ==> Leaves(a, p)
    ensures var s' := RunAll(s, run).value;
            Stuck(s', o, p) && s'.tables == s.tables && s'.hash == s.hash && s'.size == s.size
    decreases |run|
  {
    hide Stuck, Next, Leaves;
    if run != [] {
      assert run[0] in run;
      StuckStep(s, o, p, run[0]);
      StuckForGood(Next(s, run[0]).value, o, p, run[1..]);
    }
  }

  // ---------------------------------------------------------------- and it can happen

  function FirstOutput(n: Node): Output {
    Output(None, [], FullScan(n))
  }

  /** A first scan whose save is not written to the end, after which the spider goes on to its commit. */
  function ShortRun(n: Node): seq<Action> {
    [Claim(0), Lock(0), Action.Scan(0, n)]
    + [Apply(0, false, []), MoveSave(0), Write(0, |ShortSave(FirstOutput(n))|), Commit(0)]
  }

  function FirstScanned(n: Node): System {
    INIT.(due := false, lock := Some(0), phases := map[0 := Ran(None, false, None, FirstOutput(n))])
  }

  lemma {:induction false} ScanSteps(n: Node)
    requires Proper(n)
    ensures RunAll(INIT, [Claim(0), Lock(0), Action.Scan(0, n)]) == Some(FirstScanned(n))
  {
    hide LinesFrom, HashOf, FullScan, RunAll;
    var run := [Claim(0), Lock(0), Action.Scan(0, n)];
    var s1 := INIT.(due := false, phases := INIT.phases[0 := Claimed]);
    var s2 := s1.(lock := Some(0), phases := s1.phases[0 := Locked(None, false)]);
    var s3 := FirstScanned(n);
    assert RunScanner(None, n) == Some(FirstOutput(n));
    assert s2.seen + {} == s2.seen && s2.phases[0 := s3.phases[0]] == s3.phases;
    assert Next(INIT, run[0]) == Some(s1) && Next(s1, run[1]) == Some(s2) && Next(s2, run[2]) == Some(s3);
    RunsOne(s2, s3, run[2..]);
    RunsOne(s1, s2, run[1..]);
    RunsOne(INIT, s1, run);
    assert run[2..][1..] == [] && run[1..][1..] == run[2..];
  }

  function FirstApplied(n: Node): System {
    var o := FirstOutput(n);
    FirstScanned(n).(phases := map[0 := Applied(o, false, None, TablesOf(o.t), Some(Total(o.t)))])
  }

  function FirstMoved(n: Node): System {
    var o := FirstOutput(n);
    FirstScanned(n).(phases := map[0 := Moved(o, false, None, TablesOf(o.t), Some(Total(o.t)))])
  }

  function FirstWritten(n: Node): System {
    var o := FirstOutput(n);
    FirstScanned(n).(save := Some(ShortSave(o)), seen := {ShortSave(o)},
    phases := map[0 := Written(o, false, None, TablesOf(o.t), Some(Total(o.t)))])
  }

  lemma {:induction false} ApplySteps(n: Node)
    requires GoodOutput(FirstOutput(n))
    ensures Next(FirstScanned(n), Apply(0, false, [])) == Some(FirstApplied(n))
  {
    hide GoodOutput, Good, Update, TablesOf, FullScan, Next;
    var o, s3, s4 := FirstOutput(n), FirstScanned(n), FirstApplied(n);
    OutputGood(o);
    FullUpdate(EMPTY, o, []);
    assert s3.phases[0 := s4.phases[0]] == s4.phases;
    assert ApplyStep(s3, 0, false, []) == Some(s4);
    ApplyIs(s3, 0, false, []);
  }

  lemma {:induction false} MoveSteps(n: Node)
    ensures Next(FirstApplied(n), MoveSave(0)) == Some(FirstMoved(n))
  {
    hide LinesFrom, HashOf, Update, TablesOf, FullScan, RunScanner, ApplyStep;
    assert FirstApplied(n).phases[0 := FirstMoved(n).phases[0]] == FirstMoved(n).phases;
  }

  lemma {:induction false} WriteSteps(n: Node)
    ensures Next(FirstMoved(n), Write(0, |ShortSave(FirstOutput(n))|)) == Some(FirstWritten(n))
  {
    Lengths(FirstOutput(n));
    hide LinesFrom, HashOf, Update, TablesOf, FullScan, RunScanner, ApplyStep;
    assert FirstMoved(n).phases[0 := FirstWritten(n).phases[0]] == FirstWritten(n).phases;
    assert {} + {ShortSave(FirstOutput(n))} == {ShortSave(FirstOutput(n))};
  }

  lemma {:induction false} CommitSteps(n: Node, p: Path)
    requires GoodOutput(FirstOutput(n)) && NR.HasDir(FullScan(n), p)
    ensures var r := Next(FirstWritten(n), Commit(0)); r.Some? && Stuck(r.value, FirstOutput(n), p)
  {
    hide GoodOutput, LinesFrom, HashOf, Update, TablesOf, FullScan, RunScanner, ApplyStep, NR.HasDir;
  }

  lemma {:induction false} SaveSteps(n: Node)
    requires n.subs != [] && GoodOutput(FirstOutput(n)) && NR.HasDir(FullScan(n), [n.subs[0].name])
    ensures var o := FirstOutput(n);
            var r := RunAll(FirstScanned(n), [Apply(0, false, []), MoveSave(0), Write(0, |ShortSave(o)|), Commit(0)]);
            r.Some? && Stuck(r.value, o, [n.subs[0].name])
  {
    hide GoodOutput, NR.HasDir, RunAll, Next, Stuck, FirstScanned, FirstApplied, FirstMoved, FirstWritten, ShortSave;
    ApplySteps(n);
    MoveSteps(n);
    WriteSteps(n);
    CommitSteps(n, [n.subs[0].name]);
    var run := [Apply(0, false, []), MoveSave(0), Write(0, |ShortSave(FirstOutput(n))|), Commit(0)];
    RunsOne(FirstWritten(n), Next(FirstWritten(n), run[3]).value, run[3..]);
    RunsOne(FirstMoved(n), FirstWritten(n), run[2..]);
    RunsOne(FirstApplied(n), FirstMoved(n), run[1..]);
    RunsOne(FirstScanned(n), FirstApplied(n), run);
    assert run[3..][1..] == [] && run[2..][1..] == run[3..] && run[1..][1..] == run[2..];
  }

  /** Any share with a subdirectory can get stuck in this way, from an empty database and without any
      foreign file, and stays so for as long as that subdirectory is gone. */
  lemma {:induction false} ShortRunSticks(n: Node)
    requires Proper(n) && n.subs != []
    ensures RunAll(INIT, ShortRun(n)).Some?
    ensures Stuck(RunAll(INIT, ShortRun(n)).value, FirstOutput(n), [n.subs[0].name])
  {
    hide GoodOutput, LinesFrom, NR.HasDir, Stuck, RunAll, FullScan;
    FirstGood(n);
    ScanSteps(n);
    SaveSteps(n);
    RunAllConcat(INIT, [Claim(0), Lock(0), Action.Scan(0, n)],
                 [Apply(0, false, []), MoveSave(0), Write(0, |ShortSave(FirstOutput(n))|), Commit(0)]);
  }

  lemma {:induction false} RunAllConcat(s: System, a: seq<Action>, b: seq<Action>)
    requires RunAll(s, a).Some?
    ensures RunAll(s, a + b) == RunAll(RunAll(s, a).value, b)
    decreases |a|
  {
    hide Next;
    if a == [] {
      assert a + b == b;
    } else {
      assert (a + b)[1..] == a[1..] + b;
      RunAllConcat(Next(s, a[0]).value, a[1..], b);
    }
  }

  lemma {:induction false} FirstGood(n: Node)
    requires Proper(n) && n.subs != []
    ensures GoodOutput(FirstOutput(n)) && NR.HasDir(FullScan(n), [n.subs[0].name])
  {
    FullScanGood(n);
    ScanSubsShape(n.subs, 2, 0, 2 + |n.subs|);
    var p := [n.subs[0].name];
    assert p[1..] == [] && FullScan(n).dirs[0].name == p[0];
  }

  lemma {:induction false} RunsOne(s: System, s': System, run: seq<Action>)
    requires run != [] && Next(s, run[0]) == Some(s')
    ensures RunAll(s, run) == RunAll(s', run[1..]) && RunAll(s', []) == Some(s')
  {
  }
}
