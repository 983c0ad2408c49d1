/** What the clock and the recovery after a violated constraint make of the handshake. */
module Recovery {
  import opened Wrappers
  import opened Trees
  import opened Store
  import opened Image
  import opened Scan
  import opened Restore
  import opened Rescan
  import opened Handshake
  import Md5
  import StuckSaves

  // ---------------------------------------------------------------- one scan at a time when it is due

  /** The share is due, and a spider takes it. */
  predicate Takes(s: System, a: Action) {
    a.Claim? && s.due && PhaseOf(s, a.i).Idle?
  }

  lemma {:induction false} DueByTime(s: System, a: Action)
    requires !s.due && Next(s, a).Some? && !a.TimePasses?
    ensures !Next(s, a).value.due && !Takes(s, a)
  {
    hide Update, RunScanner, LinesFrom, HashOf;
  }

  lemma {:induction false} DueByTimeAll(s: System, run: seq<Action>)
    requires !s.due && RunAll(s, run).Some? && forall a :: a in run ==> !a.TimePasses?
    ensures !RunAll(s, run).value.due
    decreases |run|
  {
    hide Next;
    if run != [] {
      assert run[0] in run;
      DueByTime(s, run[0]);
      DueByTimeAll(Next(s, run[0]).value, run[1..]);
    }
  }

  lemma {:induction false} RunSplit(s: System, a: seq<Action>, b: seq<Action>)
    requires RunAll(s, a + b).Some?
    ensures RunAll(s, a).Some? && RunAll(s, a + b) == RunAll(RunAll(s, a).value, b)
    decreases |a|
  {
    hide Next;
    if a == [] {
      assert a + b == b;
    } else {
      assert (a + b)[1..] == a[1..] + b;
      RunSplit(Next(s, a[0]).value, a[1..], b);
    }
  }

  /** Between two scans that are begun, whoever begins them, the time set for the second has come. */
  lemma {:induction false} TimeBetweenScans(run: seq<Action>, m: nat, n: nat)
    requires m < n < |run| && RunAll(INIT, run).Some?
    ensures RunAll(INIT, run[..m]).Some? && RunAll(INIT, run[..n]).Some?
    ensures Takes(RunAll(INIT, run[..m]).value, run[m]) && Takes(RunAll(INIT, run[..n]).value, run[n])
            ==> exists k :: m < k < n && run[k].TimePasses?
  {
    hide Next;
    assert run == run[..m] + run[m..] && run == run[..n] + run[n..];
    RunSplit(INIT, run[..m], run[m..]);
    RunSplit(INIT, run[..n], run[n..]);
    var s := RunAll(INIT, run[..m]).value;
    if Takes(s, run[m]) && Takes(RunAll(INIT, run[..n]).value, run[n])
       && forall k :: m < k < n ==> !run[k].TimePasses? {
      assert run[..n] == run[..m] + ([run[m]] + run[m + 1..n]);
      RunSplit(INIT, run[..m], [run[m]] + run[m + 1..n]);
      RunSplit(s, [run[m]], run[m + 1..n]);
      Taken(s, run[m]);
      assert forall a :: a in run[m + 1..n] ==> !a.TimePasses?;
      DueByTimeAll(RunAll(s, [run[m]]).value, run[m + 1..n]);
      assert false;
    }
  }

  /** And between the commit of a scan and the next scan that is begun, its own time has come. */
  lemma {:induction false} TimeAfterCommit(run: seq<Action>, m: nat, n: nat)
    requires m < n < |run| && RunAll(INIT, run).Some? && run[m].Commit?
    ensures RunAll(INIT, run[..n]).Some?
    ensures Takes(RunAll(INIT, run[..n]).value, run[n]) ==> exists k :: m < k < n && run[k].TimePasses?
  {
    hide Next;
    assert run == run[..m + 1] + run[m + 1..] && run == run[..n] + run[n..];
    RunSplit(INIT, run[..m + 1], run[m + 1..]);
    RunSplit(INIT, run[..n], run[n..]);
    if forall k :: m < k < n ==> !run[k].TimePasses? {
      assert run[..n] == run[..m + 1] + run[m + 1..n];
      RunSplit(INIT, run[..m + 1], run[m + 1..n]);
      assert run[..m + 1] == run[..m] + [run[m]];
      RunSplit(INIT, run[..m], [run[m]]);
      Committed(RunAll(INIT, run[..m]).value, run[m]);
      assert forall a :: a in run[m + 1..n] ==> !a.TimePasses?;
      DueByTimeAll(RunAll(INIT, run[..m + 1]).value, run[m + 1..n]);
    }
  }

  lemma {:induction false} Committed(s: System, a: Action)
    requires a.Commit? && RunAll(s, [a]).Some?
    ensures !RunAll(s, [a]).value.due
  {
    hide LinesFrom, HashOf;
    assert [a][1..] == [];
  }

  lemma {:induction false} Taken(s: System, a: Action)
    requires Takes(s, a)
    ensures RunAll(s, [a]).Some? && !RunAll(s, [a]).value.due
  {
    assert [a][1..] == [];
  }

  // ---------------------------------------------------------------- the lock

  /** Who has the lock is between lock and commit. */
  ghost predicate NoLeak(s: System) {
    s.lock.Some? ==> Holding(PhaseOf(s, s.lock.value))
  }

  lemma {:induction false} LeaksNothing(s: System, a: Action)
    requires NoLeak(s) && Next(s, a).Some?
    ensures NoLeak(Next(s, a).value)
  {
    hide Update, RunScanner, LinesFrom, HashOf, BaseOf, FairOrder;
  }

  /** However a spider leaves its transaction, by a commit, a crash, a scan that fails or an update that
      does: it leaves no lock behind. */
  lemma {:induction false} LockIsHeld(s: System, run: seq<Action>)
    requires NoLeak(s) && RunAll(s, run).Some?
    ensures NoLeak(RunAll(s, run).value)
    decreases |run|
  {
    hide Next, NoLeak;
    if run != [] {
      LeaksNothing(s, run[0]);
      LockIsHeld(Next(s, run[0]).value, run[1..]);
    }
  }

  /** The save of the last scan is kept beside the new one. */
  lemma {:induction false} SaveRotates(s: System, i: nat)
    requires PhaseOf(s, i).Applied? && s.save.Some?
    ensures var o := PhaseOf(s, i).o;
            var r := RunAll(s, [MoveSave(i), Write(i, |LinesFrom(o)|)]);
            r.Some? && r.value.old' == s.save && r.value.save == Some(LinesFrom(o)) && PhaseOf(r.value, i).Written?
  {
    hide LinesFrom, RunAll;
    var o := PhaseOf(s, i).o;
    assert LinesFrom(o)[..|LinesFrom(o)|] == LinesFrom(o);
    var s1 := Next(s, MoveSave(i)).value;
    var w := Write(i, |LinesFrom(o)|);
    RunNext(s1, w, []);
    RunNext(s, MoveSave(i), [w]);
    assert [w] + [] == [w] && [MoveSave(i)] + [w] == [MoveSave(i), w];
    RunNothing(Next(s1, w).value);
  }

  // ---------------------------------------------------------------- after a violated constraint

  /** The save and the one before it are put aside. */
  lemma {:induction false} SavesPutAside(s: System, i: nat)
    requires PhaseOf(s, i) == Recovering1
    ensures var r := RunAll(s, [Recover(i), Recover(i)]);
            r == Some(s.(save := None, old' := None, phases := s.phases[i := Idle]))
  {
    hide ApplyStep, RunScanner, LinesFrom, HashOf;
    var s1 := Next(s, Recover(i)).value;
    var s2 := Next(s1, Recover(i)).value;
    assert [Recover(i), Recover(i)][1..] == [Recover(i)] && [Recover(i)][1..] == [];
    assert RunAll(s1, [Recover(i)]) == Some(s2);
    assert s2.phases == s.phases[i := Idle];
  }

  /** The steps of a spider that scans a share when it is due and is disturbed by nobody. */
  function WholeScan(i: nat, n: Node, tooLong: bool, order: seq<int>): seq<Action> {
    [TimePasses, Claim(i), Lock(i), Action.Scan(i, n), Apply(i, tooLong, order), MoveSave(i),
     Write(i, |LinesFrom(Output(None, [], FullScan(n)))|), Commit(i)]
  }

  lemma {:induction false} RunNext(s: System, a: Action, rest: seq<Action>)
    requires Next(s, a).Some?
    ensures RunAll(s, [a] + rest) == RunAll(Next(s, a).value, rest)
  {
    assert ([a] + rest)[1..] == rest;
  }

  lemma {:induction false} FourSteps(s: System, a: Action, b: Action, c: Action, d: Action, rest: seq<Action>)
    requires Next(s, a).Some?
    requires var s1 := Next(s, a).value; Next(s1, b).Some?
    requires var s1 := Next(s, a).value;
             var s2 := Next(s1, b).value;
             Next(s2, c).Some? && Next(Next(s2, c).value, d).Some?
    ensures var s1 := Next(s, a).value;
            var s2 := Next(s1, b).value;
            var s3 := Next(s2, c).value;
            RunAll(s, [a, b, c, d] + rest) == RunAll(Next(s3, d).value, rest)
  {
    hide Next, RunAll;
    var s1 := Next(s, a).value;
    var s2 := Next(s1, b).value;
    var s3 := Next(s2, c).value;
    RunNext(s3, d, rest);
    RunNext(s2, c, [d] + rest);
    RunNext(s1, b, [c] + ([d] + rest));
    RunNext(s, a, [b] + ([c] + ([d] + rest)));
    assert [a, b, c, d] + rest == [a] + ([b] + ([c] + ([d] + rest)));
  }

  /** The first half: the scanner is not given a save. */
  lemma {:induction false} UntilScan(s: System, i: nat, n: Node, rest: seq<Action>) returns (s': System)
    requires PhaseOf(s, i) == Idle && s.lock == None && s.save == None && Proper(n)
    ensures RunAll(s, [TimePasses, Claim(i), Lock(i), Action.Scan(i, n)] + rest) == RunAll(s', rest)
    ensures PhaseOf(s', i) == Ran(s.hash, false, None, Output(None, [], FullScan(n)))
    ensures s'.lock == Some(i) && s'.save == None && s'.old' == s.old'
  {
    hide ApplyStep, LinesFrom, HashOf, RunAll;
    var s1 := Next(s, TimePasses).value;
    var s2 := Next(s1, Claim(i)).value;
    var s3 := Next(s2, Lock(i)).value;
    s' := Next(s3, Action.Scan(i, n)).value;
    FourSteps(s, TimePasses, Claim(i), Lock(i), Action.Scan(i, n), rest);
  }

  /** The second half: the update succeeds, the save is written and all is committed. */
  lemma {:induction false} UntilCommit(s: System, i: nat, h: Option<Md5.Hash>, o: Output, tooLong: bool,
                                       order: seq<int>)
    requires PhaseOf(s, i) == Ran(h, false, None, o) && s.lock == Some(i) && s.save == None && Good(o.t)
    ensures var r := RunAll(s, [Apply(i, tooLong, order), MoveSave(i), Write(i, |LinesFrom(o)|), Commit(i)]);
            && r.Some? && r.value.last == Some(o) && r.value.tables == TablesOf(o.t) && r.value.size == Total(o.t)
            && r.value.hash == Some(HashOf(LinesFrom(o))) && r.value.save == Some(LinesFrom(o))
            && r.value.lock == None && PhaseOf(r.value, i) == Idle && r.value.old' == s.old'
  {
    hide Update, LinesFrom, HashOf, TablesOf, Good, RunAll;
    FullUpdate(s.tables, o, order);
    var s1 := Next(s, Apply(i, tooLong, order)).value;
    var s2 := Next(s1, MoveSave(i)).value;
    assert LinesFrom(o)[..|LinesFrom(o)|] == LinesFrom(o);
    var s3 := Next(s2, Write(i, |LinesFrom(o)|)).value;
    var s4 := Next(s3, Commit(i)).value;
    FourSteps(s, Apply(i, tooLong, order), MoveSave(i), Write(i, |LinesFrom(o)|), Commit(i), []);
    var steps := [Apply(i, tooLong, order), MoveSave(i), Write(i, |LinesFrom(o)|), Commit(i)];
    assert steps + [] == steps;
    RunNothing(s4);
  }

  lemma RunNothing(s: System)
    ensures RunAll(s, []) == Some(s)
  {
  }

  /** Without a save, and with nobody in the way, a scan is a first scan whatever is committed; its update
      violates no constraint, and its tree, tables and save become the current ones. */
  lemma {:induction false} ScanWithoutSave(s: System, i: nat, n: Node, tooLong: bool, order: seq<int>)
    requires PhaseOf(s, i) == Idle && s.lock == None && s.save == None && Proper(n)
    ensures var o := Output(None, [], FullScan(n));
            var r := RunAll(s, WholeScan(i, n, tooLong, order));
            && r.Some? && r.value.last == Some(o) && r.value.tables == TablesOf(o.t) && r.value.size == Total(o.t)
            && r.value.hash == Some(HashOf(LinesFrom(o))) && r.value.save == Some(LinesFrom(o))
            && r.value.lock == None && PhaseOf(r.value, i) == Idle && r.value.old' == s.old'
  {
    hide LinesFrom, HashOf, TablesOf, Good, RunAll, Next, FullScan;
    var o := Output(None, [], FullScan(n));
    var rest := [Apply(i, tooLong, order), MoveSave(i), Write(i, |LinesFrom(o)|), Commit(i)];
    var s' := UntilScan(s, i, n, rest);
    assert WholeScan(i, n, tooLong, order) == [TimePasses, Claim(i), Lock(i), Action.Scan(i, n)] + rest;
    FullScanGood(n);
    UntilCommit(s', i, s.hash, o, tooLong, order);
  }

  /** So one scan after a violated constraint sets things right: it runs without a save, and succeeds. */
  lemma {:induction false} RecoversFully(s: System, i: nat, n: Node, tooLong: bool, order: seq<int>)
    requires PhaseOf(s, i) == Recovering1 && s.lock == None && Proper(n)
    ensures var o := Output(None, [], FullScan(n));
            var r := RunAll(s, [Recover(i), Recover(i)] + WholeScan(i, n, tooLong, order));
            && r.Some? && r.value.last == Some(o) && r.value.tables == TablesOf(o.t) && r.value.size == Total(o.t)
            && r.value.save == Some(LinesFrom(o)) && r.value.old' == None
  {
    hide LinesFrom, HashOf, TablesOf, RunAll, Next, FullScan, WholeScan;
    SavesPutAside(s, i);
    var s' := RunAll(s, [Recover(i), Recover(i)]).value;
    StuckSaves.RunAllConcat(s, [Recover(i), Recover(i)], WholeScan(i, n, tooLong, order));
    ScanWithoutSave(s', i, n, tooLong, order);
  }
}
