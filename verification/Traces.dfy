/** What a walk asks of a walker: it moves by single steps, never above its start, and reads every
    directory it can enter exactly once. */
module Traces {
  import opened Names
  import opened Wrappers
  import opened Trees
  import opened Scan
  import opened Diff
  import opened Cycles
  import opened Walks
  import opened Readdir
  import opened FullWalk
  import opened DiffLists
  import W = DiffWalk
  import Md5

  // ---------------------------------------------------------------- nesting

  /** Where a walker is in a share, and which directories it has read so far. */
  datatype Spot = Spot(here: Node, above: seq<Node>, cwd: Path, read: set<Path>)

  /** One step of a walker, if it is allowed: reading the current directory, entering or trying a
      subdirectory by a name that was read in the current directory, leaving below the start. */
  function StepOf(e: Event, s: Spot): Option<Spot> {
    var p := e.path;
    if e.Reads? then if p == s.cwd then Some(s.(read := s.read + {p})) else None
    else if p == [] then None
    else
      var m := |p| - 1;
      if e.Leaves? then
        var n := |s.above| - 1;
        if p == s.cwd && n >= 0 then Some(Spot(s.above[n], s.above[..n], p[..m], s.read)) else None
      else
        var sub := Find(s.here.subs, p[m]);
        if p[..m] != s.cwd || s.cwd !in s.read || sub.None? || sub.value.entered != e.Enters? then None
        else if e.Enters? then Some(Spot(sub.value.node, s.above + [s.here], p, s.read))
        else Some(s)
  }

  function Replay(events: seq<Event>, s: Spot): Option<Spot>
    decreases |events|
  {
    if events == [] then Some(s)
    else
      var next := StepOf(events[0], s);
      if next.None? then None else Replay(events[1..], next.value)
  }

  lemma {:induction false} ReplayConcat(a: seq<Event>, b: seq<Event>, s: Spot)
    requires Replay(a, s).Some?
    ensures Replay(a + b, s) == Replay(b, Replay(a, s).value)
    decreases |a|
  {
    hide StepOf;
    if a == [] {
      assert a + b == b;
    } else {
      assert (a + b)[1..] == a[1..] + b && (a + b)[0] == a[0];
      ReplayConcat(a[1..], b, StepOf(a[0], s).value);
    }
  }

  lemma {:induction false} ReplayOne(e: Event, s: Spot)
    ensures Replay([e], s) == StepOf(e, s)
  {
    hide StepOf;
    assert [e][1..] == [];
  }

  /** The steps are all allowed, and lead back to where they began. */
  ghost predicate Returns(events: seq<Event>, s: Spot) {
    var r := Replay(events, s);
    r.Some? && r.value == s.(read := r.value.read) && s.read <= r.value.read
  }

  lemma {:induction false} ReturnsConcat(a: seq<Event>, b: seq<Event>, s: Spot)
    requires Returns(a, s) && Returns(b, Replay(a, s).value)
    ensures Returns(a + b, s) && Replay(a, s).value.read <= Replay(a + b, s).value.read
  {
    hide Replay;
    ReplayConcat(a, b, s);
  }

  /** A visit of one subdirectory. */
  lemma {:induction false} ReplayVisit(trace: seq<Event>, s: Spot, k: nat)
    requires Proper(s.here) && s.cwd in s.read && k < |s.here.subs| && s.here.subs[k].entered
    requires var p := s.cwd + [s.here.subs[k].name];
             Returns(trace, Spot(s.here.subs[k].node, s.above + [s.here], p, s.read))
    ensures var p := s.cwd + [s.here.subs[k].name]; Returns([Enters(p)] + trace + [Leaves(p)], s)
  {
    hide Replay, Proper;
    var p := s.cwd + [s.here.subs[k].name];
    ProperSorted(s.here);
    FindAt(s.here.subs, k);
    assert p[..|s.cwd|] == s.cwd;
    var below := Spot(s.here.subs[k].node, s.above + [s.here], p, s.read);
    ReplayOne(Enters(p), s);
    ReplayConcat([Enters(p)], trace, s);
    var back := Replay(trace, below).value;
    assert back.above[..|s.above|] == s.above;
    ReplayOne(Leaves(p), back);
    ReplayConcat([Enters(p)] + trace, [Leaves(p)], s);
  }

  lemma {:induction false} ReplayRefusal(s: Spot, k: nat)
    requires Proper(s.here) && s.cwd in s.read && k < |s.here.subs| && !s.here.subs[k].entered
    ensures Returns([Refuses(s.cwd + [s.here.subs[k].name])], s)
  {
    hide Replay, Proper;
    var p := s.cwd + [s.here.subs[k].name];
    ProperSorted(s.here);
    FindAt(s.here.subs, k);
    assert p[..|s.cwd|] == s.cwd;
    ReplayOne(Refuses(p), s);
  }

  lemma {:induction false} ReplayRead(s: Spot)
    ensures Replay([Reads(s.cwd)], s) == Some(s.(read := s.read + {s.cwd}))
  {
    ReplayOne(Reads(s.cwd), s);
  }

  /** Every step of a full walk is allowed, and the walk ends where it began. */
  lemma {:induction false} TraceNested(s: Spot)
    requires Proper(s.here)
    ensures Returns(Trace(s.here, s.cwd), s)
    decreases s.here, 1
  {
    hide Replay, Proper;
    var s' := s.(read := s.read + {s.cwd});
    ReplayRead(s);
    assert s.here.subs[0..] == s.here.subs;
    TraceSubsNested(s', 0);
    ReturnsConcat([Reads(s.cwd)], TraceSubs(s.here.subs, s.cwd), s);
  }

  lemma {:induction false} TraceSubNested(s: Spot, k: nat)
    requires Proper(s.here) && s.cwd in s.read && k < |s.here.subs|
    ensures Returns(TraceSub(s.here.subs[k], s.cwd), s)
    decreases s.here, 0, 0
  {
    hide Replay, Returns;
    var sub := s.here.subs[k];
    if sub.entered {
      assert sub in s.here.subs && sub.node < s.here;
      TraceNested(Spot(sub.node, s.above + [s.here], s.cwd + [sub.name], s.read));
      ReplayVisit(Trace(sub.node, s.cwd + [sub.name]), s, k);
    } else {
      ReplayRefusal(s, k);
    }
  }

  lemma {:induction false} TraceSubsNested(s: Spot, k: nat)
    requires Proper(s.here) && s.cwd in s.read && k <= |s.here.subs|
    ensures Returns(TraceSubs(s.here.subs[k..], s.cwd), s)
    decreases s.here, 0, |s.here.subs| - k + 1
  {
    if k < |s.here.subs| {
      hide Replay, Proper;
      var one, rest := TraceSub(s.here.subs[k], s.cwd), TraceSubs(s.here.subs[k + 1..], s.cwd);
      assert s.here.subs[k..][0] == s.here.subs[k] && s.here.subs[k..][1..] == s.here.subs[k + 1..];
      TraceSubNested(s, k);
      TraceSubsNested(Replay(one, s).value, k + 1);
      ReturnsConcat(one, rest, s);
    }
  }

  lemma {:induction false} MergeTraceNested(olds: seq<Dir>, s: Spot, k: nat)
    requires Proper(s.here) && s.cwd in s.read && k <= |s.here.subs|
    ensures Returns(MergeTrace(olds, s.here.subs[k..], s.cwd), s)
    decreases |olds| + |s.here.subs| - k
  {
    hide Replay, Proper;
    var subs := s.here.subs[k..];
    if olds == [] && subs == [] {
      NoSteps(s);
    } else if olds != [] && (subs == [] || Less(olds[0].name, subs[0].name)) {
      MergeTraceNested(olds[1..], s, k);
    } else {
      assert subs[0] == s.here.subs[k] && subs[1..] == s.here.subs[k + 1..];
      if olds == [] || olds[0].name != subs[0].name {
        var one := TraceSub(subs[0], s.cwd);
        TraceSubNested(s, k);
        MergeTraceNested(olds, Replay(one, s).value, k + 1);
        ReturnsConcat(one, MergeTrace(olds, subs[1..], s.cwd), s);
      } else {
        MergeTraceNested(olds[1..], s, k + 1);
      }
    }
  }

  lemma NoSteps(s: Spot)
    ensures Returns([], s)
  {
  }

  /** So it is with a walk in step with an old tree, with its nested walks of new subtrees. */
  lemma {:induction false} DiffTraceNested(was: Dir, fid: nat, next: nat, s: Spot)
    requires Proper(s.here)
    ensures Returns(W.DiffTrace(was, fid, s.here, next, s.cwd), s)
    decreases s.here, 2, 0
  {
    hide Replay, Proper;
    var subs := s.here.subs;
    var merged := Merge(was.dirs, subs, 0, next);
    var a, b := MergeTrace(was.dirs, subs, s.cwd), W.KeptTrace(merged.marks, subs, 0, merged.next, s.cwd);
    var s' := s.(read := s.read + {s.cwd});
    ReplayRead(s);
    assert subs[0..] == subs;
    MergeTraceNested(was.dirs, s', 0);
    ReturnsConcat([Reads(s.cwd)], a, s);
    ReplayConcat([Reads(s.cwd)], a, s);
    W.MergeMatches(was.dirs, subs, 0, next);
    KeptTraceNested(merged.marks, Replay([Reads(s.cwd)] + a, s).value, 0, 0, merged.next);
    ReturnsConcat([Reads(s.cwd)] + a, b, s);
  }

  lemma {:induction false} KeptTraceNested(marks: seq<Mark>, s: Spot, k: nat, fid: nat, next: nat)
    requires Proper(s.here) && s.cwd in s.read && k <= |s.here.subs| && W.Matches(marks, s.here.subs[k..])
    ensures Returns(W.KeptTrace(marks, s.here.subs[k..], fid, next, s.cwd), s)
    decreases s.here, 1, |marks|
  {
    hide Replay, Proper;
    var subs := s.here.subs[k..];
    if marks == [] {
      NoSteps(s);
    } else if marks[0].GoneMark? {
      KeptTraceNested(marks[1..], s, k, fid, next);
    } else {
      assert subs[0] == s.here.subs[k] && subs[1..] == s.here.subs[k + 1..];
      if marks[0].FreshMark? {
        KeptTraceNested(marks[1..], s, k + 1, fid + 1, next);
      } else {
        var was := marks[0].was;
        var next' := DiffSub(was, fid, subs[0], next).next;
        var one := W.KeptStep(was, subs[0], fid, next, s.cwd);
        KeptStepNested(was, s, k, fid, next);
        KeptTraceNested(marks[1..], Replay(one, s).value, k + 1, fid + 1, next');
        ReturnsConcat(one, W.KeptTrace(marks[1..], subs[1..], fid + 1, next', s.cwd), s);
      }
    }
  }

  lemma {:induction false} KeptStepNested(was: Dir, s: Spot, k: nat, fid: nat, next: nat)
    requires Proper(s.here) && s.cwd in s.read && k < |s.here.subs| && was.name == s.here.subs[k].name
    ensures Returns(W.KeptStep(was, s.here.subs[k], fid, next, s.cwd), s)
    decreases s.here, 0, 0
  {
    hide Replay, Returns;
    var sub := s.here.subs[k];
    var p := s.cwd + [sub.name];
    if sub.entered {
      assert sub in s.here.subs && sub.node < s.here;
      DiffTraceNested(was, fid, next, Spot(sub.node, s.above + [s.here], p, s.read));
      ReplayVisit(W.DiffTrace(was, fid, sub.node, next, p), s, k);
    } else {
      ReplayRefusal(s, k);
    }
  }

  // ---------------------------------------------------------------- every directory once

  /** The directories that are read, one after the other. */
  function ReadPaths(events: seq<Event>): seq<Path> {
    if events == [] then [] else (if events[0].Reads? then [events[0].path] else []) + ReadPaths(events[1..])
  }

  /** The directories that can be entered. */
  function Reachable(n: Node, path: Path): seq<Path>
    decreases n, 1
  {
    [path] + ReachableBelow(n.subs, path)
  }

  function ReachableSub(sub: Sub, path: Path): seq<Path>
    decreases sub, 0
  {
    if sub.entered then Reachable(sub.node, path + [sub.name]) else []
  }

  function ReachableBelow(subs: seq<Sub>, path: Path): seq<Path>
    decreases subs, 0
  {
    if subs == [] then [] else ReachableSub(subs[0], path) + ReachableBelow(subs[1..], path)
  }

  lemma {:induction false} ReadsConcat(a: seq<Event>, b: seq<Event>)
    ensures ReadPaths(a + b) == ReadPaths(a) + ReadPaths(b)
    decreases |a|
  {
    if a == [] {
      assert a + b == b;
    } else {
      ReadsConcat(a[1..], b);
      assert (a + b)[1..] == a[1..] + b && (a + b)[0] == a[0];
    }
  }

  lemma {:induction false} ReadsOne(e: Event)
    ensures ReadPaths([e]) == if e.Reads? then [e.path] else []
  {
    assert [e][1..] == [];
  }

  lemma {:induction false} ReadsVisit(trace: seq<Event>, p: Path)
    ensures ReadPaths([Enters(p)] + trace + [Leaves(p)]) == ReadPaths(trace)
  {
    ReadsConcat([Enters(p)] + trace, [Leaves(p)]);
    ReadsConcat([Enters(p)], trace);
    ReadsOne(Enters(p));
    ReadsOne(Leaves(p));
  }

  lemma {:induction false} TraceReads(n: Node, path: Path)
    ensures ReadPaths(Trace(n, path)) == Reachable(n, path)
    decreases n, 1
  {
    TraceSubsReads(n.subs, path);
    ReadsConcat([Reads(path)], TraceSubs(n.subs, path));
    ReadsOne(Reads(path));
  }

  lemma {:induction false} TraceSubReads(sub: Sub, path: Path)
    ensures ReadPaths(TraceSub(sub, path)) == ReachableSub(sub, path)
    decreases sub, 0
  {
    var p := path + [sub.name];
    if sub.entered {
      assert sub.node < sub;
      TraceReads(sub.node, p);
      ReadsVisit(Trace(sub.node, p), p);
    } else {
      ReadsOne(Refuses(p));
    }
  }

  lemma {:induction false} TraceSubsReads(subs: seq<Sub>, path: Path)
    ensures ReadPaths(TraceSubs(subs, path)) == ReachableBelow(subs, path)
    decreases subs, 0
  {
    if subs != [] {
      TraceSubReads(subs[0], path);
      TraceSubsReads(subs[1..], path);
      ReadsConcat(TraceSub(subs[0], path), TraceSubs(subs[1..], path));
    }
  }

  /** The part of a listing that the merge walks at once, and the part that is entered later. */
  function FreshBelow(marks: seq<Mark>, subs: seq<Sub>, path: Path): seq<Path> {
    if marks == [] then []
    else if marks[0].GoneMark? then FreshBelow(marks[1..], subs, path)
    else if subs == [] then []
    else (if marks[0].FreshMark? then ReachableSub(subs[0], path) else []) + FreshBelow(marks[1..], subs[1..], path)
  }

  function KeptBelow(marks: seq<Mark>, subs: seq<Sub>, path: Path): seq<Path> {
    if marks == [] then []
    else if marks[0].GoneMark? then KeptBelow(marks[1..], subs, path)
    else if subs == [] then []
    else (if marks[0].KeptMark? then ReachableSub(subs[0], path) else []) + KeptBelow(marks[1..], subs[1..], path)
  }

  lemma {:induction false} Parted(marks: seq<Mark>, subs: seq<Sub>, path: Path)
    requires W.Matches(marks, subs)
    ensures multiset(FreshBelow(marks, subs, path)) + multiset(KeptBelow(marks, subs, path))
         == multiset(ReachableBelow(subs, path))
    decreases |marks|
  {
    if marks != [] {
      if marks[0].GoneMark? {
        Parted(marks[1..], subs, path);
      } else {
        Parted(marks[1..], subs[1..], path);
      }
    }
  }

  lemma {:induction false} MergeTraceReads(olds: seq<Dir>, subs: seq<Sub>, fid: nat, next: nat, path: Path)
    ensures ReadPaths(MergeTrace(olds, subs, path)) == FreshBelow(Merge(olds, subs, fid, next).marks, subs, path)
    decreases |olds| + |subs|
  {
    if olds == [] && subs == [] {
    } else if olds != [] && (subs == [] || Less(olds[0].name, subs[0].name)) {
      MergeTraceReads(olds[1..], subs, fid, next, path);
    } else if olds == [] || olds[0].name != subs[0].name {
      TraceSubReads(subs[0], path);
      MergeTraceReads(olds, subs[1..], fid + 1, ScanSub(subs[0], next, fid, next + 1).next, path);
      ReadsConcat(TraceSub(subs[0], path), MergeTrace(olds, subs[1..], path));
    } else {
      MergeTraceReads(olds[1..], subs[1..], fid + 1, next, path);
    }
  }

  /** A walk in step with an old tree reads the same directories as a fresh walk, each as often. */
  lemma {:induction false} DiffTraceReads(was: Dir, fid: nat, n: Node, next: nat, path: Path)
    ensures multiset(ReadPaths(W.DiffTrace(was, fid, n, next, path))) == multiset(Reachable(n, path))
    decreases n, 0, 0
  {
    var merged := Merge(was.dirs, n.subs, 0, next);
    var a, b := MergeTrace(was.dirs, n.subs, path), W.KeptTrace(merged.marks, n.subs, 0, merged.next, path);
    W.MergeMatches(was.dirs, n.subs, 0, next);
    MergeTraceReads(was.dirs, n.subs, 0, next, path);
    KeptTraceReads(merged.marks, n.subs, 0, merged.next, path);
    Parted(merged.marks, n.subs, path);
    ReadsConcat([Reads(path)] + a, b);
    ReadsConcat([Reads(path)], a);
    ReadsOne(Reads(path));
  }

  lemma {:induction false} KeptStepReads(was: Dir, sub: Sub, fid: nat, next: nat, path: Path)
    requires was.name == sub.name
    ensures multiset(ReadPaths(W.KeptStep(was, sub, fid, next, path))) == multiset(ReachableSub(sub, path))
    decreases sub, 0, 0
  {
    var p := path + [was.name];
    if sub.entered {
      assert sub.node < sub;
      DiffTraceReads(was, fid, sub.node, next, p);
      ReadsVisit(W.DiffTrace(was, fid, sub.node, next, p), p);
    } else {
      ReadsOne(Refuses(p));
    }
  }

  lemma {:induction false} KeptTraceReads(marks: seq<Mark>, subs: seq<Sub>, fid: nat, next: nat, path: Path)
    requires W.Matches(marks, subs)
    ensures multiset(ReadPaths(W.KeptTrace(marks, subs, fid, next, path))) == multiset(KeptBelow(marks, subs, path))
    decreases subs, |marks|, 1
  {
    if marks == [] {
    } else if marks[0].GoneMark? {
      KeptTraceReads(marks[1..], subs, fid, next, path);
    } else if marks[0].FreshMark? {
      KeptTraceReads(marks[1..], subs[1..], fid + 1, next, path);
    } else {
      var was := marks[0].was;
      var next' := DiffSub(was, fid, subs[0], next).next;
      KeptStepReads(was, subs[0], fid, next, path);
      KeptTraceReads(marks[1..], subs[1..], fid + 1, next', path);
      ReadsConcat(W.KeptStep(was, subs[0], fid, next, path), W.KeptTrace(marks[1..], subs[1..], fid + 1, next', path));
    }
  }

  // ---------------------------------------------------------------- no directory twice

  ghost predicate Distinct(paths: seq<Path>) {
    forall i, j :: 0 <= i < j < |paths| ==> paths[i] != paths[j]
  }

  ghost predicate Below(paths: seq<Path>, path: Path) {
    forall p :: p in paths ==> |path| <= |p| && p[..|path|] == path
  }

  lemma {:induction false} ReachableDistinct(n: Node, path: Path)
    requires Proper(n)
    ensures Distinct(Reachable(n, path)) && Below(Reachable(n, path), path)
    decreases n, 1
  {
    ReachableBelowDistinct(n.subs, path);
  }

  lemma {:induction false} ReachableSubDistinct(sub: Sub, path: Path)
    requires Proper(sub.node)
    ensures Distinct(ReachableSub(sub, path)) && Below(ReachableSub(sub, path), path + [sub.name])
    decreases sub, 0
  {
    if sub.entered {
      assert sub.node < sub;
      ReachableDistinct(sub.node, path + [sub.name]);
    }
  }

  /** Below a directory, every path goes through one of its subdirectories. */
  ghost predicate Through(paths: seq<Path>, path: Path, subs: seq<Sub>) {
    forall p :: p in paths ==> |path| < |p| && p[..|path|] == path && p[|path|] in SubNames(subs)
  }

  lemma {:induction false} ReachableBelowDistinct(subs: seq<Sub>, path: Path)
    requires Sorted(SubNames(subs)) && forall i :: 0 <= i < |subs| ==> Proper(subs[i].node)
    ensures Distinct(ReachableBelow(subs, path)) && Through(ReachableBelow(subs, path), path, subs)
    ensures path !in ReachableBelow(subs, path)
    decreases subs, 0
  {
    if subs != [] {
      var a, b := ReachableSub(subs[0], path), ReachableBelow(subs[1..], path);
      SubNamesTail(subs);
      ReachableSubDistinct(subs[0], path);
      ReachableBelowDistinct(subs[1..], path);
      SortedHead(SubNames(subs), subs[0].name);
      forall p | p in a
        ensures p !in b && |path| < |p| && p[..|path|] == path && p[|path|] == subs[0].name
      {
        var q := path + [subs[0].name];
        assert p[..|q|] == q;
        assert p[|path|] == p[..|q|][|path|];
        assert p[..|path|] == p[..|q|][..|path|] == path;
        if p in b {
          Trichotomy(subs[0].name, p[|path|]);
        }
      }
    }
  }

  /** Every directory that can be entered is read, and none of them twice; so it is in a full walk and
      in a walk in step with any old tree. */
  lemma {:induction false} EachReadOnce(was: Dir, n: Node, next: nat, p: Path)
    requires Proper(n)
    ensures multiset(ReadPaths(Trace(n, [])))[p] == if p in Reachable(n, []) then 1 else 0
    ensures multiset(ReadPaths(W.DiffTrace(was, 0, n, next, [])))[p] == if p in Reachable(n, []) then 1 else 0
  {
    TraceReads(n, []);
    DiffTraceReads(was, 0, n, next, []);
    ReachableDistinct(n, []);
    CountOne(Reachable(n, []), p);
  }

  lemma {:induction false} CountOne(paths: seq<Path>, p: Path)
    requires Distinct(paths)
    ensures multiset(paths)[p] == if p in paths then 1 else 0
    decreases |paths|
  {
    if paths != [] {
      assert paths == [paths[0]] + paths[1..];
      CountOne(paths[1..], p);
    }
  }

  // ---------------------------------------------------------------- how far down

  lemma {:induction false} ReachableDeep(n: Node, path: Path)
    ensures forall p :: p in Reachable(n, path) ==> |p| < |path| + Deep(n)
    decreases n, 1
  {
    ReachableBelowDeep(n.subs, path);
  }

  lemma {:induction false} ReachableBelowDeep(subs: seq<Sub>, path: Path)
    ensures forall p :: p in ReachableBelow(subs, path) ==> |p| <= |path| + DeepBelow(subs)
    decreases subs, 0
  {
    if subs != [] {
      if subs[0].entered {
        assert subs[0].node < subs[0];
        ReachableDeep(subs[0].node, path + [subs[0].name]);
      }
      ReachableBelowDeep(subs[1..], path);
    }
  }

  /** On a share with q different listings, links that lead back up included, no directory that a walk
      reads is deeper than q^5 + 5. */
  lemma {:induction false} WalkDepth(fs: Filesystem, root: int, hashes: seq<Md5.Hash>, was: Dir, next: nat, p: Path)
    requires Digests(fs, hashes)
    requires var n := Enter(fs, root, [], hashes);
             p in ReadPaths(Trace(n, [])) || p in ReadPaths(W.DiffTrace(was, 0, n, next, []))
    ensures |p| + 1 <= Pow(|hashes|, THRESHOLD) + THRESHOLD
  {
    hide Enter, Pow, Trace, W.DiffTrace, Reachable, ReadPaths, Deep, Digests;
    var n := Enter(fs, root, [], hashes);
    EnterDepth(fs, root, [], hashes);
    ReachableDeep(n, []);
    TraceReads(n, []);
    DiffTraceReads(was, 0, n, next, []);
    var visited := ReadPaths(W.DiffTrace(was, 0, n, next, []));
    assert p in visited ==> p in multiset(visited);
    assert p in multiset(Reachable(n, [])) ==> p in Reachable(n, []);
  }
}
