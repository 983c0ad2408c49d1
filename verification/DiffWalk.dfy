/** dt_diff's walk: a loop that moves through the new share and the old tree at the same time. It
    prints exactly the patch between them. */
module DiffWalk {
  import opened Names
  import opened Wrappers
  import opened Trees
  import opened Printing
  import opened Scan
  import opened Deltas
  import opened Diff
  import opened Walks
  import opened DiffLists
  import Basics

  /** A directory above the current one, in both trees, with the children still to come. */
  datatype Pair = Pair(d: Dir, od: Dir, kids: seq<Kid>, olds: seq<Dir>)

  /** What the merge of its lists has decided: the children that are done, the files, and what is left. */
  datatype Plan = Plan(ops: seq<Op>, fops: seq<FileOp>, marks: seq<Mark>)

  datatype Patched = Patched(lines: seq<Line>, events: seq<Event>, delta: Delta, next: nat)

  ghost function Chain(lines: seq<Line>, events: seq<Event>, o: Patched): Patched {
    Patched(lines + o.lines, events + o.events, o.delta, o.next)
  }

  lemma {:induction false} ChainTwice(a: seq<Line>, b: seq<Line>, x: seq<Event>, y: seq<Event>, o: Patched)
    ensures Chain(a, x, Chain(b, y, o)) == Chain(a + b, x + y, o)
  {
    assert a + (b + o.lines) == (a + b) + o.lines;
    assert x + (y + o.events) == (x + y) + o.events;
  }

  // ---------------------------------------------------------------- the walker's steps

  function DiffTrace(was: Dir, fid: nat, n: Node, next: nat, path: Path): seq<Event>
    decreases n, 0, 0
  {
    var merged := Merge(was.dirs, n.subs, 0, next);
    [Reads(path)] + MergeTrace(was.dirs, n.subs, path) + KeptTrace(merged.marks, n.subs, 0, merged.next, path)
  }

  function KeptStep(was: Dir, sub: Sub, fid: nat, next: nat, path: Path): seq<Event>
    decreases sub, 0, 0
  {
    var p := path + [was.name];
    if sub.entered then [Enters(p)] + DiffTrace(was, fid, sub.node, next, p) + [Leaves(p)] else [Refuses(p)]
  }

  function KeptTrace(marks: seq<Mark>, subs: seq<Sub>, fid: nat, next: nat, path: Path): seq<Event>
    decreases subs, |marks|, 1
  {
    if marks == [] then []
    else if marks[0].GoneMark? then KeptTrace(marks[1..], subs, fid, next, path)
    else if subs == [] then []
    else if marks[0].FreshMark? then KeptTrace(marks[1..], subs[1..], fid + 1, next, path)
    else
      KeptStep(marks[0].was, subs[0], fid, next, path)
      + KeptTrace(marks[1..], subs[1..], fid + 1, DiffSub(marks[0].was, fid, subs[0], next).next, path)
  }

  // ---------------------------------------------------------------- what is left at each point

  /** From inside a directory, when the children in `marks` are still to come. */
  ghost function LevelEnd(pid: nat, od: Dir, fid0: nat, ops: seq<Op>, fops: seq<FileOp>, marks: seq<Mark>,
                          subs: seq<Sub>, fid: nat, path: Path, next: nat): Patched {
    var r := Descend(marks, subs, fid, next);
    var e := Joined(od, fid0, ops + r.ops, fops);
    Patched(SameLines(r.ops, od.id, path) + FootLines(e, pid), KeptTrace(marks, subs, fid, next, path), e, r.next)
  }

  ghost function Pid(stack: seq<Pair>): nat {
    if stack == [] then 0 else stack[|stack| - 1].d.id
  }

  ghost predicate Shape(stack: seq<Pair>, plans: seq<Plan>, trail: seq<Node>, path: Path) {
    |stack| == |plans| == |trail| <= |path|
  }

  ghost function After(stack: seq<Pair>, plans: seq<Plan>, trail: seq<Node>, path: Path, e: Delta, next: nat): Patched
    requires Shape(stack, plans, trail, path)
    decreases |stack|, 0
  {
    if stack == [] then Patched([], [], e, next)
    else
      var m, up := |stack| - 1, path[..|path| - 1];
      var f, g, k := stack[m], plans[m], |stack[m].d.dirs| + 1;
      var rest := if k <= |trail[m].subs| then trail[m].subs[k..] else [];
      Chain([], [Leaves(path)],
            Within(stack[..m], plans[..m], trail[..m], up, f.od, f.d.fid, g.ops + [Same(e)], g.fops, g.marks, rest, k,
                   next))
  }

  ghost function Within(stack: seq<Pair>, plans: seq<Plan>, trail: seq<Node>, path: Path, od: Dir, fid0: nat,
                        ops: seq<Op>, fops: seq<FileOp>, marks: seq<Mark>, subs: seq<Sub>, fid: nat, next: nat): Patched
    requires Shape(stack, plans, trail, path)
    decreases |stack|, 1
  {
    var l := LevelEnd(Pid(stack), od, fid0, ops, fops, marks, subs, fid, path, next);
    Chain(l.lines, l.events, After(stack, plans, trail, path, l.delta, l.next))
  }

  ghost function Entering(stack: seq<Pair>, plans: seq<Plan>, trail: seq<Node>, path: Path, od: Dir, fid0: nat,
                          n: Node, next: nat): Patched
    requires Shape(stack, plans, trail, path)
  {
    var b := DiffDir(od, fid0, n, next);
    Chain(PatchLines(b.delta, Pid(stack), path), DiffTrace(od, fid0, n, next, path),
          After(stack, plans, trail, path, b.delta, b.next))
  }

  /** The marks account for the subdirectories of the share, in order. */
  ghost predicate Matches(marks: seq<Mark>, subs: seq<Sub>) {
    if marks == [] then subs == []
    else if marks[0].GoneMark? then Matches(marks[1..], subs)
    else subs != [] && MarkName(marks[0]) == subs[0].name && Matches(marks[1..], subs[1..])
  }

  lemma {:induction false} MergeMatches(olds: seq<Dir>, subs: seq<Sub>, fid: nat, next: nat)
    ensures Matches(Merge(olds, subs, fid, next).marks, subs)
    decreases |olds| + |subs|
  {
    if olds == [] && subs == [] {
    } else if olds != [] && (subs == [] || Less(olds[0].name, subs[0].name)) {
      MergeMatches(olds[1..], subs, fid, next);
    } else if olds == [] || olds[0].name != subs[0].name {
      ScanSubShape(subs[0], next, fid, next + 1);
      MergeMatches(olds, subs[1..], fid + 1, ScanSub(subs[0], next, fid, next + 1).next);
    } else {
      MergeMatches(olds[1..], subs[1..], fid + 1, next);
    }
  }

  /** What a merge prints on the spot is what the patch says of the children that come or go. */
  lemma {:induction false} DescendPrints(marks: seq<Mark>, subs: seq<Sub>, fid: nat, next: nat, pid: nat, path: Path)
    requires Matches(marks, subs)
    ensures var ops := Descend(marks, subs, fid, next).ops;
            && OpLines(ops, pid, path) == MarkLines(marks, pid, path) && |ops| == |marks|
            && forall i :: 0 <= i < |ops| ==> (ops[i].Same? <==> marks[i].KeptMark?)
    decreases |marks|
  {
    hide GoneLines, TreeLines, DiffSub;
    if marks != [] {
      var ops := Descend(marks, subs, fid, next).ops;
      if marks[0].GoneMark? {
        DescendPrints(marks[1..], subs, fid, next, pid, path);
      } else if marks[0].FreshMark? {
        DescendPrints(marks[1..], subs[1..], fid + 1, next, pid, path);
      } else {
        DescendPrints(marks[1..], subs[1..], fid + 1, DiffSub(marks[0].was, fid, subs[0], next).next, pid, path);
      }
      assert forall i :: 1 <= i < |ops| ==> ops[i] == ops[1..][i - 1] && marks[i] == marks[1..][i - 1];
    }
  }

  lemma {:induction false} ChangedAs(e: Delta, marks: seq<Mark>)
    requires |e.ops| == |marks| && forall i :: 0 <= i < |marks| ==> (e.ops[i].Same? <==> marks[i].KeptMark?)
    ensures Changed(e) <==> AnyChange(marks) || AnyFileChange(e.fops)
  {
    if AnyChange(marks) {
      var i :| 0 <= i < |marks| && !marks[i].KeptMark?;
      assert !e.ops[i].Same?;
    }
    if exists i :: 0 <= i < |e.ops| && !e.ops[i].Same? {
      var i :| 0 <= i < |e.ops| && !e.ops[i].Same?;
      assert !marks[i].KeptMark?;
    }
  }

  /** The lines that merging the two lists of a directory prints. */
  ghost function MergedLines(id: nat, path: Path, marks: seq<Mark>, fops: seq<FileOp>): seq<Line> {
    (if AnyChange(marks) || AnyFileChange(fops) then [PathLine(Mod, id, path)] else [])
    + (MarkLines(marks, id, path) + FileOpLines(fops, id))
  }

  // ---------------------------------------------------------------- lines about directories that are gone

  lemma {:induction false} MarkLive(marks: seq<Mark>, id: nat, path: Path)
    requires !AnyGone(marks)
    ensures NoDrops(MarkLines(marks, id, path)) && BeforeGone(marks) == marks
    decreases |marks|
  {
    if marks != [] {
      assert !marks[0].GoneMark?;
      forall i | 0 <= i < |marks| - 1
        ensures !marks[1..][i].GoneMark?
      {
        assert !marks[i + 1].GoneMark?;
      }
      MarkLive(marks[1..], id, path);
      if marks[0].FreshMark? {
        BodyActs(Add, marks[0].dir, path + [marks[0].dir.name]);
      }
    }
  }

  lemma {:induction false} FilesLive(fops: seq<FileOp>, id: nat)
    ensures NoDrops(FileOpLines(fops, id))
    decreases |fops|
  {
    if fops != [] {
      FilesLive(fops[1..], id);
    }
  }

  lemma {:induction false} MergedLive(marks: seq<Mark>, fops: seq<FileOp>, id: nat, path: Path)
    requires !AnyGone(marks)
    ensures NoDrops(MergedLines(id, path, marks, fops))
  {
    MarkLive(marks, id, path);
    FilesLive(fops, id);
  }

  lemma {:induction false} BeforeLive(marks: seq<Mark>, id: nat, path: Path)
    requires AnyGone(marks)
    ensures !AnyGone(BeforeGone(marks)) && |BeforeGone(marks)| < |marks| && marks[|BeforeGone(marks)|].GoneMark?
    ensures var before := BeforeGone(marks); marks == before + [marks[|before|]] + marks[|before| + 1..]
    decreases |marks|
  {
    if !marks[0].GoneMark? {
      var i :| 0 <= i < |marks| && marks[i].GoneMark?;
      assert marks[1..][i - 1].GoneMark?;
      BeforeLive(marks[1..], id, path);
      var before := BeforeGone(marks[1..]);
      assert BeforeGone(marks) == [marks[0]] + before;
      assert forall j :: 1 <= j <= |before| ==> ([marks[0]] + before)[j] == before[j - 1];
    }
  }

  lemma {:induction false} MarkLinesAround(before: seq<Mark>, m: Mark, rest: seq<Mark>, id: nat, path: Path)
    requires m.GoneMark?
    ensures MarkLines(before + [m] + rest, id, path)
         == MarkLines(before, id, path) + GoneLines(m.was, id, path + [m.was.name]) + MarkLines(rest, id, path)
  {
    MarkLinesConcat(before + [m], rest, id, path);
    MarkLinesConcat(before, [m], id, path);
    MarkAlone(m, id, path, 0);
    MarkIs(m, id, path);
  }

  /** The lines of a merge around a directory that is gone. */
  lemma {:induction false} MergedAround(before: seq<Mark>, m: Mark, rest: seq<Mark>, fops: seq<FileOp>, id: nat,
                                        path: Path)
    requires m.GoneMark?
    ensures MergedLines(id, path, before + [m] + rest, fops)
         == ([PathLine(Mod, id, path)] + MarkLines(before, id, path))
            + (GoneLines(m.was, id, path + [m.was.name]) + (MarkLines(rest, id, path) + FileOpLines(fops, id)))
  {
    var marks := before + [m] + rest;
    assert AnyChange(marks) by {
      assert !marks[|before|].KeptMark?;
    }
    MarkLinesAround(before, m, rest, id, path);
    hide MarkLines, MarkLine, GoneLines, FileOpLines, AnyChange;
    var a, b := MarkLines(before, id, path), GoneLines(m.was, id, path + [m.was.name]);
    var c, d := MarkLines(rest, id, path), FileOpLines(fops, id);
    Basics.RegroupAll([PathLine(Mod, id, path)], a, b, c, d);
  }

  /** The lines of a merge up to the first directory that is gone, where a root without a name is fatal. */
  lemma {:induction false} DeadPoint(marks: seq<Mark>, fops: seq<FileOp>, id: nat, path: Path)
    requires AnyGone(marks) && Solid(path)
    ensures var merged := MergedLines(id, path, marks, fops);
            var part := [PathLine(Mod, id, path)] + MarkLines(BeforeGone(marks), id, path);
            && |part| < |merged| && merged[..|part|] == part && NoDrops(part) && LineShown(merged[|part|], None) == None
  {
    hide MarkLines, MergedLines, FileOpLines, GoneBody, AnyGone, BeforeGone;
    BeforeLive(marks, id, path);
    var before := BeforeGone(marks);
    var m := marks[|before|];
    MergedAround(before, m, marks[|before| + 1..], fops, id, path);
    MarkLive(before, id, path);
    var p := path + [m.was.name];
    assert p[..|p| - 1] == path;
    NoWayUp(p);
    assert GoneLines(m.was, id, p)[0] == PathLine(Del, m.was.id, p);
  }

  lemma {:induction false} JoinedPrints(od: Dir, fid0: nat, marks: seq<Mark>, subs: seq<Sub>, next: nat,
                                        fops: seq<FileOp>, pid: nat, path: Path)
    requires Matches(marks, subs)
    ensures var r := Descend(marks, subs, 0, next);
            var e := Joined(od, fid0, r.ops, fops);
            PatchLines(e, pid, path) == MergedLines(od.id, path, marks, fops)
            + (SameLines(r.ops, od.id, path) + FootLines(e, pid))
  {
    hide SameLines, FootLines, FileOpLines, OpLines, MarkLines, Descend;
    var r := Descend(marks, subs, 0, next);
    DescendPrints(marks, subs, 0, next, od.id, path);
    HeadIs(od, fid0, r.ops, fops, marks, path);
    var e := Joined(od, fid0, r.ops, fops);
    hide HeadLines, Changed, AnyChange, AnyFileChange;
    Basics.RegroupPatch(HeadLines(e, path), OpLines(r.ops, od.id, path), FileOpLines(fops, od.id),
                        SameLines(r.ops, od.id, path), FootLines(e, pid));
  }

  lemma {:induction false} HeadIs(od: Dir, fid0: nat, ops: seq<Op>, fops: seq<FileOp>, marks: seq<Mark>, path: Path)
    requires |ops| == |marks| && forall i :: 0 <= i < |marks| ==> (ops[i].Same? <==> marks[i].KeptMark?)
    ensures HeadLines(Joined(od, fid0, ops, fops), path)
         == if AnyChange(marks) || AnyFileChange(fops) then [PathLine(Mod, od.id, path)] else []
  {
    ChangedAs(Joined(od, fid0, ops, fops), marks);
  }

  lemma {:induction false} EnterStep(stack: seq<Pair>, plans: seq<Plan>, trail: seq<Node>, path: Path, od: Dir,
                                     fid0: nat, n: Node, next: nat)
    requires Shape(stack, plans, trail, path)
    ensures var m, fops := Merge(od.dirs, n.subs, 0, next), MergeFiles(od.files, n.files, |n.subs|);
            && Matches(m.marks, n.subs)
            && Entering(stack, plans, trail, path, od, fid0, n, next)
               == Chain(MergedLines(od.id, path, m.marks, fops), [Reads(path)] + MergeTrace(od.dirs, n.subs, path),
                        Within(stack, plans, trail, path, od, fid0, [], fops, m.marks, n.subs, 0, m.next))
  {
    hide PatchLines, MergedLines, MergeTrace, KeptTrace, After, SameLines, FootLines, Merge, MergeFiles;
    var m, fops := Merge(od.dirs, n.subs, 0, next), MergeFiles(od.files, n.files, |n.subs|);
    MergeMatches(od.dirs, n.subs, 0, next);
    var r := Descend(m.marks, n.subs, 0, m.next);
    assert [] + r.ops == r.ops;
    JoinedPrints(od, fid0, m.marks, n.subs, m.next, fops, Pid(stack), path);
    var l := LevelEnd(Pid(stack), od, fid0, [], fops, m.marks, n.subs, 0, path, m.next);
    ChainTwice(MergedLines(od.id, path, m.marks, fops), l.lines, [Reads(path)] + MergeTrace(od.dirs, n.subs, path),
               l.events,
               After(stack, plans, trail, path, l.delta, l.next));
  }

  lemma {:induction false} DescendNext(marks: seq<Mark>, subs: seq<Sub>, fid: nat, next: nat, pid: nat, path: Path)
    requires marks != [] && Matches(marks, subs)
    ensures var r := Descend(marks, subs, fid, next);
            if marks[0].GoneMark? then
              var r' := Descend(marks[1..], subs, fid, next);
              && r.ops == [Gone(marks[0].was)] + r'.ops && r.next == r'.next
              && SameLines(r.ops, pid, path) == SameLines(r'.ops, pid, path)
            else if marks[0].FreshMark? then
              var r' := Descend(marks[1..], subs[1..], fid + 1, next);
              && r.ops == [Fresh(marks[0].dir)] + r'.ops && r.next == r'.next
              && SameLines(r.ops, pid, path) == SameLines(r'.ops, pid, path)
            else
              var b := DiffSub(marks[0].was, fid, subs[0], next);
              var r' := Descend(marks[1..], subs[1..], fid + 1, b.next);
              && r.ops == [Same(b.delta)] + r'.ops && r.next == r'.next
              && SameLines(r.ops, pid, path)
                 == PatchLines(b.delta, pid, path + [b.delta.dir.name]) + SameLines(r'.ops, pid, path)
  {
    hide PatchLines, DiffSub;
    var r := Descend(marks, subs, fid, next);
    if marks[0].GoneMark? {
      assert r.ops[1..] == Descend(marks[1..], subs, fid, next).ops;
    } else if marks[0].FreshMark? {
      assert r.ops[1..] == Descend(marks[1..], subs[1..], fid + 1, next).ops;
    } else {
      assert r.ops[1..] == Descend(marks[1..], subs[1..], fid + 1, DiffSub(marks[0].was, fid, subs[0], next).next).ops;
    }
  }

  /** Children that are gone, and new ones, have been dealt with when the lists were merged. */
  lemma {:induction false} PassStep(stack: seq<Pair>, plans: seq<Plan>, trail: seq<Node>, path: Path, od: Dir,
                                    fid0: nat, ops: seq<Op>, fops: seq<FileOp>,
                                    marks: seq<Mark>, subs: seq<Sub>, fid: nat, next: nat)
    requires Shape(stack, plans, trail, path) && marks != [] && Matches(marks, subs)
    ensures marks[0].GoneMark? ==>
              Within(stack, plans, trail, path, od, fid0, ops, fops, marks, subs, fid, next)
              == Within(stack, plans, trail, path, od, fid0, ops + [Gone(marks[0].was)], fops, marks[1..], subs, fid,
                        next)
    ensures marks[0].FreshMark? ==>
              Within(stack, plans, trail, path, od, fid0, ops, fops, marks, subs, fid, next)
              == Within(stack, plans, trail, path, od, fid0, ops + [Fresh(marks[0].dir)], fops, marks[1..], subs[1..],
                        fid + 1, next)
  {
    hide PatchLines, After, SameLines, FootLines, Descend;
    DescendNext(marks, subs, fid, next, od.id, path);
    if marks[0].GoneMark? {
      var rest := Descend(marks[1..], subs, fid, next).ops;
      assert ops + ([Gone(marks[0].was)] + rest) == (ops + [Gone(marks[0].was)]) + rest;
    } else if marks[0].FreshMark? {
      var rest := Descend(marks[1..], subs[1..], fid + 1, next).ops;
      assert ops + ([Fresh(marks[0].dir)] + rest) == (ops + [Fresh(marks[0].dir)]) + rest;
    }
  }

  lemma {:induction false} KeptNext(pid: nat, od: Dir, fid0: nat, ops: seq<Op>, fops: seq<FileOp>, marks: seq<Mark>,
                                    subs: seq<Sub>, fid: nat, path: Path, next: nat)
    requires marks != [] && Matches(marks, subs) && marks[0].KeptMark?
    ensures var b := DiffSub(marks[0].was, fid, subs[0], next);
            var l := LevelEnd(pid, od, fid0, ops, fops, marks, subs, fid, path, next);
            var l' := LevelEnd(pid, od, fid0, ops + [Same(b.delta)], fops, marks[1..], subs[1..], fid + 1, path,
                               b.next);
            && l.delta == l'.delta && l.next == l'.next
            && l.lines == PatchLines(b.delta, od.id, path + [marks[0].was.name]) + l'.lines
            && l.events == KeptStep(marks[0].was, subs[0], fid, next, path) + l'.events
  {
    hide PatchLines, SameLines, FootLines, Descend, KeptStep, DiffSub, Joined;
    var b := DiffSub(marks[0].was, fid, subs[0], next);
    DiffSubName(marks[0].was, fid, subs[0], next);
    DescendNext(marks, subs, fid, next, od.id, path);
    var rest := Descend(marks[1..], subs[1..], fid + 1, b.next).ops;
    assert ops + ([Same(b.delta)] + rest) == (ops + [Same(b.delta)]) + rest;
  }

  lemma DiffSubName(was: Dir, fid: nat, sub: Sub, next: nat)
    ensures DiffSub(was, fid, sub, next).delta.dir.name == was.name
  {
  }

  /** A child that stays but cannot be entered: all of its old contents go. */
  lemma {:induction false} RefuseStep(stack: seq<Pair>, plans: seq<Plan>, trail: seq<Node>, path: Path, od: Dir,
                                      fid0: nat, ops: seq<Op>, fops: seq<FileOp>,
                                      marks: seq<Mark>, subs: seq<Sub>, fid: nat, next: nat)
    requires Shape(stack, plans, trail, path) && marks != [] && Matches(marks, subs) && marks[0].KeptMark?
             && !subs[0].entered
    ensures var b, p := DiffSub(marks[0].was, fid, subs[0], next), path + [marks[0].was.name];
            Within(stack, plans, trail, path, od, fid0, ops, fops, marks, subs, fid, next)
            == Chain(PatchLines(b.delta, od.id, p), [Refuses(p)],
                     Within(stack, plans, trail, path, od, fid0, ops + [Same(b.delta)], fops, marks[1..], subs[1..],
                            fid + 1, b.next))
  {
    hide PatchLines, After, LevelEnd, DiffSub;
    var b, p := DiffSub(marks[0].was, fid, subs[0], next), path + [marks[0].was.name];
    KeptNext(Pid(stack), od, fid0, ops, fops, marks, subs, fid, path, next);
    var l' := LevelEnd(Pid(stack), od, fid0, ops + [Same(b.delta)], fops, marks[1..], subs[1..], fid + 1, path, b.next);
    ChainTwice(PatchLines(b.delta, od.id, p), l'.lines, [Refuses(p)], l'.events,
               After(stack, plans, trail, path, l'.delta, l'.next));
  }

  lemma {:induction false} AfterPushed(stack: seq<Pair>, plans: seq<Plan>, trail: seq<Node>, path: Path, f: Pair,
                                       g: Plan, n: Node, name: string, e: Delta, next: nat)
    requires Shape(stack, plans, trail, path) && |f.d.dirs| < |n.subs|
    ensures After(stack + [f], plans + [g], trail + [n], path + [name], e, next)
         == Chain([], [Leaves(path + [name])],
                  Within(stack, plans, trail, path, f.od, f.d.fid, g.ops + [Same(e)], g.fops, g.marks,
                         n.subs[|f.d.dirs| + 1..], |f.d.dirs| + 1, next))
  {
    hide LevelEnd;
    var stack', plans', trail', p := stack + [f], plans + [g], trail + [n], path + [name];
    assert stack'[..|stack|] == stack && plans'[..|plans|] == plans && trail'[..|trail|] == trail
           && p[..|path|] == path;
  }

  /** Into a child that stays. */
  lemma {:induction false} DownStep(stack: seq<Pair>, plans: seq<Plan>, trail: seq<Node>, path: Path, f: Pair,
                                    ops: seq<Op>, fops: seq<FileOp>, marks: seq<Mark>, n: Node, next: nat)
    requires Shape(stack, plans, trail, path) && |f.d.dirs| < |n.subs| && f.d.id == f.od.id
    requires marks != [] && Matches(marks, n.subs[|f.d.dirs|..]) && marks[0].KeptMark? && n.subs[|f.d.dirs|].entered
    ensures var k, p := |f.d.dirs|, path + [marks[0].was.name];
            Within(stack, plans, trail, path, f.od, f.d.fid, ops, fops, marks, n.subs[k..], k, next)
            == Chain([], [Enters(p)],
                     Entering(stack + [f], plans + [Plan(ops, fops, marks[1..])], trail + [n], p, marks[0].was, k,
                              n.subs[k].node, next))
  {
    hide PatchLines, After, LevelEnd, DiffDir, DiffTrace;
    var k, was := |f.d.dirs|, marks[0].was;
    var subs, p, g := n.subs[k..], path + [was.name], Plan(ops, fops, marks[1..]);
    var b := DiffDir(was, k, subs[0].node, next);
    assert subs[1..] == n.subs[k + 1..];
    KeptNext(Pid(stack), f.od, f.d.fid, ops, fops, marks, subs, k, path, next);
    AfterPushed(stack, plans, trail, path, f, g, n, was.name, b.delta, b.next);
    assert Pid(stack + [f]) == f.d.id;
    DownChain(stack, plans, trail, path, f, g, b, subs, p, DiffTrace(was, k, subs[0].node, next, p));
  }

  lemma {:induction false} DownChain(stack: seq<Pair>, plans: seq<Plan>, trail: seq<Node>, path: Path, f: Pair,
                                     g: Plan, b: Built, subs: seq<Sub>, p: Path, trace: seq<Event>)
    requires Shape(stack, plans, trail, path) && subs != []
    ensures var w := Within(stack, plans, trail, path, f.od, f.d.fid, g.ops + [Same(b.delta)], g.fops, g.marks,
                            subs[1..], |f.d.dirs| + 1, b.next);
            Chain(PatchLines(b.delta, f.od.id, p), [Enters(p)] + trace + [Leaves(p)], w)
            == Chain([], [Enters(p)], Chain(PatchLines(b.delta, f.od.id, p), trace, Chain([], [Leaves(p)], w)))
  {
    hide Within, PatchLines;
    var w := Within(stack, plans, trail, path, f.od, f.d.fid, g.ops + [Same(b.delta)], g.fops, g.marks, subs[1..],
                    |f.d.dirs| + 1, b.next);
    var lines := PatchLines(b.delta, f.od.id, p);
    ChainTwice(lines, [], trace, [Leaves(p)], w);
    ChainTwice([], lines + [], [Enters(p)], trace + [Leaves(p)], w);
    assert [] + (lines + []) == lines && [Enters(p)] + (trace + [Leaves(p)]) == [Enters(p)] + trace + [Leaves(p)];
  }

  lemma {:induction false} LeaveStep(stack: seq<Pair>, plans: seq<Plan>, trail: seq<Node>, path: Path, od: Dir,
                                     fid0: nat, ops: seq<Op>, fops: seq<FileOp>, fid: nat, next: nat)
    requires Shape(stack, plans, trail, path)
    ensures var e := Joined(od, fid0, ops, fops);
            Within(stack, plans, trail, path, od, fid0, ops, fops, [], [], fid, next)
            == Chain(FootLines(e, Pid(stack)), [], After(stack, plans, trail, path, e, next))
  {
    hide After, FootLines;
    assert ops + [] == ops;
    assert [] + FootLines(Joined(od, fid0, ops, fops), Pid(stack))
        == FootLines(Joined(od, fid0, ops, fops), Pid(stack));
  }
}
