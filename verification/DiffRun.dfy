/** The loop of dt_diff. */
module DiffRun {
  import opened Wrappers
  import opened Trees
  import opened Printing
  import opened Scan
  import opened Deltas
  import opened Diff
  import opened Walks
  import R = Readdir
  import W = FullWalk
  import opened DiffLists
  import opened DiffWalk
  import Basics

  /** The two trees in step: at every level the old and the new dentry have the same name and id, and
      the old children left are those of the new ones left that are not new. */
  ghost predicate InStep(d: Dir, od: Dir, kids: seq<Kid>, olds: seq<Dir>, g: Plan, n: Node, k: nat) {
    && k <= |n.subs| && Proper(n) && Matches(g.marks, n.subs[k..])
    && kids == KidsOf(g.marks, k) && olds == KeptOlds(g.marks)
    && d.name == od.name && d.id == od.id
    && d.dirs == News(g.ops) && d.files == FileNews(g.fops) && |d.files| == |n.files|
    && d.items == |n.subs| + |n.files| && d.size == FilesTotal(d.files)
  }

  ghost predicate AllInStep(stack: seq<Pair>, plans: seq<Plan>, trail: seq<Node>)
    requires |stack| == |plans| == |trail|
  {
    forall i :: 0 <= i < |stack| ==>
                  InStep(stack[i].d, stack[i].od, stack[i].kids, stack[i].olds, plans[i], trail[i],
                         |stack[i].d.dirs| + 1)
  }

  /** dt_printpath: the names from the root down. */
  function PathTo(stack: seq<Pair>, d: Dir): Path {
    if stack == [] then [] else PathTo(stack[..|stack| - 1], stack[|stack| - 1].d) + [d.name]
  }

  lemma {:induction false} PathBelow(stack: seq<Pair>, f: Pair, c: Dir)
    ensures PathTo(stack + [f], c) == PathTo(stack, f.d) + [c.name]
  {
    assert (stack + [f])[..|stack|] == stack;
  }

  ghost function Left(stack: seq<Pair>, trail: seq<Node>): nat
    requires |stack| == |trail|
    decreases |stack|
  {
    if stack == [] then 0
    else
      var m := |stack| - 1;
      var k := |stack[m].d.dirs| + 1;
      (if k <= |trail[m].subs| then W.WeightOf(trail[m].subs[k..]) else 0) + Left(stack[..m], trail[..m])
  }

  lemma {:induction false} LeftPushed(stack: seq<Pair>, trail: seq<Node>, f: Pair, n: Node)
    requires |stack| == |trail| && |f.d.dirs| < |n.subs|
    ensures Left(stack + [f], trail + [n]) == W.WeightOf(n.subs[|f.d.dirs| + 1..]) + Left(stack, trail)
  {
    assert (stack + [f])[..|stack|] == stack && (trail + [n])[..|trail|] == trail;
  }

  // ---------------------------------------------------------------- marks that need no step

  /** The plan once the old directories that are gone are passed over. */
  ghost function Trim(g: Plan): Plan
    decreases |g.marks|
  {
    if g.marks != [] && g.marks[0].GoneMark? then Trim(Plan(g.ops + [Gone(g.marks[0].was)], g.fops, g.marks[1..]))
    else g
  }

  lemma {:induction false} NewsOne(ops: seq<Op>, op: Op)
    ensures News(ops + [op]) == News(ops) + (if op.Gone? then [] else if op.Fresh? then [op.dir] else [op.delta.dir])
    decreases |ops|
  {
    if ops == [] {
      assert ops + [op] == [op] && [op][1..] == [];
    } else {
      NewsOne(ops[1..], op);
      assert (ops + [op])[1..] == ops[1..] + [op] && (ops + [op])[0] == ops[0];
    }
  }

  lemma {:induction false} TrimStep(stack: seq<Pair>, plans: seq<Plan>, trail: seq<Node>, path: Path, d: Dir, od: Dir,
                                    kids: seq<Kid>, olds: seq<Dir>, g: Plan, n: Node, next: nat)
    requires Shape(stack, plans, trail, path) && InStep(d, od, kids, olds, g, n, |d.dirs|)
    ensures var t := Trim(g);
            && InStep(d, od, kids, olds, t, n, |d.dirs|) && t.fops == g.fops && (t.marks == [] || !t.marks[0].GoneMark?)
            && Within(stack, plans, trail, path, od, d.fid, g.ops, g.fops, g.marks, n.subs[|d.dirs|..], |d.dirs|, next)
               == Within(stack, plans, trail, path, od, d.fid, t.ops, t.fops, t.marks, n.subs[|d.dirs|..], |d.dirs|,
                         next)
    decreases |g.marks|
  {
    hide Within;
    if g.marks != [] && g.marks[0].GoneMark? {
      var g' := Plan(g.ops + [Gone(g.marks[0].was)], g.fops, g.marks[1..]);
      NewsOne(g.ops, Gone(g.marks[0].was));
      PassStep(stack, plans, trail, path, od, d.fid, g.ops, g.fops, g.marks, n.subs[|d.dirs|..], |d.dirs|, next);
      TrimStep(stack, plans, trail, path, d, od, kids, olds, g', n, next);
    }
  }

  /** With no child left, nothing of the plan is left either. */
  lemma TrimEnd(d: Dir, od: Dir, kids: seq<Kid>, olds: seq<Dir>, g: Plan, n: Node, k: nat)
    requires InStep(d, od, kids, olds, g, n, k) && kids == [] && (g.marks == [] || !g.marks[0].GoneMark?)
    ensures g.marks == [] && n.subs[k..] == [] && k == |n.subs|
  {
  }

  lemma {:induction false} FirstKid(d: Dir, od: Dir, kids: seq<Kid>, olds: seq<Dir>, g: Plan, n: Node, k: nat)
    requires InStep(d, od, kids, olds, g, n, k) && kids != [] && (g.marks == [] || !g.marks[0].GoneMark?)
    ensures g.marks != [] && k < |n.subs| && MarkName(g.marks[0]) == n.subs[k].name == kids[0].d.name
    ensures kids[0].isNew <==> g.marks[0].FreshMark?
    ensures g.marks[0].FreshMark? ==> kids[0].d == g.marks[0].dir && kids[1..] == KidsOf(g.marks[1..], k + 1)
                                      && olds == KeptOlds(g.marks[1..])
    ensures g.marks[0].KeptMark? ==>
              && kids[0].d == Listed(g.marks[0].was.name, g.marks[0].was.id, k, [], [])
              && kids[1..] == KidsOf(g.marks[1..], k + 1)
              && olds != [] && olds[0] == g.marks[0].was && olds[1..] == KeptOlds(g.marks[1..])
    ensures Matches(g.marks[1..], n.subs[k + 1..]) && n.subs[k..][1..] == n.subs[k + 1..] && n.subs[k..][0] == n.subs[k]
    ensures W.WeightOf(n.subs[k..]) == W.Weight(n.subs[k].node) + W.WeightOf(n.subs[k + 1..])
  {
    assert g.marks != [] && k < |n.subs|;
    W.BlanksNext(n.subs, k, 0, 0);
  }

  // ---------------------------------------------------------------- a child that cannot be entered

  lemma {:induction false} SettledMarks(marks: seq<Mark>, fid: nat, next: nat, pid: nat, path: Path)
    requires Matches(marks, [])
    ensures Descend(marks, [], fid, next) == BuiltAll(Settled(marks), next)
    ensures SameLines(Settled(marks), pid, path) == [] && News(Settled(marks)) == []
    decreases |marks|
  {
    if marks != [] {
      SettledMarks(marks[1..], fid, next, pid, path);
      assert Settled(marks)[1..] == Settled(marks[1..]);
    }
  }

  lemma {:induction false} RefusedPrints(was: Dir, fid: nat, sub: Sub, next: nat, pid: nat, path: Path)
    requires !sub.entered
    ensures var m, fops, b := Merge(was.dirs, [], 0, next), MergeFiles(was.files, [], 0), DiffSub(was, fid, sub, next);
            && PatchLines(b.delta, pid, path) == MergedLines(was.id, path, m.marks, fops) + FootLines(b.delta, pid)
            && b.next == m.next && b.delta.was == was && b.delta.dir == Listed(was.name, was.id, fid, [], [])
  {
    hide PatchLines, MergedLines, FootLines, SameLines;
    var m, fops := Merge(was.dirs, [], 0, next), MergeFiles(was.files, [], 0);
    MergeMatches(was.dirs, [], 0, next);
    SettledMarks(m.marks, 0, m.next, was.id, path);
    JoinedPrints(was, fid, m.marks, [], m.next, fops, pid, path);
    MergeFilesFits(was.files, [], 0);
    assert [] + FootLines(DiffSub(was, fid, sub, next).delta, pid)
        == FootLines(DiffSub(was, fid, sub, next).delta, pid);
  }

  // ---------------------------------------------------------------- the loop

  /** The context of the walk: the current directory in the new share (`d`) and in the old tree (`od`),
      and their children still to come. */
  class Context {
    const wk: Walker
    const io: W.Stdout
    var d: Dir
    var od: Dir
    var kids: seq<Kid>
    var olds: seq<Dir>
    var stack: seq<Pair>
    var id: nat
    ghost var plan: Plan
    ghost var plans: seq<Plan>

    constructor (wk: Walker, io: W.Stdout, d: Dir, od: Dir, id: nat)
      ensures this.wk == wk && this.io == io && this.d == d && this.od == od && this.id == id
      ensures stack == [] && plans == []
    {
      this.wk, this.io, this.d, this.od, this.id := wk, io, d, od, id;
      kids, olds, stack, plan, plans := [], [], [], Plan([], [], []), [];
    }

    /** The walker is where the dentries say, and the two trees are in step all the way up. */
    ghost predicate Valid()
      reads this, wk
    {
      && |wk.above| == |stack| == |plans| && |wk.cwd| == |stack| && wk.cwd == PathTo(stack, d)
      && wk.Valid() && Proper(wk.here) && AllInStep(stack, plans, wk.above) && Solid(wk.cwd)
    }

    /** Nothing has been printed yet that would end the program. */
    ghost predicate Living()
      reads this, io
    {
      io.oldRoot.None? ==> NoDrops(io.lines)
    }

    /** The next of all the lines to be printed has ended the program. */
    ghost predicate Died(total: Patched)
      reads this, io
    {
      && io.oldRoot.None? && NoDrops(io.lines) && |io.lines| < |total.lines|
      && io.lines == total.lines[..|io.lines|] && LineShown(total.lines[|io.lines|], None) == None
    }

    ghost predicate Inside(total: Patched)
      reads this, wk, io
    {
      && Valid() && Living() && wk.Listed() && InStep(d, od, kids, olds, plan, wk.here, |d.dirs|)
      && total == Chain(io.lines, wk.log,
                        DiffWalk.Within(stack, plans, wk.above, wk.cwd, od, d.fid, plan.ops, plan.fops, plan.marks,
                                        wk.here.subs[|d.dirs|..], |d.dirs|, id))
    }

    ghost predicate Before(total: Patched)
      reads this, wk, io
    {
      && Valid() && Living() && wk.Unread() && d == Listed(od.name, od.id, d.fid, [], [])
      && total == Chain(io.lines, wk.log, DiffWalk.Entering(stack, plans, wk.above, wk.cwd, od, d.fid, wk.here, id))
    }

    ghost predicate Finished(total: Patched, e: Delta)
      reads this, wk, io
    {
      && Valid() && Living() && e.was == od && e.dir == d
      && total == Chain(io.lines, wk.log, DiffWalk.After(stack, plans, wk.above, wk.cwd, e, id))
    }

    ghost function Work(entering: bool): nat
      reads this, wk
      requires Valid()
    {
      (if entering then W.Weight(wk.here) else 0) + Left(stack, wk.above)
    }

    /** dt_list_diff_childs and dt_list_diff on one directory, whether it could be read or not. */
    method MergeLists(c: Dir, was: Dir, path: Path, dirs: seq<Dir>, files: seq<File>, ghost n: Node)
      returns (died: bool, kids': seq<Kid>, olds': seq<Dir>, id': nat)
      requires Unnumbered(dirs, n.subs) && files == Numbering(n.files, |n.subs|)
      requires wk.Valid() && wk.Listed()
      requires dirs != [] ==> wk.here.subs == n.subs && wk.cwd == path && Proper(wk.here) && |wk.above| == |wk.cwd|
      modifies io, wk
      ensures wk.Valid() && wk.Listed() && wk.here == old(wk.here) && wk.above == old(wk.above) && wk.cwd == old(wk.cwd)
      ensures died <==> io.oldRoot.None? && AnyGone(Merge(was.dirs, n.subs, 0, id).marks)
      ensures died ==>
                var before := BeforeGone(Merge(was.dirs, n.subs, 0, id).marks);
                io.lines == old(io.lines) + ([PathLine(Mod, c.id, path)] + MarkLines(before, c.id, path))
      ensures !died ==>
                var m, fops := Merge(was.dirs, n.subs, 0, id), MergeFiles(was.files, n.files, |n.subs|);
                && kids' == KidsOf(m.marks, 0) && olds' == KeptOlds(m.marks) && id' == m.next
                && io.lines == old(io.lines) + MergedLines(c.id, path, m.marks, fops)
      ensures !died ==> wk.log == old(wk.log) + MergeTrace(was.dirs, n.subs, path)
    {
      hide Walker.Valid, Merge, MergeFiles, MarkLines, FileOpLines, AnyChange, AnyFileChange, AnyGone, MergeTrace;
      ghost var from := io.lines;
      ghost var marks := Merge(was.dirs, n.subs, 0, id).marks;
      var once := new Once(io, PathLine(Mod, c.id, path));
      died, kids', olds', id' := ListDiffChilds(once, wk, c.id, path, was.dirs, dirs, id, n.subs);
      if died {
        Basics.Regroup(from, [once.line], MarkLines(BeforeGone(marks), c.id, path));
        return;
      }
      if !once.done {
        NothingPrinted(marks, c.id, path);
      }
      ListDiff(once, c.id, was.files, files, n.files, |n.subs|, from, MarkLines(marks, c.id, path), AnyChange(marks));
      ghost var head := if once.done then [once.line] else [];
      Basics.Regroup(from, head, MarkLines(marks, c.id, path)
                     + FileOpLines(MergeFiles(was.files, n.files, |n.subs|), c.id));
    }

    /** The rest of dt_on_l_diff: a new size or count of the directory is printed, under its old position. */
    method Foot(c: Dir, was: Dir, pid: nat, ghost e: Delta)
      requires e.was == was && e.dir == c
      modifies io
      ensures io.lines == old(io.lines) + FootLines(e, pid)
    {
      if c.size != was.size || c.items != was.items {
        io.Print([DirLine(Mod, pid, was.(size := c.size, items := c.items))]);
      }
    }

    /** Whether the lines of a merge end the program, when they are the next to be printed. */
    lemma MergeDies(total: Patched, was: seq<Line>, id: nat, path: Path, marks: seq<Mark>, fops: seq<FileOp>)
      requires Solid(path) && (io.oldRoot.None? ==> NoDrops(was))
      requires var lines := was + MergedLines(id, path, marks, fops);
               |lines| <= |total.lines| && total.lines[..|lines|] == lines
      ensures var part := [PathLine(Mod, id, path)] + MarkLines(BeforeGone(marks), id, path);
              io.oldRoot.None? && AnyGone(marks) && io.lines == was + part ==> Died(total)
      ensures io.lines == was + MergedLines(id, path, marks, fops) && !(io.oldRoot.None? && AnyGone(marks)) ==> Living()
    {
      hide AnyGone, MarkLines, MergedLines, LineShown;
      if AnyGone(marks) {
        DeadPoint(marks, fops, id, path);
        var part := [PathLine(Mod, id, path)] + MarkLines(BeforeGone(marks), id, path);
        var lines := was + MergedLines(id, path, marks, fops);
        assert lines[..|was + part|] == was + part && lines[|was + part|] == MergedLines(id, path, marks, fops)[|part|];
        assert total.lines[..|lines|][..|was + part|] == total.lines[..|was + part|];
      } else {
        MergedLive(marks, fops, id, path);
      }
    }

    /** The second half of dt_on_e_diff: the lists of the current directory are merged. */
    method MergeHere(ghost total: Patched, dirs: seq<Dir>, files: seq<File>, ghost n: Node) returns (died: bool)
      requires Unnumbered(dirs, n.subs) && files == Numbering(n.files, |n.subs|) && d.id == od.id
      requires wk.Valid() && wk.Listed() && wk.here == n && wk.cwd == PathTo(stack, d) && Solid(wk.cwd) && Living()
      requires |wk.above| == |wk.cwd| == |stack| == |plans| && Proper(n)
      requires var m, fops := Merge(od.dirs, n.subs, 0, id), MergeFiles(od.files, n.files, |n.subs|);
               total == Chain(io.lines, wk.log,
                              Chain(MergedLines(od.id, wk.cwd, m.marks, fops), MergeTrace(od.dirs, n.subs, wk.cwd),
                                    DiffWalk.Within(stack, plans, wk.above, wk.cwd, od, d.fid, [], fops, m.marks,
                                                    n.subs, 0, m.next)))
      modifies this`kids, this`olds, this`id, this`plan, wk, io
      ensures wk.Valid() && wk.Listed() && wk.here == n && wk.above == old(wk.above) && wk.cwd == old(wk.cwd)
      ensures died ==> Died(total)
      ensures !died ==>
                var m, fops := Merge(od.dirs, n.subs, 0, old(id)), MergeFiles(od.files, n.files, |n.subs|);
                && Living() && kids == KidsOf(m.marks, 0) && olds == KeptOlds(m.marks)
                && plan == Plan([], fops, m.marks)
                && total == Chain(io.lines, wk.log,
                                  DiffWalk.Within(stack, plans, wk.above, wk.cwd, od, d.fid, [], fops, m.marks,
                                                  n.subs, 0, id))
    {
      hide Walker.Valid, DiffWalk.Within, Numbering, Merge, MergeFiles, MergeTrace, MergedLines, AnyGone, MarkLines;
      hide Proper, Unnumbered, KidsOf, KeptOlds;
      ghost var was, log, path := io.lines, wk.log, wk.cwd;
      ghost var m, fops := Merge(od.dirs, n.subs, 0, id), MergeFiles(od.files, n.files, |n.subs|);
      ghost var lines, events := MergedLines(od.id, path, m.marks, fops), MergeTrace(od.dirs, n.subs, path);
      ghost var w := DiffWalk.Within(stack, plans, wk.above, path, od, d.fid, [], fops, m.marks, n.subs, 0, m.next);
      ChainTwice(was, lines, log, events, w);
      assert total.lines == (was + lines) + w.lines;
      died, kids, olds, id := MergeLists(d, od, PathTo(stack, d), dirs, files, n);
      MergeDies(total, was, od.id, path, m.marks, fops);
      if !died {
        plan := Plan([], fops, m.marks);
      }
    }

    /** dt_on_e_diff */
    method OnEnter(ghost total: Patched) returns (died: bool)
      requires Before(total)
      modifies this`d, this`kids, this`olds, this`id, this`plan, wk, io
      ensures died ==> Died(total)
      ensures !died ==> Inside(total) && stack == old(stack)
      ensures !died ==> old(Work(true)) == 1 + W.WeightOf(wk.here.subs[|d.dirs|..]) + Work(false)
    {
      hide Walker.Valid, DiffWalk.Within, DiffWalk.Entering, AllInStep, Left, Numbering;
      hide Merge, MergeFiles, MergeTrace, MergedLines, Matches;
      ghost var n, path := wk.here, wk.cwd;
      EnterStep(stack, plans, wk.above, path, od, d.fid, n, id);
      ghost var m, fops := Merge(od.dirs, n.subs, 0, id), MergeFiles(od.files, n.files, |n.subs|);
      ReadFirst(io.lines, MergedLines(od.id, path, m.marks, fops), wk.log, [Reads(path)],
                MergeTrace(od.dirs, n.subs, path),
                DiffWalk.Within(stack, plans, wk.above, path, od, d.fid, [], fops, m.marks, n.subs, 0, m.next));
      var dirs, files := R.ReadDir(wk, None);
      NumberingShape(n.files, |n.subs|);
      var sum := W.SumFiles(files);
      d := d.(items := |dirs| + |files|, files := files, size := d.size + sum);
      PathSame(stack, old(d), d);
      died := MergeHere(total, dirs, files, n);
      MergeFilesFits(od.files, n.files, |n.subs|);
      assert n.subs[0..] == n.subs;
    }

    /** dt_on_l_diff */
    method OnLeave(ghost total: Patched) returns (ghost e: Delta)
      requires Inside(total) && kids == [] && (plan.marks == [] || !plan.marks[0].GoneMark?)
      modifies this`d, io
      ensures Finished(total, e)
    {
      hide Walker.Valid, DiffWalk.Within, DiffWalk.After, AllInStep, FootLines;
      TrimEnd(d, od, kids, olds, plan, wk.here, |d.dirs|);
      LeaveStep(stack, plans, wk.above, wk.cwd, od, d.fid, plan.ops, plan.fops, |d.dirs|, id);
      e := Joined(od, d.fid, plan.ops, plan.fops);
      var sum := W.SumDirs(d.dirs);
      d := d.(size := d.size + sum);
      assert d == e.dir;
      ghost var pid := DiffWalk.Pid(stack);
      FootLive(e, pid);
      Foot(d, od, if stack == [] then 0 else stack[|stack| - 1].d.id, e);
      PathSame(stack, old(d), d);
      ChainTwice(old(io.lines), FootLines(e, pid), wk.log, [], DiffWalk.After(stack, plans, wk.above, wk.cwd, e, id));
      assert wk.log + [] == wk.log;
    }

    /** A new child: it was read when the lists were merged. */
    method PassNew(ghost total: Patched)
      requires Inside(total) && kids != [] && kids[0].isNew && (plan.marks == [] || !plan.marks[0].GoneMark?)
      modifies this`d, this`kids, this`plan
      ensures Inside(total) && |kids| < |old(kids)| && Work(false) == old(Work(false))
      ensures W.WeightOf(wk.here.subs[|d.dirs|..]) <= W.WeightOf(old(wk.here.subs[|d.dirs|..]))
    {
      hide Walker.Valid, DiffWalk.Within, AllInStep;
      ghost var k, m := |d.dirs|, plan.marks[0];
      FirstKid(d, od, kids, olds, plan, wk.here, k);
      PassStep(stack, plans, wk.above, wk.cwd, od, d.fid, plan.ops, plan.fops, plan.marks, wk.here.subs[k..], k, id);
      NewsOne(plan.ops, Fresh(m.dir));
      plan := Plan(plan.ops + [Fresh(m.dir)], plan.fops, plan.marks[1..]);
      d := d.(dirs := d.dirs + [kids[0].d]);
      kids := kids[1..];
      PathSame(stack, old(d), d);
    }

    /** A child that stays: either the walk goes down to it, or, when it cannot be entered, all of its
        old contents are gone. */
    method GoKept(ghost total: Patched) returns (died: bool, went: bool)
      requires Inside(total) && kids != [] && !kids[0].isNew && (plan.marks == [] || !plan.marks[0].GoneMark?)
      modifies this, wk, io
      ensures died ==> !went && Died(total)
      ensures went ==> Before(total) && |stack| == |old(stack)| + 1
      ensures went ==> Work(true) <= W.WeightOf(old(wk.here.subs[|d.dirs|..])) + old(Work(false))
      ensures !died && !went ==>
                Inside(total) && stack == old(stack) && |kids| < |old(kids)| && Work(false) == old(Work(false))
      ensures !died && !went ==>
                W.WeightOf(wk.here.subs[|d.dirs|..]) <= W.WeightOf(old(wk.here.subs[|d.dirs|..]))
    {
      hide Walker.Valid, DiffWalk.Within, DiffWalk.Entering, Merge, MergeFiles, AllInStep, PatchLines, InStep;
      ghost var k, g, n := |d.dirs|, plan, wk.here;
      FirstKid(d, od, kids, olds, plan, n, k);
      ghost var rest := n.subs[k..];
      Stepped(d, od, kids, olds, plan, n, k);
      R.ProperSorted(n);
      FindAt(n.subs, k);
      var kid, o := kids[0].d, olds[0];
      ghost var trail, path := wk.above, wk.cwd;
      ghost var f := Pair(d, od, kids[1..], olds[1..]);
      if rest[0].entered {
        DownStep(stack, plans, trail, path, f, g.ops, g.fops, g.marks, n, id);
        PushInStep(stack, plans, trail, f, g, n);
      } else {
        RefuseStep(stack, plans, trail, path, od, d.fid, g.ops, g.fops, g.marks, rest, k, id);
      }
      died := false;
      went := wk.GoChild(kid.name);
      if went {
        ghost var g' := Plan(g.ops, g.fops, g.marks[1..]);
        ghost var w := DiffWalk.Entering(stack + [f], plans + [g'], trail + [n], wk.cwd, o, k, wk.here, id);
        ChainTwice(io.lines, [], old(wk.log), [Enters(wk.cwd)], w);
        assert io.lines + [] == io.lines;
        LeftPushed(stack, trail, f, n);
        GoDown(total, kid, o, f, g');
      } else {
        ghost var b, p := DiffSub(o, k, rest[0], id), path + [kid.name];
        ghost var w := DiffWalk.Within(stack, plans, trail, path, od, d.fid, g.ops + [Same(b.delta)], g.fops,
                                       g.marks[1..], rest[1..], k + 1, b.next);
        ChainTwice(io.lines, [], old(wk.log), [Refuses(p)], Chain(PatchLines(b.delta, d.id, p), [], w));
        RefusedChain(io.lines, wk.log, PatchLines(b.delta, d.id, p), [Refuses(p)], w);
        died := Refused(total, kid, o, b);
      }
    }

    /** The walk takes the child for its current directory. */
    method GoDown(ghost total: Patched, kid: Dir, o: Dir, ghost f: Pair, ghost g: Plan)
      requires kids != [] && olds != [] && f == Pair(d, od, kids[1..], olds[1..])
      requires |stack| + 1 == |plans| + 1 == |wk.above| == |wk.cwd| && wk.cwd == PathTo(stack, d) + [kid.name]
      requires wk.Valid() && wk.Unread() && Living() && Solid(wk.cwd)
      requires AllInStep(stack + [f], plans + [g], wk.above) && Proper(wk.here)
               && kid == Listed(o.name, o.id, kid.fid, [], [])
      requires total == Chain(io.lines, wk.log,
                              DiffWalk.Entering(stack + [f], plans + [g], wk.above, wk.cwd, o, kid.fid, wk.here, id))
      modifies this
      ensures Before(total) && stack == old(stack) + [f]
      ensures Work(true) == W.Weight(wk.here) + Left(old(stack) + [f], wk.above)
    {
      hide Walker.Valid, DiffWalk.Entering, AllInStep;
      PathBelow(stack, f, kid);
      stack, plans := stack + [Pair(d, od, kids[1..], olds[1..])], plans + [g];
      d, od, kids, olds := kid, o, [], [];
    }

    /** The lists of a child that cannot be entered are merged with empty ones. */
    method Refused(ghost total: Patched, kid: Dir, o: Dir, ghost b: Built) returns (died: bool)
      requires Valid() && Living() && kid.name != "" && wk.Listed()
               && InStep(d, od, kids, olds, plan, wk.here, |d.dirs|)
      requires kids != [] && !kids[0].isNew && plan.marks != [] && plan.marks[0].KeptMark?
      requires olds != [] && kid == kids[0].d && o == olds[0] && |d.dirs| < |wk.here.subs|
               && !wk.here.subs[|d.dirs|].entered
      requires b == DiffSub(o, |d.dirs|, wk.here.subs[|d.dirs|], id)
      requires total == Chain(io.lines, wk.log, Chain(PatchLines(b.delta, d.id, wk.cwd + [kid.name]), [],
                                                      DiffWalk.Within(stack, plans, wk.above, wk.cwd, od, d.fid,
                                                                      plan.ops + [Same(b.delta)], plan.fops,
                                                                      plan.marks[1..],
                                                                      wk.here.subs[|d.dirs|..][1..], |d.dirs| + 1,
                                                                      b.next)))
      modifies this, wk, io
      ensures died ==> Died(total)
      ensures !died ==> Inside(total) && stack == old(stack) && |kids| < |old(kids)| && Work(false) == old(Work(false))
      ensures !died ==> W.WeightOf(wk.here.subs[|d.dirs|..]) <= W.WeightOf(old(wk.here.subs[|d.dirs|..]))
    {
      hide Walker.Valid, DiffWalk.Within, AllInStep, PatchLines, DiffSub, InStep;
      ghost var k, p, g := |d.dirs|, wk.cwd + [kid.name], plan;
      FirstKid(d, od, kids, olds, plan, wk.here, k);
      RefusedDir(o, k, wk.here.subs[k], id);
      PastKept(d, od, kids, olds, plan, wk.here, b.delta);
      PathSame(stack, d, d.(dirs := d.dirs + [kid]));
      ghost var w := DiffWalk.Within(stack, plans, wk.above, wk.cwd, od, d.fid, g.ops + [Same(b.delta)], g.fops,
                                     g.marks[1..], wk.here.subs[k + 1..], k + 1, b.next);
      ChainTwice(io.lines, PatchLines(b.delta, d.id, p), wk.log, [], w);
      assert wk.log + [] == wk.log;
      died := PrintRefused(total, kid, o, k, wk.here.subs[k], b);
      if !died {
        Advance(kid, b.delta);
      }
    }

    method PrintRefused(ghost total: Patched, kid: Dir, o: Dir, ghost k: nat, ghost sub: Sub, ghost b: Built)
      returns (died: bool)
      requires kid == Listed(o.name, o.id, k, [], []) && !sub.entered && b == DiffSub(o, k, sub, id)
      requires wk.cwd == PathTo(stack, d) && wk.Valid() && wk.Listed()
      requires Living() && Solid(wk.cwd) && kid.name != ""
      requires var lines := io.lines + PatchLines(b.delta, d.id, wk.cwd + [kid.name]);
               |lines| <= |total.lines| && total.lines[..|lines|] == lines
      modifies this`id, io, wk
      ensures died ==> Died(total)
      ensures !died ==>
                Living() && io.lines == old(io.lines) + PatchLines(b.delta, d.id, wk.cwd + [kid.name]) && id == b.next
      ensures wk.Valid() && wk.Listed()
      ensures !died ==> wk.log == old(wk.log)
      ensures wk.here == old(wk.here) && wk.above == old(wk.above) && wk.cwd == old(wk.cwd)
    {
      hide Walker.Valid, Merge, MergeFiles, PatchLines, MergedLines, FootLines, DiffSub, MergeTrace, AnyGone, LineShown;
      ghost var m, fops := Merge(o.dirs, [], 0, id), MergeFiles(o.files, [], 0);
      ghost var was, path := io.lines, wk.cwd + [kid.name];
      RefusedPrints(o, k, sub, id, d.id, path);
      NoTrace(o.dirs, path);
      PartFirst(was, MergedLines(o.id, path, m.marks, fops), FootLines(b.delta, d.id), total.lines);
      var kids', olds', next;
      died, kids', olds', next := MergeLists(kid, o, PathTo(stack, d) + [kid.name], [], [], Node([], []));
      MergeDies(total, was, o.id, path, m.marks, fops);
      if !died {
        FootLive(b.delta, d.id);
        Foot(kid, o, d.id, b.delta);
        Basics.Regroup(was, MergedLines(o.id, path, m.marks, fops), FootLines(b.delta, d.id));
        id := next;
      }
    }

    method Advance(kid: Dir, ghost e: Delta)
      requires kids != [] && olds != [] && plan.marks != []
      modifies this`d, this`kids, this`olds, this`plan
      ensures d == old(d).(dirs := old(d).dirs + [kid]) && kids == old(kids)[1..] && olds == old(olds)[1..]
      ensures plan == Plan(old(plan).ops + [Same(e)], old(plan).fops, old(plan).marks[1..])
    {
      plan := Plan(plan.ops + [Same(e)], plan.fops, plan.marks[1..]);
      d := d.(dirs := d.dirs + [kid]);
      kids, olds := kids[1..], olds[1..];
    }

    /** Old directories that are gone need no step. */
    ghost method Pass(total: Patched)
      requires Inside(total)
      modifies this`plan
      ensures Inside(total) && (plan.marks == [] || !plan.marks[0].GoneMark?)
    {
      hide Walker.Valid, DiffWalk.Within, AllInStep, InStep, Trim;
      TrimStep(stack, plans, wk.above, wk.cwd, d, od, kids, olds, plan, wk.here, id);
      plan := Trim(plan);
    }

    /** The loop of dt_go_c_diff and of dt_go_sop_diff. */
    method NextChild(ghost total: Patched) returns (died: bool, went: bool)
      requires Inside(total)
      modifies this, wk, io
      ensures died ==> !went && Died(total)
      ensures went ==> Before(total) && |stack| == |old(stack)| + 1
      ensures !died && !went ==> Inside(total) && kids == [] && (plan.marks == [] || !plan.marks[0].GoneMark?)
                                 && stack == old(stack)
      ensures !died ==> Work(went) <= W.WeightOf(old(wk.here.subs[|d.dirs|..])) + old(Work(false))
    {
      hide Walker.Valid, DiffWalk.Within, DiffWalk.Entering, AllInStep, Left;
      died, went := false, false;
      Pass(total);
      while !went && kids != []
        invariant !died
        invariant went ==> Before(total) && |stack| == |old(stack)| + 1
        invariant !went ==> Inside(total) && (plan.marks == [] || !plan.marks[0].GoneMark?) && stack == old(stack)
        invariant !went ==> W.WeightOf(wk.here.subs[|d.dirs|..]) <= W.WeightOf(old(wk.here.subs[|d.dirs|..]))
                            && Work(false) == old(Work(false))
        invariant went ==> Work(true) <= W.WeightOf(old(wk.here.subs[|d.dirs|..])) + old(Work(false))
        decreases if went then 0 else 1, |kids|
      {
        if kids[0].isNew {
          PassNew(total);
        } else {
          died, went := GoKept(total);
          if died {
            return;
          }
        }
        if !went {
          Pass(total);
        }
      }
    }

    /** Back to the directory above, in both trees. */
    method GoUp(ghost total: Patched, ghost e: Delta)
      requires Finished(total, e) && stack != []
      modifies this, wk
      ensures Inside(total) && |stack| == |old(stack)| - 1
      ensures W.WeightOf(wk.here.subs[|d.dirs|..]) + Work(false) == old(Work(false))
    {
      hide Walker.Valid, DiffWalk.Within, AllInStep, InStep;
      ghost var trail, path, m := wk.above, wk.cwd, |stack| - 1;
      ghost var f, g := stack[m], plans[m];
      ghost var k := |f.d.dirs| + 1;
      UpInStep(stack, plans, trail, e);
      ghost var w := DiffWalk.Within(stack[..m], plans[..m], trail[..m], path[..|path| - 1], f.od, f.d.fid,
                                     g.ops + [Same(e)], g.fops, g.marks, trail[m].subs[k..], k, id);
      assert DiffWalk.After(stack, plans, trail, path, e, id) == Chain([], [Leaves(path)], w);
      hide Walker.Valid, DiffWalk.After, Left;
      wk.GoParent();
      ChainTwice(io.lines, [], old(wk.log), [Leaves(path)], w);
      assert io.lines + [] == io.lines;
      assert PathTo(stack[..m], f.d) == wk.cwd;
      Rise(total, e);
    }

    /** The dentries above become the current ones again. */
    method Rise(ghost total: Patched, ghost e: Delta)
      requires stack != [] && |plans| == |stack| && |wk.above| == |wk.cwd| == |stack| - 1 && e.dir == d
      requires wk.cwd == PathTo(stack[..|stack| - 1], stack[|stack| - 1].d)
      requires wk.Valid() && wk.Listed() && Proper(wk.here) && Living() && Solid(wk.cwd)
               && AllInStep(stack[..|stack| - 1], plans[..|stack| - 1], wk.above)
      requires var m := |stack| - 1;
               var f, g := stack[m], plans[m];
               var k := |f.d.dirs| + 1;
               && InStep(f.d.(dirs := f.d.dirs + [d]), f.od, f.kids, f.olds, Plan(g.ops + [Same(e)], g.fops, g.marks),
                         wk.here, k)
               && k <= |wk.here.subs|
               && total == Chain(io.lines, wk.log,
                                 DiffWalk.Within(stack[..m], plans[..m], wk.above, wk.cwd, f.od, f.d.fid,
                                                 g.ops + [Same(e)], g.fops,
                                                 g.marks, wk.here.subs[k..], k, id))
      modifies this
      ensures Inside(total) && stack == old(stack)[..|old(stack)| - 1]
      ensures |d.dirs| == |old(stack)[|old(stack)| - 1].d.dirs| + 1
    {
      hide Walker.Valid, DiffWalk.Within, AllInStep, InStep, Left;
      var m := |stack| - 1;
      PathSame(stack[..m], stack[m].d, stack[m].d.(dirs := stack[m].d.dirs + [d]));
      plan, plans := Plan(plans[m].ops + [Same(e)], plans[m].fops, plans[m].marks), plans[..m];
      d, od, kids, olds := stack[m].d.(dirs := stack[m].d.dirs + [d]), stack[m].od, stack[m].kids, stack[m].olds;
      stack := stack[..m];
    }

    /** dt_go_sop_diff */
    method GoSiblingOrParent(ghost total: Patched, ghost e: Delta) returns (died: bool, went: bool)
      requires Finished(total, e) && stack != []
      modifies this, wk, io
      ensures died ==> !went && Died(total)
      ensures went ==> Before(total) && |stack| == |old(stack)|
      ensures !died && !went ==> Inside(total) && kids == [] && (plan.marks == [] || !plan.marks[0].GoneMark?)
                                 && |stack| == |old(stack)| - 1
      ensures !died ==> Work(went) <= old(Work(false))
    {
      hide Walker.Valid, DiffWalk.Within, DiffWalk.Entering, DiffWalk.After, AllInStep, InStep, Left;
      GoUp(total, e);
      died, went := NextChild(total);
    }

    /** dt_walk in step with the old tree: it prints the patch from the old tree to the new one, and
        ends with the new one. If the old root has no name, the program dies at the first line about a
        directory that is gone. */
    method Walk() returns (died: bool, ghost e: Delta)
      requires Valid() && wk.Unread() && stack == [] && d == Listed(od.name, od.id, d.fid, [], []) && io.lines == []
      modifies this, wk, io
      ensures died <==> Dies(PatchLines(DiffDir(old(od), old(d.fid), old(wk.here), old(id)).delta, 0, []), io.oldRoot)
      ensures died ==>
                var patch := PatchLines(DiffDir(old(od), old(d.fid), old(wk.here), old(id)).delta, 0, []);
                LinesShown(io.lines, io.oldRoot) == LinesShown(patch, io.oldRoot)
      ensures !died ==>
                var b := DiffDir(old(od), old(d.fid), old(wk.here), old(id));
                && e == b.delta && d == b.delta.dir && id == b.next && io.lines == PatchLines(b.delta, 0, [])
                && wk.log == old(wk.log) + DiffTrace(old(od), old(d.fid), old(wk.here), old(id), [])
                && wk.above == [] && wk.cwd == []
    {
      hide Walker.Valid, DiffWalk.Within, DiffWalk.After, DiffWalk.Entering, AllInStep, InStep, Left, DiffDir,
        DiffTrace, PatchLines, LineShown;
      Alone(od, d.fid, wk.here, id);
      ghost var total := Chain(io.lines, wk.log,
                               DiffWalk.Entering(stack, plans, wk.above, wk.cwd, od, d.fid, wk.here, id));
      ghost var patch := PatchLines(DiffDir(od, d.fid, wk.here, id).delta, 0, []);
      assert total.lines == patch by {
        assert io.lines + patch == patch;
      }
      e := Joined(od, d.fid, [], []);
      died := false;
      var enter, more := true, true;
      while more
        invariant !died && AtPoint(total, enter, more, e)
        decreases more, if more then Work(enter) else 0, |stack|, !enter
      {
        died, enter, more, e := Step(total, enter, e);
        if died {
          ShownUpTo(total.lines, |io.lines|, None);
          return;
        }
      }
      Nothing(e, id);
      assert io.lines + [] == io.lines && wk.log + [] == wk.log;
      if io.oldRoot.None? {
        NoDropsLive(io.lines, None);
      } else {
        NamedLives(io.lines, io.oldRoot);
      }
    }

    ghost predicate AtPoint(total: Patched, enter: bool, more: bool, e: Delta)
      reads this, wk, io
    {
      if !more then Finished(total, e) && stack == []
      else if enter then Before(total)
      else Inside(total) && kids == [] && (plan.marks == [] || !plan.marks[0].GoneMark?)
    }

    /** One round of dt_walk's loop. */
    method Step(ghost total: Patched, enter: bool, ghost e: Delta)
      returns (died: bool, enter': bool, more: bool, ghost e': Delta)
      requires AtPoint(total, enter, true, e)
      modifies this, wk, io
      ensures died ==> Died(total)
      ensures !died ==> AtPoint(total, enter', more, e')
      ensures !died && more ==> Work(enter') <= old(Work(enter))
      ensures !died && more && Work(enter') == old(Work(enter)) ==> |stack| <= |old(stack)|
      ensures !died && more && Work(enter') == old(Work(enter)) && |stack| == |old(stack)| ==> enter' && !enter
    {
      hide Walker.Valid, DiffWalk.Within, DiffWalk.After, DiffWalk.Entering, AllInStep, InStep, Left;
      died, enter', more, e' := false, enter, true, e;
      if enter {
        died := OnEnter(total);
        if died {
          return;
        }
        died, enter' := NextChild(total);
        if died {
          return;
        }
      }
      if !enter' {
        e' := OnLeave(total);
        if stack == [] {
          more := false;
        } else {
          died, enter' := GoSiblingOrParent(total, e');
        }
      }
    }
  }

  lemma {:induction false} UpInStep(stack: seq<Pair>, plans: seq<Plan>, trail: seq<Node>, e: Delta)
    requires |stack| == |plans| == |trail| && AllInStep(stack, plans, trail) && stack != []
    ensures var m := |stack| - 1;
            var f, g := stack[m], plans[m];
            var k := |f.d.dirs| + 1;
            && AllInStep(stack[..m], plans[..m], trail[..m]) && Proper(trail[m]) && k <= |trail[m].subs|
            && InStep(f.d.(dirs := f.d.dirs + [e.dir]), f.od, f.kids, f.olds, Plan(g.ops + [Same(e)], g.fops, g.marks),
                      trail[m], k)
            && Left(stack, trail) == W.WeightOf(trail[m].subs[k..]) + Left(stack[..m], trail[..m])
  {
    var m := |stack| - 1;
    assert InStep(stack[m].d, stack[m].od, stack[m].kids, stack[m].olds, plans[m], trail[m], |stack[m].d.dirs| + 1);
    NewsOne(plans[m].ops, Same(e));
  }

  lemma {:induction false} Alone(od: Dir, fid0: nat, n: Node, next: nat)
    ensures var b := DiffDir(od, fid0, n, next);
            DiffWalk.Entering([], [], [], [], od, fid0, n, next)
            == Patched(PatchLines(b.delta, 0, []), DiffTrace(od, fid0, n, next, []), b.delta, b.next)
  {
    hide PatchLines, DiffTrace, DiffDir;
    var b := DiffDir(od, fid0, n, next);
    assert PatchLines(b.delta, 0, []) + [] == PatchLines(b.delta, 0, []);
    assert DiffTrace(od, fid0, n, next, []) + [] == DiffTrace(od, fid0, n, next, []);
  }

  lemma {:induction false} ReadFirst(a: seq<Line>, b: seq<Line>, x: seq<Event>, y: seq<Event>, z: seq<Event>,
                                     o: Patched)
    ensures Chain(a, x, Chain(b, y + z, o)) == Chain(a, x + y, Chain(b, z, o))
  {
    assert x + ((y + z) + o.events) == (x + y) + (z + o.events);
  }

  lemma FootLive(e: Delta, pid: nat)
    ensures NoDrops(FootLines(e, pid))
  {
  }

  lemma PartFirst(a: seq<Line>, b: seq<Line>, c: seq<Line>, total: seq<Line>)
    requires |a + (b + c)| <= |total| && total[..|a + (b + c)|] == a + (b + c)
    ensures |a + b| <= |total| && total[..|a + b|] == a + b
  {
    assert total[..|a + b|] == total[..|a + (b + c)|][..|a + b|];
  }

  lemma Nothing(e: Delta, next: nat)
    ensures DiffWalk.After([], [], [], [], e, next) == Patched([], [], e, next)
  {
  }

  lemma {:induction false} RefusedDir(was: Dir, fid: nat, sub: Sub, next: nat)
    requires !sub.entered
    ensures DiffSub(was, fid, sub, next).delta.dir == Listed(was.name, was.id, fid, [], [])
  {
    RefusedPrints(was, fid, sub, next, 0, []);
  }

  /** No new subtree is walked where nothing can be read. */
  lemma {:induction false} NoTrace(olds: seq<Dir>, path: Path)
    ensures MergeTrace(olds, [], path) == []
    decreases |olds|
  {
    if olds != [] {
      NoTrace(olds[1..], path);
    }
  }


  lemma {:induction false} RefusedChain(lines: seq<Line>, log: seq<Event>, more: seq<Line>, event: seq<Event>,
                                        w: Patched)
    ensures Chain(lines, log + event, Chain(more, [], w)) == Chain(lines, log, Chain(more, event, w))
  {
    assert log + event + ([] + w.events) == log + (event + w.events);
  }

  /** Going down keeps the levels above in step. */
  lemma PushInStep(stack: seq<Pair>, plans: seq<Plan>, trail: seq<Node>, f: Pair, g: Plan, n: Node)
    requires |stack| == |plans| == |trail| && AllInStep(stack, plans, trail) && g.marks != []
    requires InStep(f.d, f.od, f.kids, f.olds, Plan(g.ops, g.fops, g.marks[1..]), n, |f.d.dirs| + 1)
    ensures AllInStep(stack + [f], plans + [Plan(g.ops, g.fops, g.marks[1..])], trail + [n])
  {
  }

  lemma {:induction false} Stepped(d: Dir, od: Dir, kids: seq<Kid>, olds: seq<Dir>, g: Plan, n: Node, k: nat)
    requires InStep(d, od, kids, olds, g, n, k) && kids != [] && (g.marks == [] || !g.marks[0].GoneMark?)
             && !kids[0].isNew
    ensures g.marks != [] && olds != [] && g.marks[0].KeptMark?
    ensures InStep(d, od, kids[1..], olds[1..], Plan(g.ops, g.fops, g.marks[1..]), n, k + 1)
    ensures Proper(n) && Proper(n.subs[k].node) && Matches(g.marks, n.subs[k..]) && d.id == od.id
  {
    FirstKid(d, od, kids, olds, g, n, k);
  }

  lemma {:induction false} PastKept(d: Dir, od: Dir, kids: seq<Kid>, olds: seq<Dir>, g: Plan, n: Node, e: Delta)
    requires InStep(d, od, kids, olds, g, n, |d.dirs|) && kids != [] && g.marks != [] && g.marks[0].KeptMark?
             && !kids[0].isNew
    ensures olds != []
    ensures InStep(d.(dirs := d.dirs + [e.dir]), od, kids[1..], olds[1..],
                   Plan(g.ops + [Same(e)], g.fops, g.marks[1..]), n, |d.dirs| + 1)
  {
    Stepped(d, od, kids, olds, g, n, |d.dirs|);
    NewsOne(g.ops, Same(e));
  }

  lemma PathSame(stack: seq<Pair>, d: Dir, d': Dir)
    requires d.name == d'.name
    ensures PathTo(stack, d) == PathTo(stack, d')
  {
  }

}
