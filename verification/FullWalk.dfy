/** dt_walk as dt_reverse and dt_diff_add_tree use it: a loop that reads a share directory by
    directory. It prints exactly the lines of the recursive scan, and asks the walker for exactly
    the steps of a depth-first traversal. */
module FullWalk {
  import opened Wrappers
  import opened Trees
  import opened Scan
  import opened Walks
  import opened Readdir

  /** What has been printed, each line as the trees say; `oldRoot` is the name of the root that the
      lines about old directories are printed under, if that name is set. */
  class Stdout {
    const oldRoot: Option<string>
    var lines: seq<Line>

    constructor (oldRoot: Option<string>)
      ensures lines == [] && this.oldRoot == oldRoot
    {
      this.oldRoot, lines := oldRoot, [];
    }

    method Print(more: seq<Line>)
      modifies this
      ensures lines == old(lines) + more
    {
      lines := lines + more;
    }
  }

  // ---------------------------------------------------------------- the lists of a directory

  /** dt_list_call on subdirectories. */
  method CallDirs(io: Stdout, act: Act, dirs: seq<Dir>, path: Path)
    modifies io
    ensures io.lines == old(io.lines) + OpenLines(act, dirs, path)
  {
    ghost var from := io.lines;
    var i := 0;
    assert dirs[..0] == [];
    while i < |dirs|
      invariant i <= |dirs| && io.lines == from + OpenLines(act, dirs[..i], path)
    {
      io.Print([PathLine(act, dirs[i].id, path + [dirs[i].name])]);
      OpenLinesSnoc(act, dirs[..i], dirs[i], path);
      assert dirs[..i + 1] == dirs[..i] + [dirs[i]];
      i := i + 1;
    }
    assert dirs[..i] == dirs;
  }

  /** dt_list_call and dt_list_call_sum on files: each is printed, and their sizes are added up. */
  method CallSumFiles(io: Stdout, act: Act, pid: nat, files: seq<File>) returns (sum: nat)
    modifies io
    ensures io.lines == old(io.lines) + FileLines(act, pid, files) && sum == FilesTotal(files)
  {
    ghost var from := io.lines;
    sum := 0;
    var i := 0;
    assert files[..0] == [];
    while i < |files|
      invariant i <= |files| && io.lines == from + FileLines(act, pid, files[..i]) && sum == FilesTotal(files[..i])
    {
      io.Print([FileLine(act, pid, files[i])]);
      FileLinesSnoc(act, pid, files[..i], files[i]);
      FilesTotalSums(files[i], files[..i], [files[i]]);
      assert files[..i + 1] == files[..i] + [files[i]];
      sum := sum + files[i].size;
      i := i + 1;
    }
    assert files[..i] == files;
  }

  /** The same on subdirectories that are done. */
  method CallSumDirs(io: Stdout, act: Act, pid: nat, dirs: seq<Dir>) returns (sum: nat)
    modifies io
    ensures io.lines == old(io.lines) + CloseLines(act, pid, dirs) && sum == SizesOf(dirs)
  {
    ghost var from := io.lines;
    sum := 0;
    var i := 0;
    assert dirs[..0] == [];
    while i < |dirs|
      invariant i <= |dirs| && io.lines == from + CloseLines(act, pid, dirs[..i]) && sum == SizesOf(dirs[..i])
    {
      io.Print([DirLine(act, pid, dirs[i])]);
      CloseLinesSnoc(act, pid, dirs[..i], dirs[i]);
      SizesOfSums(dirs[i], dirs[..i], [dirs[i]]);
      assert dirs[..i + 1] == dirs[..i] + [dirs[i]];
      sum := sum + dirs[i].size;
      i := i + 1;
    }
    assert dirs[..i] == dirs;
  }

  /** dt_list_sum */
  method SumFiles(files: seq<File>) returns (sum: nat)
    ensures sum == FilesTotal(files)
  {
    sum := 0;
    var i := 0;
    assert files[..0] == [];
    while i < |files|
      invariant i <= |files| && sum == FilesTotal(files[..i])
    {
      FilesTotalSums(files[i], files[..i], [files[i]]);
      assert files[..i + 1] == files[..i] + [files[i]];
      sum := sum + files[i].size;
      i := i + 1;
    }
    assert files[..i] == files;
  }

  method SumDirs(dirs: seq<Dir>) returns (sum: nat)
    ensures sum == SizesOf(dirs)
  {
    sum := 0;
    var i := 0;
    assert dirs[..0] == [];
    while i < |dirs|
      invariant i <= |dirs| && sum == SizesOf(dirs[..i])
    {
      SizesOfSums(dirs[i], dirs[..i], [dirs[i]]);
      assert dirs[..i + 1] == dirs[..i] + [dirs[i]];
      sum := sum + dirs[i].size;
      i := i + 1;
    }
    assert dirs[..i] == dirs;
  }

  lemma {:induction false} OpenLinesSnoc(act: Act, ds: seq<Dir>, d: Dir, path: Path)
    ensures OpenLines(act, ds + [d], path) == OpenLines(act, ds, path) + [PathLine(act, d.id, path + [d.name])]
    decreases |ds|
  {
    if ds == [] {
      assert ds + [d] == [d] && [d][1..] == [];
    } else {
      assert (ds + [d])[1..] == ds[1..] + [d] && (ds + [d])[0] == ds[0];
      OpenLinesSnoc(act, ds[1..], d, path);
    }
  }

  lemma {:induction false} FileLinesSnoc(act: Act, pid: nat, fs: seq<File>, f: File)
    ensures FileLines(act, pid, fs + [f]) == FileLines(act, pid, fs) + [FileLine(act, pid, f)]
    decreases |fs|
  {
    if fs == [] {
      assert fs + [f] == [f] && [f][1..] == [];
    } else {
      assert (fs + [f])[1..] == fs[1..] + [f] && (fs + [f])[0] == fs[0];
      FileLinesSnoc(act, pid, fs[1..], f);
    }
  }

  /** A directory above the current one: its dentry with the children that are done, and the
      siblings after the one that the walk is in. */
  datatype Frame = Frame(d: Dir, todo: seq<Dir>)

  /** The rest of a walk: what it prints, what it asks the walker for, the dentry it ends with and
      the next free id. */
  datatype Outcome = Outcome(lines: seq<Line>, events: seq<Event>, dir: Dir, next: nat)

  ghost function Compose(lines: seq<Line>, events: seq<Event>, o: Outcome): Outcome {
    Outcome(lines + o.lines, events + o.events, o.dir, o.next)
  }

  lemma {:induction false} ComposeTwice(a: seq<Line>, b: seq<Line>, x: seq<Event>, y: seq<Event>, o: Outcome)
    ensures Compose(a, x, Compose(b, y, o)) == Compose(a + b, x + y, o)
  {
    assert a + (b + o.lines) == (a + b) + o.lines;
    assert x + (y + o.events) == (x + y) + o.events;
  }

  // ---------------------------------------------------------------- depth-first traversal

  function Trace(n: Node, path: Path): seq<Event>
    decreases n, 1
  {
    [Reads(path)] + TraceSubs(n.subs, path)
  }

  function TraceSub(sub: Sub, path: Path): seq<Event>
    decreases sub, 0
  {
    var p := path + [sub.name];
    if sub.entered then [Enters(p)] + Trace(sub.node, p) + [Leaves(p)] else [Refuses(p)]
  }

  function TraceSubs(subs: seq<Sub>, path: Path): seq<Event>
    decreases subs, 0
  {
    if subs == [] then [] else TraceSub(subs[0], path) + TraceSubs(subs[1..], path)
  }

  // ---------------------------------------------------------------- what is left at each point

  /** A directory with all of its children, their sizes added to its own. */
  function Closed(d: Dir, dirs: seq<Dir>): Dir {
    d.(dirs := dirs, size := d.size + SizesOf(dirs))
  }

  /** From inside a directory whose subdirectories in `rest` are still to come. */
  ghost function LevelEnd(act: Act, d: Dir, rest: seq<Sub>, id: nat, fid: nat, path: Path, next: nat): Outcome {
    var r := ScanSubs(rest, id, fid, next);
    var whole := Closed(d, d.dirs + r.dirs);
    Outcome(Bodies(act, r.dirs, path) + CloseLines(act, d.id, whole.dirs), TraceSubs(rest, path), whole, r.next)
  }

  /** From where the current directory is finished. */
  ghost function After(act: Act, stack: seq<Frame>, trail: seq<Node>, path: Path, d: Dir, next: nat): Outcome
    requires |stack| == |trail| <= |path|
    decreases |stack|, 0
  {
    if stack == [] then Outcome([], [], d, next)
    else
      var m, up := |stack| - 1, path[..|path| - 1];
      var f, k := stack[m].d, |stack[m].d.dirs| + 1;
      var rest := if k <= |trail[m].subs| then trail[m].subs[k..] else [];
      Compose([], [Leaves(path)], Within(act, stack[..m], trail[..m], up, f.(dirs := f.dirs + [d]), rest, d.id + 1,
                                         d.fid + 1, next))
  }

  ghost function Within(act: Act, stack: seq<Frame>, trail: seq<Node>, path: Path, d: Dir, rest: seq<Sub>, id: nat,
                        fid: nat, next: nat): Outcome
    requires |stack| == |trail| <= |path|
    decreases |stack|, 1
  {
    var l := LevelEnd(act, d, rest, id, fid, path, next);
    Compose(l.lines, l.events, After(act, stack, trail, path, l.dir, l.next))
  }

  /** From where the current directory is about to be entered. */
  ghost function Entering(act: Act, stack: seq<Frame>, trail: seq<Node>, path: Path, d: Dir, n: Node,
                          next: nat): Outcome
    requires |stack| == |trail| <= |path|
  {
    var s := ScanDir(d.name, d.id, d.fid, n, next);
    Compose(Body(act, s.dir, path), Trace(n, path), After(act, stack, trail, path, s.dir, s.next))
  }

  /** The dentry after dt_readdir, apart from the list of subdirectories, with the file sizes added. */
  function ReadIn(d: Dir, n: Node): Dir {
    var files := Numbering(n.files, |n.subs|);
    d.(files := files, items := |n.subs| + |n.files|, size := FilesTotal(files), dirs := [])
  }

  lemma {:induction false} OpensBlank(act: Act, subs: seq<Sub>, id: nat, fid: nat, next: nat, path: Path)
    ensures OpenLines(act, Blanks(subs, id, fid), path) == OpenLines(act, ScanSubs(subs, id, fid, next).dirs, path)
    decreases |subs|
  {
    if subs != [] {
      var first := ScanSub(subs[0], id, fid, next);
      ScanSubShape(subs[0], id, fid, next);
      OpensBlank(act, subs[1..], id + 1, fid + 1, first.next, path);
      var dirs := ScanSubs(subs, id, fid, next).dirs;
      assert dirs[1..] == ScanSubs(subs[1..], id + 1, fid + 1, first.next).dirs;
      var blanks := Blanks(subs, id, fid);
      assert blanks[1..] == Blanks(subs[1..], id + 1, fid + 1);
    }
  }

  /** Entering a directory and then finishing it is scanning it. */
  lemma {:induction false} LevelStart(act: Act, path: Path, d: Dir, n: Node, next: nat)
    requires d == Listed(d.name, d.id, d.fid, [], [])
    ensures var s, r := ScanDir(d.name, d.id, d.fid, n, next), ReadIn(d, n);
            var l := LevelEnd(act, r, n.subs, next, 0, path, next + |n.subs|);
            && l.dir == s.dir && l.next == s.next && l.events == TraceSubs(n.subs, path)
            && Body(act, s.dir, path) == (OpenLines(act, Blanks(n.subs, next, 0), path)
                                          + FileLines(act, d.id, r.files)) + l.lines
  {
    hide Bodies, CloseLines, FileLines, Numbering, ScanSubs;
    var r := ReadIn(d, n);
    var all := ScanSubs(n.subs, next, 0, next + |n.subs|);
    ScanSubsShape(n.subs, next, 0, next + |n.subs|);
    NumberingShape(n.files, |n.subs|);
    assert r.dirs + all.dirs == all.dirs;
    OpensBlank(act, n.subs, next, 0, next + |n.subs|, path);
  }

  lemma {:induction false} EnterStep(act: Act, stack: seq<Frame>, trail: seq<Node>, path: Path, d: Dir, n: Node,
                                     next: nat)
    requires |stack| == |trail| <= |path|
    requires d == Listed(d.name, d.id, d.fid, [], [])
    ensures var blanks, r := Blanks(n.subs, next, 0), ReadIn(d, n);
            Entering(act, stack, trail, path, d, n, next)
            == Compose(OpenLines(act, blanks, path) + FileLines(act, d.id, r.files), [Reads(path)],
                       Within(act, stack, trail, path, r, n.subs, next, 0, next + |n.subs|))
  {
    hide ScanDir, LevelEnd, After, Body, OpenLines, FileLines, Blanks, ReadIn;
    LevelStart(act, path, d, n, next);
    var l := LevelEnd(act, ReadIn(d, n), n.subs, next, 0, path, next + |n.subs|);
    var lines := OpenLines(act, Blanks(n.subs, next, 0), path) + FileLines(act, d.id, ReadIn(d, n).files);
    ComposeTwice(lines, l.lines, [Reads(path)], l.events, After(act, stack, trail, path, l.dir, l.next));
  }

  lemma {:induction false} ScanNext(subs: seq<Sub>, id: nat, fid: nat, next: nat)
    requires subs != []
    ensures var first := if subs[0].entered then ScanDir(subs[0].name, id, fid, subs[0].node, next)
                         else Scanned(Listed(subs[0].name, id, fid, [], []), next);
            var rest := ScanSubs(subs[1..], id + 1, fid + 1, first.next);
            && ScanSubs(subs, id, fid, next) == ScannedAll([first.dir] + rest.dirs, rest.next)
            && ScanSubs(subs, id, fid, next).dirs[1..] == rest.dirs
  {
    var first := ScanSub(subs[0], id, fid, next);
    var rest := ScanSubs(subs[1..], id + 1, fid + 1, first.next);
    assert ([first.dir] + rest.dirs)[1..] == rest.dirs;
  }

  lemma TraceNext(subs: seq<Sub>, path: Path)
    requires subs != []
    ensures var p := path + [subs[0].name];
            TraceSubs(subs, path) == (if subs[0].entered then [Enters(p)] + Trace(subs[0].node, p) + [Leaves(p)]
                                      else [Refuses(p)])
            + TraceSubs(subs[1..], path)
  {
  }

  lemma BlankCloses(act: Act, sub: Sub, id: nat, fid: nat, path: Path)
    ensures Body(act, Listed(sub.name, id, fid, [], []), path) == []
  {
  }

  /** A subdirectory that cannot be entered counts as an empty one. */
  lemma {:induction false} RefuseStep(act: Act, stack: seq<Frame>, trail: seq<Node>, path: Path, d: Dir,
                                      rest: seq<Sub>, id: nat, fid: nat, next: nat)
    requires |stack| == |trail| <= |path|
    requires rest != [] && !rest[0].entered
    ensures var d' := d.(dirs := d.dirs + [Listed(rest[0].name, id, fid, [], [])]);
            Within(act, stack, trail, path, d, rest, id, fid, next)
            == Compose([], [Refuses(path + [rest[0].name])],
                       Within(act, stack, trail, path, d', rest[1..], id + 1, fid + 1, next))
  {
    var blank := Listed(rest[0].name, id, fid, [], []);
    var d' := d.(dirs := d.dirs + [blank]);
    var l, l' := LevelEnd(act, d, rest, id, fid, path, next), LevelEnd(act, d', rest[1..], id + 1, fid + 1, path, next);
    var r := ScanSubs(rest[1..], id + 1, fid + 1, next);
    var all := ScanSubs(rest, id, fid, next);
    ScanNext(rest, id, fid, next);
    TraceNext(rest, path);
    assert d.dirs + all.dirs == d'.dirs + r.dirs;
    BlankCloses(act, rest[0], id, fid, path + [rest[0].name]);
    assert l.lines == l'.lines;
    ComposeTwice([], l'.lines, [Refuses(path + [rest[0].name])], l'.events,
                 After(act, stack, trail, path, l.dir, l.next));
  }

  lemma ScanDirNamed(name: string, id: nat, fid: nat, n: Node, next: nat)
    ensures var d := ScanDir(name, id, fid, n, next).dir; d.name == name && d.id == id && d.fid == fid
  {
  }

  lemma {:induction false} AfterPushed(act: Act, stack: seq<Frame>, trail: seq<Node>, path: Path, d: Dir, n: Node,
                                       name: string, c: Dir, next: nat, todo: seq<Dir>)
    requires |stack| == |trail| <= |path| && |d.dirs| < |n.subs|
    ensures After(act, stack + [Frame(d, todo)], trail + [n], path + [name], c, next)
         == Compose([], [Leaves(path + [name])],
                    Within(act, stack, trail, path, d.(dirs := d.dirs + [c]), n.subs[|d.dirs| + 1..], c.id + 1,
                           c.fid + 1, next))
  {
    var stack', trail', p := stack + [Frame(d, todo)], trail + [n], path + [name];
    assert stack'[..|stack|] == stack && trail'[..|trail|] == trail && p[..|path|] == path;
  }

  /** Finishing a directory: the next subdirectory that can be entered, then the others. */
  lemma {:induction false} LevelNext(act: Act, d: Dir, rest: seq<Sub>, id: nat, fid: nat, path: Path, next: nat)
    requires rest != [] && rest[0].entered
    ensures var sub, p := rest[0], path + [rest[0].name];
            var c := ScanDir(sub.name, id, fid, sub.node, next);
            var l, l' := LevelEnd(act, d, rest, id, fid, path, next),
                         LevelEnd(act, d.(dirs := d.dirs + [c.dir]), rest[1..], id + 1, fid + 1, path, c.next);
            && l.dir == l'.dir && l.next == l'.next && l.lines == Body(act, c.dir, p) + l'.lines
            && l.events == [Enters(p)] + (Trace(sub.node, p) + ([Leaves(p)] + l'.events))
  {
    var sub := rest[0];
    var c := ScanDir(sub.name, id, fid, sub.node, next);
    var r := ScanSubs(rest[1..], id + 1, fid + 1, c.next);
    var all := ScanSubs(rest, id, fid, next);
    ScanNext(rest, id, fid, next);
    TraceNext(rest, path);
    ScanDirNamed(sub.name, id, fid, sub.node, next);
    assert d.dirs + all.dirs == (d.dirs + [c.dir]) + r.dirs;
  }

  lemma {:induction false} DownStep(act: Act, stack: seq<Frame>, trail: seq<Node>, path: Path, d: Dir, n: Node,
                                    id: nat, fid: nat, next: nat, todo: seq<Dir>)
    requires |stack| == |trail| <= |path|
    requires |d.dirs| < |n.subs| && n.subs[|d.dirs|].entered
    ensures var sub := n.subs[|d.dirs|];
            Within(act, stack, trail, path, d, n.subs[|d.dirs|..], id, fid, next)
            == Compose([], [Enters(path + [sub.name])],
                       Entering(act, stack + [Frame(d, todo)], trail + [n], path + [sub.name],
                                Listed(sub.name, id, fid, [], []), sub.node, next))
  {
    hide LevelEnd, ScanDir, After, Trace, Body;
    var rest, sub := n.subs[|d.dirs|..], n.subs[|d.dirs|];
    var p := path + [sub.name];
    var c := ScanDir(sub.name, id, fid, sub.node, next);
    var d' := d.(dirs := d.dirs + [c.dir]);
    ScanDirNamed(sub.name, id, fid, sub.node, next);
    assert rest[1..] == n.subs[|d.dirs| + 1..];
    LevelNext(act, d, rest, id, fid, path, next);
    AfterPushed(act, stack, trail, path, d, n, sub.name, c.dir, c.next, todo);
    var l' := LevelEnd(act, d', rest[1..], id + 1, fid + 1, path, c.next);
    var after := After(act, stack, trail, path, l'.dir, l'.next);
    ComposeTwice([], l'.lines, [Leaves(p)], l'.events, after);
    ComposeTwice(Body(act, c.dir, p), l'.lines, Trace(sub.node, p), [Leaves(p)] + l'.events, after);
    ComposeTwice([], Body(act, c.dir, p) + l'.lines, [Enters(p)], Trace(sub.node, p) + ([Leaves(p)] + l'.events),
                 after);
    assert [] + l'.lines == l'.lines;
  }

  lemma {:induction false} LeaveStep(act: Act, stack: seq<Frame>, trail: seq<Node>, path: Path, d: Dir, id: nat,
                                     fid: nat, next: nat)
    requires |stack| == |trail| <= |path|
    ensures Within(act, stack, trail, path, d, [], id, fid, next)
         == Compose(CloseLines(act, d.id, d.dirs), [], After(act, stack, trail, path, Closed(d, d.dirs), next))
  {
    assert d.dirs + [] == d.dirs;
    assert [] + CloseLines(act, d.id, d.dirs) == CloseLines(act, d.id, d.dirs);
  }

  // ---------------------------------------------------------------- the loop

  /** The number of directories under some subdirectories, and with one on top. */
  ghost function Weight(n: Node): nat
    decreases n, 1
  {
    1 + WeightOf(n.subs)
  }

  ghost function WeightOf(subs: seq<Sub>): nat
    decreases subs, 0
  {
    if subs == [] then 0 else (assert subs[0].node < subs[0]; Weight(subs[0].node)) + WeightOf(subs[1..])
  }

  /** Every frame stands on the listing of its directory, right after the child that the walk is in. */
  ghost predicate Consistent(stack: seq<Frame>, trail: seq<Node>, id: nat, fid: nat)
    requires |stack| == |trail|
    decreases |stack|
  {
    stack == [] ||
    var m := |stack| - 1;
    var f, k := stack[m], |stack[m].d.dirs| + 1;
    && k <= |trail[m].subs| && f.todo == Blanks(trail[m].subs[k..], id + 1, fid + 1) && Proper(trail[m])
    && Consistent(stack[..m], trail[..m], f.d.id, f.d.fid)
  }

  /** The directories still to come, above the current level. */
  ghost function Left(stack: seq<Frame>, trail: seq<Node>): nat
    requires |stack| == |trail|
    decreases |stack|
  {
    if stack == [] then 0
    else
      var m := |stack| - 1;
      var k := |stack[m].d.dirs| + 1;
      (if k <= |trail[m].subs| then WeightOf(trail[m].subs[k..]) else 0) + Left(stack[..m], trail[..m])
  }

  lemma {:induction false} PushConsistent(stack: seq<Frame>, trail: seq<Node>, d: Dir, n: Node, todo: seq<Dir>,
                                          id: nat, fid: nat)
    requires |stack| == |trail| && Consistent(stack, trail, d.id, d.fid) && Proper(n)
    requires |d.dirs| < |n.subs| && todo == Blanks(n.subs[|d.dirs| + 1..], id + 1, fid + 1)
    ensures Consistent(stack + [Frame(d, todo)], trail + [n], id, fid)
    ensures Left(stack + [Frame(d, todo)], trail + [n]) == WeightOf(n.subs[|d.dirs| + 1..]) + Left(stack, trail)
  {
    assert (stack + [Frame(d, todo)])[..|stack|] == stack && (trail + [n])[..|trail|] == trail;
  }

  lemma {:induction false} BlanksNext(subs: seq<Sub>, k: nat, id: nat, fid: nat)
    requires k < |subs|
    ensures Blanks(subs[k..], id, fid)[0] == Listed(subs[k].name, id, fid, [], [])
    ensures Blanks(subs[k..], id, fid)[1..] == Blanks(subs[k + 1..], id + 1, fid + 1)
    ensures subs[k..][0] == subs[k] && subs[k..][1..] == subs[k + 1..]
    ensures WeightOf(subs[k..]) == Weight(subs[k].node) + WeightOf(subs[k + 1..])
  {
    assert subs[k..][1..] == subs[k + 1..];
  }

  lemma {:induction false} Alone(act: Act, path: Path, d: Dir, n: Node, next: nat)
    ensures var s := ScanDir(d.name, d.id, d.fid, n, next);
            Entering(act, [], [], path, d, n, next) == Outcome(Body(act, s.dir, path), Trace(n, path), s.dir, s.next)
  {
    var s := ScanDir(d.name, d.id, d.fid, n, next);
    assert Body(act, s.dir, path) + [] == Body(act, s.dir, path) && Trace(n, path) + [] == Trace(n, path);
  }

  lemma Nothing(act: Act, path: Path, d: Dir, next: nat)
    ensures After(act, [], [], path, d, next) == Outcome([], [], d, next)
  {
  }

  /** dt_printpath: the names below the directory that the walk started in. */
  function PathTo(stack: seq<Frame>, d: Dir): Path {
    if stack == [] then [] else PathTo(stack[..|stack| - 1], stack[|stack| - 1].d) + [d.name]
  }

  lemma {:induction false} PathBelow(stack: seq<Frame>, f: Frame, c: Dir)
    ensures PathTo(stack + [f], c) == PathTo(stack, f.d) + [c.name]
  {
    assert (stack + [f])[..|stack|] == stack;
  }

  lemma PathSame(stack: seq<Frame>, d: Dir, d': Dir)
    requires d.name == d'.name
    ensures PathTo(stack, d) == PathTo(stack, d')
  {
  }

  /** The context of a walk, in the directory `d`, whose children in `todo` it has not come to yet. */
  class Context {
    const wk: Walker
    const io: Stdout
    const act: Act
    var d: Dir
    var todo: seq<Dir>
    var stack: seq<Frame>
    var id: nat
    ghost const base: nat
    ghost const home: Node
    ghost const homeAbove: seq<Node>
    const homePath: Path

    constructor (wk: Walker, io: Stdout, act: Act, d: Dir, id: nat)
      requires |wk.above| == |wk.cwd|
      ensures this.wk == wk && this.io == io && this.act == act && this.d == d && this.id == id
      ensures todo == [] && stack == []
      ensures base == |wk.above| && home == wk.here && homeAbove == wk.above && homePath == wk.cwd
    {
      this.wk, this.io, this.act, this.d, this.id := wk, io, act, d, id;
      todo, stack := [], [];
      base, home, homeAbove, homePath := |wk.above|, wk.here, wk.above, wk.cwd;
    }

    /** The walker is where the dentries say, and going up as often as the walk has gone down leads
        back to where it started. */
    ghost predicate Homeward()
      reads this, wk
    {
      && |wk.above| == base + |stack| == |wk.cwd|
      && wk.above[..base] == homeAbove && |homePath| == base && wk.cwd == homePath + PathTo(stack, d)
      && (if stack == [] then wk.here else wk.above[base]) == home
    }

    ghost predicate Valid()
      reads this, wk
    {
      && wk.Valid() && Homeward() && Proper(wk.here)
      && Consistent(stack, wk.above[base..], d.id, d.fid)
    }

    /** The walk still has to do what is left, from inside `d` on, to reach its whole outcome. */
    ghost predicate Inside(total: Outcome, id': nat, fid': nat)
      reads this, wk, io
    {
      && Valid() && wk.Listed() && |d.dirs| <= |wk.here.subs| && todo == Blanks(wk.here.subs[|d.dirs|..], id', fid')
      && total == Compose(io.lines, wk.log,
                          Within(act, stack, wk.above[base..], wk.cwd, d, wk.here.subs[|d.dirs|..], id', fid', id))
    }

    ghost predicate Before(total: Outcome)
      reads this, wk, io
    {
      && Valid() && wk.Unread() && d == Listed(d.name, d.id, d.fid, [], [])
      && total == Compose(io.lines, wk.log, Entering(act, stack, wk.above[base..], wk.cwd, d, wk.here, id))
    }

    ghost function Work(entering: bool): nat
      reads this, wk
      requires Valid()
    {
      (if entering then Weight(wk.here) else 0) + Left(stack, wk.above[base..])
    }

    /** dt_on_e_read_print_sum_free and dt_on_e_read_print */
    method OnEnter(ghost total: Outcome)
      requires Before(total)
      modifies this`d, this`todo, this`id, wk`log, wk`levels, io
      ensures Inside(total, old(id), 0)
      ensures old(Work(true)) == 1 + WeightOf(wk.here.subs[|d.dirs|..]) + Work(false)
    {
      hide Walker.Valid, LevelEnd, After, Within, Entering, Consistent, Compose, PathTo, Numbering, OpenLines,
        FileLines;
      ghost var n, was, trail, path := wk.here, d, wk.above[base..], wk.cwd;
      EnterStep(act, stack, trail, path, d, n, id);
      var dirs, files := ReadDir(wk, Some(id));
      id := id + |dirs|;
      BlanksAt(n.subs, old(id), 0);
      NumberingShape(n.files, |n.subs|);
      var sum := PrintListing(d.id, dirs, files, homePath + PathTo(stack, d));
      d := d.(items := |dirs| + |files|, files := files, size := d.size + sum);
      todo := dirs;
      PathSame(stack, was, d);
      assert d == ReadIn(was, n) && n.subs[0..] == n.subs;
      ComposeTwice(old(io.lines), OpenLines(act, dirs, path) + FileLines(act, d.id, files), old(wk.log), [Reads(path)],
                   Within(act, stack, trail, path, d, n.subs, old(id), 0, id));
    }

    /** dt_on_e_print: the subdirectories, then the files. */
    method PrintListing(pid: nat, dirs: seq<Dir>, files: seq<File>, path: Path) returns (sum: nat)
      modifies io
      ensures io.lines == old(io.lines) + (OpenLines(act, dirs, path) + FileLines(act, pid, files))
      ensures sum == FilesTotal(files)
    {
      CallDirs(io, act, dirs, path);
      sum := CallSumFiles(io, act, pid, files);
    }

    /** dt_on_l_print_sum_free and dt_on_l_print */
    method OnLeave(ghost total: Outcome, ghost id': nat, ghost fid': nat)
      requires Inside(total, id', fid') && todo == []
      modifies this`d, io
      ensures Valid() && total == Compose(io.lines, wk.log, After(act, stack, wk.above[base..], wk.cwd, d, id))
      ensures d.id == old(d.id) && d.fid == old(d.fid)
    {
      hide Walker.Valid, LevelEnd, After, Within, Entering, Consistent;
      ghost var was, trail, path := d, wk.above[base..], wk.cwd;
      BlanksAt(wk.here.subs[|d.dirs|..], id', fid');
      LeaveStep(act, stack, trail, path, d, id', fid', id);
      var sum := CallSumDirs(io, act, d.id, d.dirs);
      d := d.(size := d.size + sum);
      PathSame(stack, was, d);
      ComposeTwice(old(io.lines), CloseLines(act, d.id, d.dirs), old(wk.log), [],
                   After(act, stack, trail, path, d, id));
      assert wk.log + [] == wk.log;
    }

    /** The loop of dt_go_child and of dt_go_sibling_or_parent: the first of the directories left
        that can be entered. */
    method NextChild(ghost total: Outcome, ghost id0: nat, ghost fid0: nat)
      returns (went: bool, ghost id': nat, ghost fid': nat)
      requires Inside(total, id0, fid0)
      modifies this`d, this`todo, this`stack, wk
      ensures went ==> Before(total) && stack != []
      ensures !went ==> Inside(total, id', fid') && todo == [] && stack == old(stack) && d.id == old(d.id)
                        && d.fid == old(d.fid)
      ensures Work(went) <= WeightOf(old(wk.here.subs[|d.dirs|..])) + old(Work(false))
      ensures |stack| == |old(stack)| + if went then 1 else 0
    {
      hide Walker.Valid;
      went, id', fid' := false, id0, fid0;
      while !went && todo != []
        invariant went ==> Before(total) && stack != []
        invariant !went ==> Inside(total, id', fid') && stack == old(stack) && d.id == old(d.id) && d.fid == old(d.fid)
        invariant !went ==> WeightOf(wk.here.subs[|d.dirs|..]) <= WeightOf(old(wk.here.subs[|d.dirs|..]))
                            && Work(false) == old(Work(false))
        invariant went ==> Work(true) <= WeightOf(old(wk.here.subs[|d.dirs|..])) + old(Work(false))
        invariant |stack| == |old(stack)| + if went then 1 else 0
        decreases if went then 0 else 1, |todo|
      {
        went := TryChild(total, id', fid');
        id', fid' := id' + 1, fid' + 1;
      }
    }

    method TryChild(ghost total: Outcome, ghost id': nat, ghost fid': nat) returns (went: bool)
      requires Inside(total, id', fid') && todo != []
      modifies this`d, this`todo, this`stack, wk
      ensures went ==> Before(total) && |stack| == |old(stack)| + 1
      ensures went ==> Work(true) <= WeightOf(old(wk.here.subs[|d.dirs|..])) + old(Work(false))
      ensures !went ==> Inside(total, id' + 1, fid' + 1) && stack == old(stack) && |todo| < |old(todo)|
      ensures !went ==> d.id == old(d.id) && d.fid == old(d.fid) && Work(false) == old(Work(false))
      ensures !went ==> WeightOf(wk.here.subs[|d.dirs|..]) <= WeightOf(old(wk.here.subs[|d.dirs|..]))
    {
      hide Walker.Valid, LevelEnd, After, Within, Entering, Blanks, Proper, Weight, WeightOf, Left;
      ghost var n, trail, path, k := wk.here, wk.above[base..], wk.cwd, |d.dirs|;
      BlanksAt(n.subs[k..], id', fid');
      BlanksNext(n.subs, k, id', fid');
      ProperSorted(n);
      FindAt(n.subs, k);
      var c := todo[0];
      went := wk.GoChild(c.name);
      if went {
        DownStep(act, stack, trail, path, d, n, id', fid', id, todo[1..]);
        PushConsistent(stack, trail, d, n, todo[1..], id', fid');
        PathBelow(stack, Frame(d, todo[1..]), c);
        stack := stack + [Frame(d, todo[1..])];
        d, todo := c, [];
        assert wk.above[base..] == trail + [n];
        ComposeTwice(old(io.lines), [], old(wk.log), [Enters(wk.cwd)],
                     Entering(act, stack, wk.above[base..], wk.cwd, d, wk.here, id));
      } else {
        RefuseStep(act, stack, trail, path, d, n.subs[k..], id', fid', id);
        PathSame(stack, d, d.(dirs := d.dirs + [c]));
        d := d.(dirs := d.dirs + [c]);
        todo := todo[1..];
        ComposeTwice(old(io.lines), [], old(wk.log), [Refuses(path + [c.name])],
                     Within(act, stack, trail, path, d, n.subs[k + 1..], id' + 1, fid' + 1, id));
      }
      assert io.lines + [] == io.lines;
    }

    /** The first half of dt_go_sibling_or_parent: back to the directory above. */
    method GoUp(ghost total: Outcome) returns (ghost id': nat, ghost fid': nat)
      requires Valid() && stack != []
               && total == Compose(io.lines, wk.log, After(act, stack, wk.above[base..], wk.cwd, d, id))
      modifies this`d, this`todo, this`stack, wk
      ensures Inside(total, id', fid') && |stack| == |old(stack)| - 1
      ensures WeightOf(wk.here.subs[|d.dirs|..]) + Work(false) == old(Work(false))
    {
      hide Walker.Valid, LevelEnd, Within, Entering;
      var m := |stack| - 1;
      ghost var trail, path, k := wk.above[base..], wk.cwd, |stack[m].d.dirs| + 1;
      wk.GoParent();
      assert wk.above[base..] == trail[..m];
      id', fid' := d.id + 1, d.fid + 1;
      PathSame(stack[..m], stack[m].d, stack[m].d.(dirs := stack[m].d.dirs + [d]));
      assert wk.cwd == homePath + PathTo(stack[..m], stack[m].d);
      d, todo, stack := stack[m].d.(dirs := stack[m].d.dirs + [d]), stack[m].todo, stack[..m];
      assert path[..|path| - 1] == wk.cwd;
      ComposeTwice(old(io.lines), [], old(wk.log), [Leaves(path)],
                   Within(act, stack, trail[..m], wk.cwd, d, trail[m].subs[k..], id', fid', id));
      assert io.lines + [] == io.lines;
    }

    /** dt_go_sop_walker: up, and into the next sibling that can be entered, if there is one. */
    method GoSiblingOrParent(ghost total: Outcome) returns (went: bool, ghost id': nat, ghost fid': nat)
      requires Valid() && stack != []
               && total == Compose(io.lines, wk.log, After(act, stack, wk.above[base..], wk.cwd, d, id))
      modifies this`d, this`todo, this`stack, wk
      ensures went ==> Before(total)
      ensures !went ==> Inside(total, id', fid') && todo == []
      ensures |stack| == |old(stack)| - if went then 0 else 1
      ensures Work(went) <= old(Work(false))
    {
      hide Walker.Valid, LevelEnd, After, Within, Entering, Consistent, Left;
      id', fid' := GoUp(total);
      went, id', fid' := NextChild(total, id', fid');
    }

    /** dt_walk: the lines printed are those of the recursive scan, the steps of the walker are those
        of a depth-first traversal, and the walker ends where it began. */
    method Walk()
      requires Valid() && wk.Unread() && stack == [] && d == Listed(d.name, d.id, d.fid, [], [])
      modifies this, wk, io
      ensures var s := ScanDir(old(d.name), old(d.id), old(d.fid), old(wk.here), old(id));
              && d == s.dir && id == s.next
              && io.lines == old(io.lines) + Body(act, s.dir, old(wk.cwd))
              && wk.log == old(wk.log) + Trace(old(wk.here), old(wk.cwd))
      ensures wk.Valid() && wk.here == old(wk.here) && wk.above == old(wk.above) && wk.cwd == old(wk.cwd)
    {
      hide Walker.Valid, LevelEnd, After, Within, Entering;
      Alone(act, wk.cwd, d, wk.here, id);
      ghost var path := wk.cwd;
      ghost var total := Compose(io.lines, wk.log, Entering(act, stack, wk.above[base..], wk.cwd, d, wk.here, id));
      ghost var id', fid' := 0, 0;
      var enter, more := true, true;
      while more
        invariant AtPoint(total, enter, more, id', fid')
        decreases more, if more then Work(enter) else 0, |stack|, !enter
      {
        enter, more, id', fid' := Step(total, enter, id', fid');
      }
      Nothing(act, wk.cwd, d, id);
      assert wk.above[..base] == wk.above && homePath + [] == homePath;
      assert wk.above[base..] == [] && io.lines + [] == io.lines && wk.log + [] == wk.log;
    }

    ghost predicate AtPoint(total: Outcome, enter: bool, more: bool, id': nat, fid': nat)
      reads this, wk, io
    {
      if !more then
        Valid() && stack == [] && total == Compose(io.lines, wk.log, After(act, stack, wk.above[base..], wk.cwd, d, id))
      else if enter then Before(total)
      else Inside(total, id', fid') && todo == []
    }

    /** One round of dt_walk's loop. */
    method Step(ghost total: Outcome, enter: bool, ghost id': nat, ghost fid': nat)
      returns (enter': bool, more: bool, ghost id'': nat, ghost fid'': nat)
      requires AtPoint(total, enter, true, id', fid')
      modifies this`d, this`todo, this`stack, this`id, wk, io
      ensures AtPoint(total, enter', more, id'', fid'')
      ensures more ==> Work(enter') <= old(Work(enter))
      ensures more && Work(enter') == old(Work(enter)) ==> |stack| <= |old(stack)|
      ensures more && Work(enter') == old(Work(enter)) && |stack| == |old(stack)| ==> enter' && !enter
    {
      hide Walker.Valid, LevelEnd, After, Within, Entering, Left;
      enter', more, id'', fid'' := enter, true, id', fid';
      if enter {
        ghost var first := id;
        OnEnter(total);
        enter', id'', fid'' := NextChild(total, first, 0);
      }
      if !enter' {
        OnLeave(total, id'', fid'');
        if stack == [] {
          more := false;
        } else {
          enter', id'', fid'' := GoSiblingOrParent(total);
        }
      }
    }
  }

  /** dt_reverse */
  method Reverse(wk: Walker, io: Stdout)
    requires wk.Valid() && wk.Unread() && Proper(wk.here) && wk.above == [] && wk.cwd == []
    modifies wk, io
    ensures wk.Valid() && io.lines == old(io.lines) + Print(FullScan(wk.here))
    ensures wk.log == old(wk.log) + Trace(wk.here, [])
    ensures wk.here == old(wk.here) && wk.above == [] && wk.cwd == []
  {
    hide Walker.Valid;
    var root := Listed("", 1, 0, [], []);
    io.Print([PathLine(Act.Plain, root.id, [])]);
    var wc := new Context(wk, io, Act.Plain, root, 2);
    wc.Walk();
    io.Print([DirLine(Act.Plain, 0, wc.d)]);
  }

  /** dt_diff_add_tree: the new subtree `d` of the current directory, of which only name and position
      are known, takes the next id. */
  method AddTree(wk: Walker, io: Stdout, pid: nat, d: Dir, id: nat, ghost k: nat) returns (d': Dir, id': nat)
    requires wk.Valid() && wk.Listed() && Proper(wk.here) && |wk.above| == |wk.cwd|
    requires k < |wk.here.subs| && d == Listed(wk.here.subs[k].name, d.id, d.fid, [], [])
    modifies wk, io
    ensures wk.Valid() && wk.Listed()
    ensures wk.here == old(wk.here) && wk.above == old(wk.above) && wk.cwd == old(wk.cwd)
    ensures var s := ScanSub(old(wk.here.subs[k]), id, d.fid, id + 1);
            && d' == s.dir && id' == s.next
            && io.lines == old(io.lines) + TreeLines(Add, s.dir, pid, wk.cwd + [d.name])
            && wk.log == old(wk.log) + TraceSub(old(wk.here.subs[k]), wk.cwd)
  {
    hide Walker.Valid, ScanDir, Trace;
    ghost var path := wk.cwd + [d.name];
    d' := d.(id := id);
    id' := id + 1;
    io.Print([PathLine(Add, d'.id, wk.cwd + [d'.name])]);
    ProperSorted(wk.here);
    FindAt(wk.here.subs, k);
    BlankCloses(Add, wk.here.subs[k], id, d.fid, path);
    var ok := wk.GoChild(d'.name);
    if ok {
      var wc := new Context(wk, io, Add, d', id');
      wc.Walk();
      d', id' := wc.d, wc.id;
      wk.GoParent();
    }
    io.Print([DirLine(Add, pid, d')]);
    ScanSubShape(old(wk.here.subs[k]), id, d.fid, id + 1);
    assert io.lines == old(io.lines) + ([PathLine(Add, d'.id, path)] + Body(Add, d', path) + [DirLine(Add, pid, d')]);
  }
}
