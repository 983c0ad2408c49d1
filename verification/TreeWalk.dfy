/** dt_walk over a tree in memory, as dt_reverse_p and dt_diff_delete_tree use it. */
module TreeWalk {
  import opened Trees
  import opened FullWalk
  import Basics

  /** A directory that the walk is below, and which of its children it is in. */
  datatype Level = Level(d: Dir, k: nat)

  /** What entering a directory prints: the paths of its subdirectories and, when the whole tree is
      printed, its files. */
  function EnterLines(whole: bool, act: Act, d: Dir, path: Path): seq<Line> {
    OpenLines(act, d.dirs, path) + if whole then FileLines(act, d.id, d.files) else []
  }

  function LeaveLines(whole: bool, act: Act, d: Dir): seq<Line> {
    if whole then CloseLines(act, d.id, d.dirs) else []
  }

  function Between(whole: bool, act: Act, d: Dir, path: Path): seq<Line>
    decreases d, 1
  {
    EnterLines(whole, act, d, path) + BetweenAll(whole, act, d.dirs, path) + LeaveLines(whole, act, d)
  }

  function BetweenAll(whole: bool, act: Act, ds: seq<Dir>, path: Path): seq<Line>
    decreases ds, 0
  {
    if ds == [] then [] else Between(whole, act, ds[0], path + [ds[0].name]) + BetweenAll(whole, act, ds[1..], path)
  }

  lemma {:induction false} BetweenIsBody(act: Act, d: Dir, path: Path)
    ensures Between(true, act, d, path) == Body(act, d, path)
    decreases d, 1
  {
    BetweenAllBodies(act, d.dirs, path);
  }

  lemma {:induction false} BetweenAllBodies(act: Act, ds: seq<Dir>, path: Path)
    ensures BetweenAll(true, act, ds, path) == Bodies(act, ds, path)
    decreases ds, 0
  {
    if ds != [] {
      BetweenIsBody(act, ds[0], path + [ds[0].name]);
      BetweenAllBodies(act, ds[1..], path);
    }
  }

  lemma {:induction false} BetweenIsGone(d: Dir, path: Path)
    ensures Between(false, Del, d, path) == GoneBody(d, path)
    decreases d, 1
  {
    BetweenAllGone(d.dirs, path);
  }

  lemma {:induction false} BetweenAllGone(ds: seq<Dir>, path: Path)
    ensures BetweenAll(false, Del, ds, path) == GoneBodies(ds, path)
    decreases ds, 0
  {
    if ds != [] {
      BetweenIsGone(ds[0], path + [ds[0].name]);
      BetweenAllGone(ds[1..], path);
    }
  }

  // ---------------------------------------------------------------- what is left at each point

  /** The levels lead down to a directory. */
  ghost predicate Leads(stack: seq<Level>, d: Dir)
    decreases |stack|
  {
    stack == [] ||
    var m := |stack| - 1;
    stack[m].k < |stack[m].d.dirs| && stack[m].d.dirs[stack[m].k] == d && Leads(stack[..m], stack[m].d)
  }

  /** From where a directory is finished. */
  ghost function Rest(whole: bool, act: Act, stack: seq<Level>, path: Path): seq<Line>
    requires |stack| <= |path|
    decreases |stack|
  {
    if stack == [] then []
    else
      var m, up := |stack| - 1, path[..|path| - 1];
      var p, k := stack[m].d, stack[m].k + 1;
      (if k <= |p.dirs| then BetweenAll(whole, act, p.dirs[k..], up) else [])
      + LeaveLines(whole, act, p) + Rest(whole, act, stack[..m], up)
  }

  ghost function Count(d: Dir): nat
    decreases d, 1
  {
    1 + CountAll(d.dirs)
  }

  ghost function CountAll(ds: seq<Dir>): nat
    decreases ds, 0
  {
    if ds == [] then 0 else Count(ds[0]) + CountAll(ds[1..])
  }

  ghost function Left(stack: seq<Level>): nat
    decreases |stack|
  {
    if stack == [] then 0
    else
      var m := |stack| - 1;
      (if stack[m].k < |stack[m].d.dirs| then CountAll(stack[m].d.dirs[stack[m].k + 1..]) else 0) + Left(stack[..m])
  }

  lemma {:induction false} OneBelow(whole: bool, act: Act, stack: seq<Level>, d: Dir, k: nat, path: Path)
    requires |stack| <= |path| && k < |d.dirs|
    ensures var c := d.dirs[k];
            var stack', p := stack + [Level(d, k)], path + [c.name];
            && Rest(whole, act, stack', p)
               == BetweenAll(whole, act, d.dirs[k + 1..], path) + LeaveLines(whole, act, d)
                  + Rest(whole, act, stack, path)
            && (Leads(stack, d) ==> Leads(stack', c)) && Left(stack') == CountAll(d.dirs[k + 1..]) + Left(stack)
  {
    hide Between, BetweenAll, LeaveLines, Count, CountAll;
    var stack', p := stack + [Level(d, k)], path + [d.dirs[k].name];
    assert stack'[..|stack|] == stack && p[..|path|] == path;
  }

  lemma OneOff(whole: bool, act: Act, ds: seq<Dir>, path: Path, more: seq<Line>)
    requires ds != []
    ensures BetweenAll(whole, act, ds, path) + more
         == Between(whole, act, ds[0], path + [ds[0].name]) + (BetweenAll(whole, act, ds[1..], path) + more)
    ensures CountAll(ds) == Count(ds[0]) + CountAll(ds[1..])
  {
  }

  lemma {:induction false} Deeper(whole: bool, act: Act, stack: seq<Level>, d: Dir, path: Path)
    requires |stack| <= |path| && Leads(stack, d) && d.dirs != []
    ensures var c := d.dirs[0];
            var stack', p := stack + [Level(d, 0)], path + [c.name];
            && BetweenAll(whole, act, d.dirs, path) + LeaveLines(whole, act, d) + Rest(whole, act, stack, path)
               == Between(whole, act, c, p) + Rest(whole, act, stack', p)
            && Leads(stack', c) && Count(c) + Left(stack') < Count(d) + Left(stack)
  {
    hide Between, BetweenAll, LeaveLines, Rest, Leads, Left, CountAll;
    OneBelow(whole, act, stack, d, 0, path);
    OneOff(whole, act, d.dirs, path, LeaveLines(whole, act, d) + Rest(whole, act, stack, path));
    Basics.Regroup(BetweenAll(whole, act, d.dirs, path), LeaveLines(whole, act, d), Rest(whole, act, stack, path));
    Basics.Regroup(BetweenAll(whole, act, d.dirs[1..], path), LeaveLines(whole, act, d), Rest(whole, act, stack, path));
  }

  /** From a finished directory to the sibling after it. */
  lemma {:induction false} Aside(whole: bool, act: Act, below: seq<Level>, p: Dir, k: nat, up: Path, name: string)
    requires |below| <= |up| && k + 1 < |p.dirs| && Leads(below, p)
    ensures var s := p.dirs[k + 1];
            var stack, stack' := below + [Level(p, k)], below + [Level(p, k + 1)];
            && Rest(whole, act, stack, up + [name])
               == Between(whole, act, s, up + [s.name]) + Rest(whole, act, stack', up + [s.name])
            && Leads(stack', s) && Count(s) + Left(stack') == Left(stack)
  {
    hide Between, BetweenAll, LeaveLines, Leads, CountAll, Count;
    var stack, path := below + [Level(p, k)], up + [name];
    assert stack[..|below|] == below && path[..|up|] == up;
    var leave, rest := LeaveLines(whole, act, p), Rest(whole, act, below, up);
    var was, next := p.dirs[k + 1..], p.dirs[k + 2..];
    assert was[1..] == next;
    hide Rest, Left;
    OneBelow(whole, act, below, p, k + 1, up);
    OneOff(whole, act, was, up, leave + rest);
    Basics.Regroup(BetweenAll(whole, act, was, up), leave, rest);
    Basics.Regroup(BetweenAll(whole, act, next, up), leave, rest);
  }

  lemma {:induction false} Upwards(whole: bool, act: Act, stack: seq<Level>, d: Dir, path: Path)
    requires stack != [] && |stack| <= |path| && Leads(stack, d)
    requires var f := stack[|stack| - 1]; f.k + 1 == |f.d.dirs|
    ensures var m, up := |stack| - 1, path[..|path| - 1];
            && Rest(whole, act, stack, path) == LeaveLines(whole, act, stack[m].d) + Rest(whole, act, stack[..m], up)
            && Leads(stack[..m], stack[m].d) && Left(stack) == Left(stack[..m])
  {
    var m := |stack| - 1;
    assert stack[m].d.dirs[stack[m].k + 1..] == [];
  }

  /** dt_on_e_print_free, or dt_on_e_dprint_free. */
  method PrintEnter(io: Stdout, whole: bool, act: Act, d: Dir, path: Path)
    modifies io
    ensures io.lines == old(io.lines) + EnterLines(whole, act, d, path)
  {
    CallDirs(io, act, d.dirs, path);
    if whole {
      var _ := CallSumFiles(io, act, d.id, d.files);
    }
  }

  /** dt_on_l_print_free, or dt_on_l_free. */
  method PrintLeave(io: Stdout, whole: bool, act: Act, d: Dir)
    modifies io
    ensures io.lines == old(io.lines) + LeaveLines(whole, act, d)
  {
    if whole {
      var _ := CallSumDirs(io, act, d.id, d.dirs);
    }
  }

  /** dt_walk with dt_go_c_ds and dt_go_sop_ds: every directory is entered and left once, in order. */
  method Walk(io: Stdout, whole: bool, act: Act, root: Dir, top: Path)
    modifies io
    ensures io.lines == old(io.lines) + Between(whole, act, root, top)
  {
    hide Between, BetweenAll, EnterLines, LeaveLines, Rest, Leads, Left, Count;
    var d, path := root, top;
    var stack: seq<Level> := [];
    ghost var total := io.lines + Between(whole, act, root, top);
    Nowhere(whole, act, root, top);
    var enter, more := true, true;
    while more
      invariant |stack| <= |path| && Leads(stack, d)
      invariant more && enter ==> io.lines + (Between(whole, act, d, path) + Rest(whole, act, stack, path)) == total
      invariant more && !enter ==> io.lines + (LeaveLines(whole, act, d) + Rest(whole, act, stack, path)) == total
      invariant !more ==> io.lines == total
      decreases more, (if enter then Count(d) else 0) + Left(stack), |stack|, !enter
    {
      if enter {
        Parts(whole, act, d, path, Rest(whole, act, stack, path));
        PrintEnter(io, whole, act, d, path);
        if d.dirs != [] {
          Deeper(whole, act, stack, d, path);
          stack, path, d := stack + [Level(d, 0)], path + [d.dirs[0].name], d.dirs[0];
        } else {
          enter := false;
        }
      } else {
        ghost var rest := Rest(whole, act, stack, path);
        PrintLeave(io, whole, act, d);
        if stack == [] {
          Nowhere(whole, act, d, path);
          more := false;
        } else {
          var m := |stack| - 1;
          var f := stack[m];
          Climbs(stack, d);
          if f.k + 1 < |f.d.dirs| {
            assert stack == stack[..m] + [Level(f.d, f.k)] && path == path[..|path| - 1] + [path[|path| - 1]];
            Aside(whole, act, stack[..m], f.d, f.k, path[..|path| - 1], path[|path| - 1]);
            d := f.d.dirs[f.k + 1];
            stack, path := stack[..m] + [Level(f.d, f.k + 1)], path[..|path| - 1] + [d.name];
            enter := true;
          } else {
            Upwards(whole, act, stack, d, path);
            stack, path, d := stack[..m], path[..|path| - 1], f.d;
          }
        }
      }
    }
  }

  lemma Climbs(stack: seq<Level>, d: Dir)
    requires Leads(stack, d) && stack != []
    ensures var m := |stack| - 1; stack[m].k < |stack[m].d.dirs| && Leads(stack[..m], stack[m].d)
  {
  }

  lemma Nowhere(whole: bool, act: Act, d: Dir, path: Path)
    ensures Rest(whole, act, [], path) == [] && Leads([], d)
  {
  }

  lemma Parts(whole: bool, act: Act, d: Dir, path: Path, rest: seq<Line>)
    ensures Between(whole, act, d, path) + rest
         == EnterLines(whole, act, d, path) + (BetweenAll(whole, act, d.dirs, path) + LeaveLines(whole, act, d) + rest)
    ensures d.dirs == [] ==> BetweenAll(whole, act, d.dirs, path) == []
    ensures Count(d) > 0
  {
  }

  /** dt_reverse_p */
  method ReverseP(io: Stdout, root: Dir)
    modifies io
    ensures io.lines == old(io.lines) + Print(root)
  {
    io.Print([PathLine(Plain, root.id, [])]);
    Walk(io, true, Plain, root, []);
    BetweenIsBody(Plain, root, []);
    io.Print([DirLine(Plain, 0, root)]);
  }

  /** dt_diff_delete_tree */
  method DeleteTree(io: Stdout, pid: nat, d: Dir, path: Path)
    modifies io
    ensures io.lines == old(io.lines) + GoneLines(d, pid, path)
  {
    io.Print([PathLine(Del, d.id, path)]);
    Walk(io, false, Del, d, path);
    BetweenIsGone(d, path);
    io.Print([DirLine(Del, pid, d)]);
  }
}
