/** The two merges of dt_diff in the scanner's own form: loops that run through an old and a new list
    and print what they find. */
module DiffLists {
  import opened Names
  import opened Trees
  import opened Scan
  import opened Deltas
  import opened Diff
  import opened Walks
  import opened FullWalk
  import opened TreeWalk

  /** A child of the new dentry; a new subtree (DT_TYPE_NEW) is complete once the lists are merged,
      any other has got its name, its position and the id of the old dentry. */
  datatype Kid = Kid(d: Dir, isNew: bool)

  function KidsOf(marks: seq<Mark>, fid: nat): seq<Kid> {
    if marks == [] then []
    else if marks[0].GoneMark? then KidsOf(marks[1..], fid)
    else if marks[0].FreshMark? then [Kid(marks[0].dir, true)] + KidsOf(marks[1..], fid + 1)
    else [Kid(Listed(marks[0].was.name, marks[0].was.id, fid, [], []), false)] + KidsOf(marks[1..], fid + 1)
  }

  /** The old children that stay. */
  function KeptOlds(marks: seq<Mark>): seq<Dir> {
    if marks == [] then []
    else (if marks[0].KeptMark? then [marks[0].was] else []) + KeptOlds(marks[1..])
  }

  function MarkLine(m: Mark, pid: nat, path: Path): seq<Line> {
    if m.GoneMark? then GoneLines(m.was, pid, path + [m.was.name])
    else if m.FreshMark? then TreeLines(Add, m.dir, pid, path + [m.dir.name])
    else []
  }

  function MarkLines(marks: seq<Mark>, pid: nat, path: Path): seq<Line> {
    if marks == [] then [] else MarkLine(marks[0], pid, path) + MarkLines(marks[1..], pid, path)
  }

  predicate AnyChange(marks: seq<Mark>) {
    exists i :: 0 <= i < |marks| && !marks[i].KeptMark?
  }

  predicate AnyFileChange(fops: seq<FileOp>) {
    exists i :: 0 <= i < |fops| && Differs(fops[i])
  }

  predicate AnyGone(marks: seq<Mark>) {
    exists i :: 0 <= i < |marks| && marks[i].GoneMark?
  }

  /** The marks in front of the first old directory that is gone. */
  function BeforeGone(marks: seq<Mark>): seq<Mark> {
    if marks == [] || marks[0].GoneMark? then [] else [marks[0]] + BeforeGone(marks[1..])
  }

  lemma {:induction false} FirstGone(done: seq<Mark>, m: Mark, rest: seq<Mark>)
    requires !AnyGone(done) && m.GoneMark?
    ensures BeforeGone(done + ([m] + rest)) == done && AnyGone(done + ([m] + rest))
    decreases |done|
  {
    var all := done + ([m] + rest);
    assert all[|done|] == m;
    if done != [] {
      assert all[1..] == done[1..] + ([m] + rest) && !done[0].GoneMark?;
      assert forall i :: 0 <= i < |done| - 1 ==> done[1..][i] == done[i + 1];
      FirstGone(done[1..], m, rest);
    }
  }

  lemma AnyGoneNext(done: seq<Mark>, m: Mark)
    ensures AnyGone(done + [m]) <==> AnyGone(done) || m.GoneMark?
  {
    assert (done + [m])[|done|] == m;
    assert forall i :: 0 <= i < |done| ==> (done + [m])[i] == done[i];
  }

  /** New subtrees are walked while the lists are merged. */
  function MergeTrace(olds: seq<Dir>, subs: seq<Sub>, path: Path): seq<Event>
    decreases |olds| + |subs|
  {
    if olds == [] && subs == [] then []
    else if olds != [] && (subs == [] || Less(olds[0].name, subs[0].name)) then MergeTrace(olds[1..], subs, path)
    else if olds == [] || olds[0].name != subs[0].name then TraceSub(subs[0], path) + MergeTrace(olds, subs[1..], path)
    else MergeTrace(olds[1..], subs[1..], path)
  }

  /** dt_printdir_once */
  class Once {
    const io: Stdout
    const line: Line
    var done: bool

    constructor (io: Stdout, line: Line)
      ensures this.io == io && this.line == line && !done
    {
      this.io, this.line, done := io, line, false;
    }

    method Print()
      modifies this, io
      ensures done && io.lines == old(io.lines) + if old(done) then [] else [line]
    {
      if !done {
        done := true;
        io.Print([line]);
      }
    }

    /** What has been printed since `from`: the line of the directory, if anything, and `lines`. */
    ghost predicate Since(from: seq<Line>, lines: seq<Line>)
      reads this, io
    {
      io.lines == from + (if done then [line] else []) + lines
    }
  }

  lemma {:induction false} MarkLinesConcat(a: seq<Mark>, b: seq<Mark>, pid: nat, path: Path)
    ensures MarkLines(a + b, pid, path) == MarkLines(a, pid, path) + MarkLines(b, pid, path)
    decreases |a|
  {
    hide MarkLine;
    if a == [] {
      assert a + b == b;
    } else {
      MarkLinesConcat(a[1..], b, pid, path);
      assert (a + b)[1..] == a[1..] + b && (a + b)[0] == a[0];
    }
  }

  lemma {:induction false} KidsConcat(a: seq<Mark>, b: seq<Mark>, fid: nat)
    ensures KidsOf(a + b, fid) == KidsOf(a, fid) + KidsOf(b, fid + |KidsOf(a, fid)|)
    ensures KeptOlds(a + b) == KeptOlds(a) + KeptOlds(b)
    decreases |a|
  {
    if a == [] {
      assert a + b == b;
    } else {
      KidsConcat(a[1..], b, if a[0].GoneMark? then fid else fid + 1);
      assert (a + b)[1..] == a[1..] + b;
    }
  }

  lemma {:induction false} MarkAlone(m: Mark, pid: nat, path: Path, fid: nat)
    ensures MarkLines([m], pid, path) == MarkLine(m, pid, path)
    ensures KidsOf([m], fid) == if m.GoneMark? then [] else if m.FreshMark? then [Kid(m.dir, true)]
                                else [Kid(Listed(m.was.name, m.was.id, fid, [], []), false)]
    ensures KeptOlds([m]) == if m.KeptMark? then [m.was] else []
  {
    assert [m][1..] == [];
  }

  /** The state of the merge of two subdirectory lists: the marks made so far and those to come are
      the marks of the whole merge. */
  ghost predicate Merging(olds: seq<Dir>, subs: seq<Sub>, first: nat, done: seq<Mark>, rest: seq<Dir>, k: nat,
                          next: nat) {
    && k <= |subs|
    && Merge(olds, subs, 0, first).marks == done + Merge(rest, subs[k..], k, next).marks
    && Merge(olds, subs, 0, first).next == Merge(rest, subs[k..], k, next).next
  }

  lemma {:induction false} MergingNext(olds: seq<Dir>, subs: seq<Sub>, first: nat, done: seq<Mark>, rest: seq<Dir>,
                                       k: nat, next: nat)
    requires Merging(olds, subs, first, done, rest, k, next)
    ensures rest != [] && (k == |subs| || Less(rest[0].name, subs[k].name))
            ==> Merging(olds, subs, first, done + [GoneMark(rest[0])], rest[1..], k, next)
    ensures k < |subs| && (rest == [] || (!Less(rest[0].name, subs[k].name) && rest[0].name != subs[k].name))
            ==> var s := ScanSub(subs[k], next, k, next + 1);
                Merging(olds, subs, first, done + [FreshMark(s.dir)], rest, k + 1, s.next)
    ensures k < |subs| && rest != [] && rest[0].name == subs[k].name
            ==> Merging(olds, subs, first, done + [KeptMark(rest[0])], rest[1..], k + 1, next)
    ensures k == |subs| && rest == [] ==> Merge(olds, subs, 0, first) == Merged(done, next)
  {
    var m := Merge(rest, subs[k..], k, next);
    if k < |subs| {
      assert subs[k..][0] == subs[k] && subs[k..][1..] == subs[k + 1..];
      if rest != [] {
        Trichotomy(rest[0].name, subs[k].name);
      }
    }
    assert forall a: seq<Mark>, b: Mark, c: seq<Mark> :: a + ([b] + c) == (a + [b]) + c;
  }

  /** The state of dt_list_diff_childs between two steps. */
  ghost predicate Sofar(once: Once, wk: Walker, from: seq<Line>, fromLog: seq<Event>, done: seq<Mark>, pid: nat,
                        path: Path, olds: seq<Dir>, subs: seq<Sub>, rest: seq<Dir>, k: nat)
    reads once, once.io, wk
  {
    && k <= |subs|
    && once.Since(from, MarkLines(done, pid, path)) && (once.done <==> AnyChange(done))
    && wk.log + MergeTrace(rest, subs[k..], path) == fromLog + MergeTrace(olds, subs, path)
  }

  lemma {:induction false} AnyChangeNext(done: seq<Mark>, m: Mark)
    ensures AnyChange(done + [m]) <==> AnyChange(done) || !m.KeptMark?
    ensures !AnyChange(done) ==> MarkLines(done, 0, []) == []
  {
    assert (done + [m])[|done|] == m;
    if AnyChange(done) {
      var i :| 0 <= i < |done| && !done[i].KeptMark?;
      assert (done + [m])[i] == done[i];
    }
    if !AnyChange(done) {
      NothingPrinted(done, 0, []);
    }
  }

  lemma {:induction false} NothingPrinted(done: seq<Mark>, pid: nat, path: Path)
    requires !AnyChange(done)
    ensures MarkLines(done, pid, path) == []
    decreases |done|
  {
    if done != [] {
      assert done[0].KeptMark?;
      forall i | 0 <= i < |done| - 1
        ensures done[1..][i].KeptMark?
      {
        assert done[i + 1].KeptMark?;
      }
      NothingPrinted(done[1..], pid, path);
    }
  }

  /** An old directory that is gone: its whole subtree is printed as deleted. The path of each of its
      directories leads up to the old root, whose name is looked at. */
  method Drop(once: Once, wk: Walker, was: Dir, ghost from: seq<Line>, ghost fromLog: seq<Event>, ghost done: seq<Mark>,
              pid: nat, path: Path, ghost olds: seq<Dir>, ghost subs: seq<Sub>, ghost rest: seq<Dir>, ghost k: nat)
    returns (died: bool)
    requires Sofar(once, wk, from, fromLog, done, pid, path, olds, subs, rest, k)
    requires rest != [] && was == rest[0] && (k == |subs| || Less(rest[0].name, subs[k].name))
    modifies once, once.io
    ensures died <==> once.io.oldRoot.None?
    ensures died ==> once.done && once.Since(from, MarkLines(done, pid, path))
    ensures !died ==> Sofar(once, wk, from, fromLog, done + [GoneMark(was)], pid, path, olds, subs, rest[1..], k)
  {
    hide MergeTrace, MarkLine, MarkLines, AnyChange, GoneLines;
    ghost var before, m := MarkLines(done, pid, path), GoneMark(was);
    once.Print();
    if once.io.oldRoot.None? {
      OnlyMarked(from, once.line, done, pid, path);
      return true;
    }
    died := false;
    DeleteTree(once.io, pid, was, path + [was.name]);
    MarkPrinted(from, once.line, done, m, pid, path);
    MarkIs(m, pid, path);
    AnyChangeNext(done, m);
    MergeTraceNext(rest, subs, k, path);
  }

  lemma {:induction false} OnlyMarked(from: seq<Line>, line: Line, done: seq<Mark>, pid: nat, path: Path)
    ensures var was := MarkLines(done, pid, path);
            !AnyChange(done) ==> from + [] + was + [line] == from + [line] + was
  {
    if !AnyChange(done) {
      NothingPrinted(done, pid, path);
    }
  }

  lemma MarkIs(m: Mark, pid: nat, path: Path)
    ensures m.GoneMark? ==> MarkLine(m, pid, path) == GoneLines(m.was, pid, path + [m.was.name])
    ensures m.FreshMark? ==> MarkLine(m, pid, path) == TreeLines(Add, m.dir, pid, path + [m.dir.name])
    ensures m.KeptMark? ==> MarkLine(m, pid, path) == []
  {
  }

  /** One more mark and its lines. */
  lemma {:induction false} MarkPrinted(from: seq<Line>, line: Line, done: seq<Mark>, m: Mark, pid: nat, path: Path)
    ensures var now, was := MarkLines(done + [m], pid, path), MarkLines(done, pid, path);
            && from + [line] + was + MarkLine(m, pid, path) == from + [line] + now
            && (!AnyChange(done) ==> from + [] + was + [line] + MarkLine(m, pid, path) == from + [line] + now)
            && (m.KeptMark? ==> now == was)
  {
    MarkIs(m, pid, path);
    var was, more := MarkLines(done, pid, path), MarkLine(m, pid, path);
    MarkLinesConcat(done, [m], pid, path);
    MarkAlone(m, pid, path, 0);
    if !AnyChange(done) {
      NothingPrinted(done, pid, path);
    }
    hide GoneLines, TreeLines, MarkLine, MarkLines, AnyChange;
    Regrouped(from, line, was, more);
  }

  lemma Regrouped(from: seq<Line>, line: Line, was: seq<Line>, more: seq<Line>)
    ensures from + [line] + was + more == from + [line] + (was + more)
    ensures was == [] ==> from + [] + was + [line] + more == from + [line] + (was + more)
    ensures was + [] == was
  {
  }

  lemma {:induction false} MergeTraceNext(rest: seq<Dir>, subs: seq<Sub>, k: nat, path: Path)
    requires k <= |subs|
    ensures rest != [] && (k == |subs| || Less(rest[0].name, subs[k].name))
            ==> MergeTrace(rest, subs[k..], path) == MergeTrace(rest[1..], subs[k..], path)
    ensures k < |subs| && (rest == [] || (!Less(rest[0].name, subs[k].name) && rest[0].name != subs[k].name))
            ==> MergeTrace(rest, subs[k..], path) == TraceSub(subs[k], path) + MergeTrace(rest, subs[k + 1..], path)
    ensures k < |subs| && rest != [] && rest[0].name == subs[k].name
            ==> MergeTrace(rest, subs[k..], path) == MergeTrace(rest[1..], subs[k + 1..], path)
    ensures k == |subs| && rest == [] ==> MergeTrace(rest, subs[k..], path) == []
  {
    if k < |subs| {
      assert subs[k..][0] == subs[k] && subs[k..][1..] == subs[k + 1..];
      if rest != [] {
        Trichotomy(rest[0].name, subs[k].name);
      }
    }
  }

  /** A new directory: it is read to the bottom and printed as added. */
  method Take(once: Once, wk: Walker, d: Dir, id: nat, ghost from: seq<Line>, ghost fromLog: seq<Event>,
              ghost done: seq<Mark>,
              pid: nat, path: Path, ghost olds: seq<Dir>, ghost subs: seq<Sub>, ghost rest: seq<Dir>, ghost k: nat)
    returns (d': Dir, id': nat)
    requires Sofar(once, wk, from, fromLog, done, pid, path, olds, subs, rest, k)
    requires k < |subs| && (rest == [] || (!Less(rest[0].name, subs[k].name) && rest[0].name != subs[k].name))
    requires wk.Valid() && wk.Listed()
    requires wk.here.subs == subs && wk.cwd == path && Proper(wk.here) && |wk.above| == |wk.cwd|
    requires d == Listed(subs[k].name, d.id, k, [], [])
    modifies once, once.io, wk
    ensures wk.Valid() && wk.Listed() && wk.here == old(wk.here) && wk.above == old(wk.above) && wk.cwd == old(wk.cwd)
    ensures ScanSub(subs[k], id, k, id + 1) == Scanned(d', id')
    ensures Sofar(once, wk, from, fromLog, done + [FreshMark(d')], pid, path, olds, subs, rest, k + 1)
  {
    hide Walker.Valid, MergeTrace, MarkLine, MarkLines, AnyChange, TreeLines, ScanSub, TraceSub;
    ghost var log := wk.log;
    once.Print();
    d', id' := AddTree(wk, once.io, pid, d, id, k);
    ScanSubShape(subs[k], id, k, id + 1);
    ghost var m := FreshMark(d');
    MarkPrinted(from, once.line, done, m, pid, path);
    MarkIs(m, pid, path);
    AnyChangeNext(done, m);
    MergeTraceNext(rest, subs, k, path);
    assert log + (TraceSub(subs[k], path) + MergeTrace(rest, subs[k + 1..], path))
        == wk.log + MergeTrace(rest, subs[k + 1..], path);
  }

  lemma {:induction false} KidsNext(done: seq<Mark>, m: Mark)
    ensures var kids := KidsOf(done, 0);
            && (m.GoneMark? ==> KidsOf(done + [m], 0) == kids)
            && (m.FreshMark? ==> KidsOf(done + [m], 0) == kids + [Kid(m.dir, true)])
            && (m.KeptMark? ==>
                  KidsOf(done + [m], 0) == kids + [Kid(Listed(m.was.name, m.was.id, |kids|, [], []), false)])
    ensures KeptOlds(done + [m]) == KeptOlds(done) + if m.KeptMark? then [m.was] else []
  {
    KidsConcat(done, [m], 0);
    MarkAlone(m, 0, [], |KidsOf(done, 0)|);
  }

  /** A name in both lists. */
  lemma {:induction false} KeepOn(once: Once, wk: Walker, from: seq<Line>, fromLog: seq<Event>, done: seq<Mark>,
                                  pid: nat, path: Path, olds: seq<Dir>, subs: seq<Sub>, rest: seq<Dir>, k: nat)
    requires Sofar(once, wk, from, fromLog, done, pid, path, olds, subs, rest, k)
    requires k < |subs| && rest != [] && rest[0].name == subs[k].name
    ensures Sofar(once, wk, from, fromLog, done + [KeptMark(rest[0])], pid, path, olds, subs, rest[1..], k + 1)
  {
    hide MergeTrace, MarkLine, MarkLines, AnyChange;
    var m := KeptMark(rest[0]);
    MarkPrinted(from, once.line, done, m, pid, path);
    AnyChangeNext(done, m);
    MergeTraceNext(rest, subs, k, path);
  }

  lemma NoneGone()
    ensures !AnyGone([])
  {
  }

  /** Nothing in front of this old directory is gone: the merge has come to the first that is. */
  lemma {:induction false} DropFirst(olds: seq<Dir>, subs: seq<Sub>, first: nat, done: seq<Mark>, rest: seq<Dir>,
                                     k: nat, next: nat)
    requires Merging(olds, subs, first, done, rest, k, next)
    requires rest != [] && (k == |subs| || Less(rest[0].name, subs[k].name))
    ensures AnyGone(Merge(olds, subs, 0, first).marks)
    ensures !AnyGone(done) ==> BeforeGone(Merge(olds, subs, 0, first).marks) == done
  {
    var tail := Merge(rest[1..], subs[k..], k, next).marks;
    assert Merge(rest, subs[k..], k, next).marks == [GoneMark(rest[0])] + tail;
    assert (done + ([GoneMark(rest[0])] + tail))[|done|] == GoneMark(rest[0]);
    if !AnyGone(done) {
      FirstGone(done, GoneMark(rest[0]), tail);
    }
  }

  ghost predicate Unnumbered(news: seq<Dir>, subs: seq<Sub>) {
    |news| == |subs| && forall i :: 0 <= i < |news| ==> news[i] == Listed(subs[i].name, 0, i, [], [])
  }

  lemma {:induction false} StartMerge(once: Once, wk: Walker, olds: seq<Dir>, subs: seq<Sub>, id: nat, pid: nat,
                                      path: Path)
    requires !once.done
    ensures At(once, wk, once.io.lines, wk.log, pid, path, olds, subs, id, [], 0, 0, [], [], id)
  {
    assert subs[0..] == subs && [] + Merge(olds, subs, 0, id).marks == Merge(olds, subs, 0, id).marks;
    assert olds[0..] == olds;
    NoneGone();
  }

  lemma {:induction false} EndMerge(once: Once, wk: Walker, from: seq<Line>, fromLog: seq<Event>, pid: nat, path: Path,
                                    olds: seq<Dir>, subs: seq<Sub>, first: nat, done: seq<Mark>, kids: seq<Kid>,
                                    kept: seq<Dir>, next: nat)
    requires At(once, wk, from, fromLog, pid, path, olds, subs, first, done, |olds|, |subs|, kids, kept, next)
    ensures var m := Merge(olds, subs, 0, first);
            && kids == KidsOf(m.marks, 0) && kept == KeptOlds(m.marks) && next == m.next
            && once.Since(from, MarkLines(m.marks, pid, path)) && (once.done <==> AnyChange(m.marks))
            && (once.io.oldRoot.None? ==> !AnyGone(m.marks))
    ensures wk.log == fromLog + MergeTrace(olds, subs, path)
  {
    assert olds[|olds|..] == [];
    MergingNext(olds, subs, first, done, [], |subs|, next);
    MergeTraceNext([], subs, |subs|, path);
    assert wk.log + [] == wk.log;
  }

  /** The state of dt_list_diff_childs, `i` old and `k` new directories on, with what it has collected. */
  ghost predicate At(once: Once, wk: Walker, from: seq<Line>, fromLog: seq<Event>, pid: nat, path: Path, olds: seq<Dir>,
                     subs: seq<Sub>, first: nat, done: seq<Mark>, i: nat, k: nat, kids: seq<Kid>, kept: seq<Dir>,
                     next: nat)
    reads once, once.io, wk
  {
    && i <= |olds| && k <= |subs| && Merging(olds, subs, first, done, olds[i..], k, next)
    && Sofar(once, wk, from, fromLog, done, pid, path, olds, subs, olds[i..], k)
    && kids == KidsOf(done, 0) && |kids| == k && kept == KeptOlds(done)
    && (once.io.oldRoot.None? ==> !AnyGone(done))
  }

  /** The program has died at the first old directory that is gone. */
  ghost predicate DiedThere(once: Once, from: seq<Line>, marks: seq<Mark>, pid: nat, path: Path)
    reads once, once.io
  {
    AnyGone(marks) && once.done && once.Since(from, MarkLines(BeforeGone(marks), pid, path))
  }

  method DropRound(once: Once, wk: Walker, ghost from: seq<Line>, ghost fromLog: seq<Event>, pid: nat, path: Path,
                   olds: seq<Dir>, ghost subs: seq<Sub>, ghost first: nat, ghost done: seq<Mark>, i: nat, ghost k: nat,
                   ghost kids: seq<Kid>, ghost kept: seq<Dir>, ghost next: nat)
    returns (died: bool, ghost done': seq<Mark>)
    requires At(once, wk, from, fromLog, pid, path, olds, subs, first, done, i, k, kids, kept, next)
    requires i < |olds| && (k == |subs| || Less(olds[i].name, subs[k].name))
    modifies once, once.io
    ensures died <==> once.io.oldRoot.None?
    ensures died ==> DiedThere(once, from, Merge(olds, subs, 0, first).marks, pid, path)
    ensures !died ==> At(once, wk, from, fromLog, pid, path, olds, subs, first, done', i + 1, k, kids, kept, next)
  {
    hide Sofar, Merging, MarkLines, AnyGone, Merge, KidsOf, KeptOlds;
    ghost var rest := olds[i..];
    assert rest[1..] == olds[i + 1..];
    MergingNext(olds, subs, first, done, rest, k, next);
    DropFirst(olds, subs, first, done, rest, k, next);
    KidsNext(done, GoneMark(olds[i]));
    AnyGoneNext(done, GoneMark(olds[i]));
    done' := done + [GoneMark(olds[i])];
    died := Drop(once, wk, olds[i], from, fromLog, done, pid, path, olds, subs, rest, k);
  }

  method TakeRound(once: Once, wk: Walker, ghost from: seq<Line>, ghost fromLog: seq<Event>, pid: nat, path: Path,
                   ghost olds: seq<Dir>, ghost subs: seq<Sub>, ghost first: nat, ghost done: seq<Mark>, ghost i: nat,
                   k: nat, d: Dir, kids: seq<Kid>, ghost kept: seq<Dir>, next: nat)
    returns (kids': seq<Kid>, next': nat, ghost done': seq<Mark>)
    requires At(once, wk, from, fromLog, pid, path, olds, subs, first, done, i, k, kids, kept, next)
    requires k < |subs| && d == Listed(subs[k].name, d.id, k, [], [])
    requires i == |olds| || (!Less(olds[i].name, subs[k].name) && olds[i].name != subs[k].name)
    requires wk.Valid() && wk.Listed()
    requires wk.here.subs == subs && wk.cwd == path && Proper(wk.here) && |wk.above| == |wk.cwd|
    modifies once, once.io, wk
    ensures wk.Valid() && wk.Listed() && wk.here == old(wk.here) && wk.above == old(wk.above) && wk.cwd == old(wk.cwd)
    ensures At(once, wk, from, fromLog, pid, path, olds, subs, first, done', i, k + 1, kids', kept, next')
  {
    hide Walker.Valid, Sofar, Merging, AnyGone, KidsOf, KeptOlds, ScanSub;
    ghost var rest := olds[i..];
    MergingNext(olds, subs, first, done, rest, k, next);
    var d', id' := Take(once, wk, d, next, from, fromLog, done, pid, path, olds, subs, rest, k);
    KidsNext(done, FreshMark(d'));
    AnyGoneNext(done, FreshMark(d'));
    kids', next', done' := kids + [Kid(d', true)], id', done + [FreshMark(d')];
  }

  lemma {:induction false} KeepRound(once: Once, wk: Walker, from: seq<Line>, fromLog: seq<Event>, pid: nat, path: Path,
                                     olds: seq<Dir>, subs: seq<Sub>, first: nat, done: seq<Mark>, i: nat, k: nat,
                                     kids: seq<Kid>, kept: seq<Dir>, next: nat)
    requires At(once, wk, from, fromLog, pid, path, olds, subs, first, done, i, k, kids, kept, next)
    requires k < |subs| && i < |olds| && olds[i].name == subs[k].name
    ensures At(once, wk, from, fromLog, pid, path, olds, subs, first, done + [KeptMark(olds[i])], i + 1, k + 1,
               kids + [Kid(Listed(subs[k].name, olds[i].id, k, [], []), false)], kept + [olds[i]], next)
  {
    hide Sofar, Merging, AnyGone, KidsOf, KeptOlds;
    var rest := olds[i..];
    assert rest[1..] == olds[i + 1..];
    MergingNext(olds, subs, first, done, rest, k, next);
    KeepOn(once, wk, from, fromLog, done, pid, path, olds, subs, rest, k);
    KidsNext(done, KeptMark(olds[i]));
    AnyGoneNext(done, KeptMark(olds[i]));
  }

  /** dt_list_diff_childs: the old and the new subdirectories of `d` are compared name by name. What is
      left of the old list are the directories that stay; the new list has their ids, and complete
      trees for those that are new. The program dies at an old directory that is gone if the name of
      the old root is not set. */
  method ListDiffChilds(once: Once, wk: Walker, pid: nat, path: Path, olds: seq<Dir>, news: seq<Dir>, id: nat,
                        ghost subs: seq<Sub>)
    returns (died: bool, kids: seq<Kid>, kept: seq<Dir>, id': nat)
    requires !once.done && Unnumbered(news, subs)
    requires wk.Valid() && wk.Listed()
    requires news != [] ==> wk.here.subs == subs && wk.cwd == path && Proper(wk.here) && |wk.above| == |wk.cwd|
    modifies once, once.io, wk
    ensures wk.Valid() && wk.Listed() && wk.here == old(wk.here) && wk.above == old(wk.above) && wk.cwd == old(wk.cwd)
    ensures died <==> once.io.oldRoot.None? && AnyGone(Merge(olds, subs, 0, id).marks)
    ensures died ==> DiedThere(once, old(once.io.lines), Merge(olds, subs, 0, id).marks, pid, path)
    ensures !died ==>
              var m := Merge(olds, subs, 0, id);
              && kids == KidsOf(m.marks, 0) && kept == KeptOlds(m.marks) && id' == m.next
              && once.Since(old(once.io.lines), MarkLines(m.marks, pid, path)) && (once.done <==> AnyChange(m.marks))
    ensures !died ==> wk.log == old(wk.log) + MergeTrace(olds, subs, path)
  {
    hide Walker.Valid, At, MarkLines, AnyChange, AnyGone, BeforeGone, Once.Since, MergeTrace, Merge, KidsOf, KeptOlds;
    ghost var done: seq<Mark> := [];
    ghost var from, fromLog := once.io.lines, wk.log;
    died, kids, kept, id' := false, [], [], id;
    var i, k := 0, 0;
    StartMerge(once, wk, olds, subs, id, pid, path);
    while i < |olds| && k < |news|
      invariant wk.Valid() && wk.Listed()
      invariant wk.here == old(wk.here) && wk.above == old(wk.above) && wk.cwd == old(wk.cwd)
      invariant i <= |olds| && k <= |news| && !died
      invariant At(once, wk, from, fromLog, pid, path, olds, subs, id, done, i, k, kids, kept, id')
      decreases |olds| - i + |news| - k
    {
      var cmp := Compare(olds[i].name, news[k].name);
      CompareZero(olds[i].name, news[k].name);
      if cmp == 0 {
        KeepRound(once, wk, from, fromLog, pid, path, olds, subs, id, done, i, k, kids, kept, id');
        kept := kept + [olds[i]];
        kids := kids + [Kid(news[k].(id := olds[i].id), false)];
        done := done + [KeptMark(olds[i])];
        i, k := i + 1, k + 1;
      } else if cmp < 0 {
        died, done := DropRound(once, wk, from, fromLog, pid, path, olds, subs, id, done, i, k, kids, kept, id');
        if died {
          DeathIs(once, from, Merge(olds, subs, 0, id).marks, pid, path);
          return;
        }
        i := i + 1;
      } else {
        kids, id', done :=
          TakeRound(once, wk, from, fromLog, pid, path, olds, subs, id, done, i, k, news[k], kids, kept, id');
        k := k + 1;
      }
    }
    while i < |olds|
      invariant wk.Valid() && wk.Listed()
      invariant wk.here == old(wk.here) && wk.above == old(wk.above) && wk.cwd == old(wk.cwd)
      invariant i <= |olds| && k <= |news| && (i < |olds| ==> k == |news|) && !died
      invariant At(once, wk, from, fromLog, pid, path, olds, subs, id, done, i, k, kids, kept, id')
    {
      died, done := DropRound(once, wk, from, fromLog, pid, path, olds, subs, id, done, i, k, kids, kept, id');
      if died {
        DeathIs(once, from, Merge(olds, subs, 0, id).marks, pid, path);
        return;
      }
      i := i + 1;
    }
    while k < |news|
      invariant wk.Valid() && wk.Listed()
      invariant wk.here == old(wk.here) && wk.above == old(wk.above) && wk.cwd == old(wk.cwd)
      invariant k <= |news| && !died
      invariant At(once, wk, from, fromLog, pid, path, olds, subs, id, done, i, k, kids, kept, id')
    {
      kids, id', done :=
        TakeRound(once, wk, from, fromLog, pid, path, olds, subs, id, done, i, k, news[k], kids, kept, id');
      k := k + 1;
    }
    EndMerge(once, wk, from, fromLog, pid, path, olds, subs, id, done, kids, kept, id');
  }

  lemma DeathIs(once: Once, from: seq<Line>, marks: seq<Mark>, pid: nat, path: Path)
    requires DiedThere(once, from, marks, pid, path)
    ensures AnyGone(marks)
  {
  }

  // ---------------------------------------------------------------- files

  lemma {:induction false} FileOpLinesConcat(a: seq<FileOp>, b: seq<FileOp>, pid: nat)
    ensures FileOpLines(a + b, pid) == FileOpLines(a, pid) + FileOpLines(b, pid)
    decreases |a|
  {
    hide FileOpLine;
    if a == [] {
      assert a + b == b;
    } else {
      FileOpLinesConcat(a[1..], b, pid);
      assert (a + b)[1..] == a[1..] + b && (a + b)[0] == a[0];
    }
  }

  lemma {:induction false} NoFileLine(fops: seq<FileOp>, pid: nat)
    requires !AnyFileChange(fops)
    ensures FileOpLines(fops, pid) == []
    decreases |fops|
  {
    if fops != [] {
      assert !Differs(fops[0]);
      forall i | 0 <= i < |fops| - 1
        ensures !Differs(fops[1..][i])
      {
        assert !Differs(fops[i + 1]);
      }
      NoFileLine(fops[1..], pid);
    }
  }

  lemma {:induction false} FileOpNext(done: seq<FileOp>, op: FileOp, pid: nat)
    ensures FileOpLines(done + [op], pid) == FileOpLines(done, pid) + FileOpLine(op, pid)
    ensures AnyFileChange(done + [op]) <==> AnyFileChange(done) || Differs(op)
    ensures !Differs(op) ==> FileOpLine(op, pid) == []
    ensures !AnyFileChange(done) ==> FileOpLines(done, pid) == []
  {
    FileOpLinesConcat(done, [op], pid);
    assert [op][1..] == [];
    assert (done + [op])[|done|] == op;
    if AnyFileChange(done) {
      var i :| 0 <= i < |done| && Differs(done[i]);
      assert (done + [op])[i] == done[i];
    } else {
      NoFileLine(done, pid);
    }
  }

  /** The state of dt_list_diff between two steps; `before` are the lines of the subdirectories. */
  ghost predicate FilesSofar(once: Once, from: seq<Line>, before: seq<Line>, changed: bool, pid: nat, olds: seq<File>,
                             files: seq<Plain>, s: nat, done: seq<FileOp>, rest: seq<File>, k: nat)
    reads once, once.io
  {
    && k <= |files| && MergeFiles(olds, files, s) == done + MergeFiles(rest, files[k..], s + k)
    && once.Since(from, before + FileOpLines(done, pid)) && (once.done <==> changed || AnyFileChange(done))
  }

  /** What one comparison decides, and prints. */
  method FileStep(once: Once, op: FileOp, ghost from: seq<Line>, ghost before: seq<Line>, ghost changed: bool, pid: nat,
                  ghost olds: seq<File>, ghost files: seq<Plain>, ghost s: nat, ghost done: seq<FileOp>,
                  ghost rest: seq<File>, ghost k: nat)
    requires FilesSofar(once, from, before, changed, pid, olds, files, s, done, rest, k) && (!changed ==> before == [])
    requires MergeFiles(rest, files[k..], s + k) != [] && op == MergeFiles(rest, files[k..], s + k)[0]
    modifies once, once.io
    ensures var rest' := if op.FileFresh? then rest else if rest == [] then [] else rest[1..];
            var k' := if op.FileGone? then k else k + 1;
            FilesSofar(once, from, before, changed, pid, olds, files, s, done + [op], rest', k')
  {
    hide MergeFiles, FileOpLines, AnyFileChange;
    MergeFilesNext(rest, files, k, s);
    FileOpNext(done, op, pid);
    ghost var was, lines := FileOpLines(done, pid), FileOpLine(op, pid);
    if Differs(op) {
      once.Print();
      once.io.Print(FileOpLine(op, pid));
    }
    Regrouped(from, once.line, before + was, lines);
    assert before + was + lines == before + (was + lines);
    assert before + was + [] == before + was;
  }

  lemma {:induction false} MergeFilesNext(rest: seq<File>, files: seq<Plain>, k: nat, s: nat)
    requires k <= |files|
    ensures var m := MergeFiles(rest, files[k..], s + k);
            m != [] ==>
              var rest' := if m[0].FileFresh? then rest else if rest == [] then [] else rest[1..];
              var k' := if m[0].FileGone? then k else k + 1;
              k' <= |files| && m == [m[0]] + MergeFiles(rest', files[k'..], s + k')
    ensures forall a: seq<FileOp>, b: FileOp, c: seq<FileOp> :: a + ([b] + c) == (a + [b]) + c
  {
    assert k < |files| ==> files[k..][0] == files[k] && files[k..][1..] == files[k + 1..];
  }

  lemma {:induction false} FileChoice(rest: seq<File>, files: seq<Plain>, k: nat, s: nat)
    requires k <= |files|
    ensures var m := MergeFiles(rest, files[k..], s + k);
            && (rest != [] && (k == |files| || Compare(rest[0].name, files[k].name) < 0)
                ==> m != [] && m[0] == FileGone(rest[0]))
            && (k < |files| && (rest == [] || Compare(rest[0].name, files[k].name) > 0)
                ==> m != [] && m[0] == FileFresh(File(files[k].name, s + k, files[k].size)))
            && (k < |files| && rest != [] && Compare(rest[0].name, files[k].name) == 0
                ==> m != [] && m[0] == FileSame(rest[0], File(files[k].name, s + k, files[k].size)))
            && (k == |files| && rest == [] ==> m == [])
  {
    assert k < |files| ==> files[k..][0] == files[k];
    if k < |files| && rest != [] {
      CompareZero(rest[0].name, files[k].name);
    }
  }

  /** dt_list_diff */
  method ListDiff(once: Once, pid: nat, olds: seq<File>, news: seq<File>, ghost files: seq<Plain>, ghost s: nat,
                  ghost from: seq<Line>, ghost before: seq<Line>, ghost changed: bool)
    requires news == Numbering(files, s) && (!changed ==> before == [])
    requires once.Since(from, before) && (once.done <==> changed)
    modifies once, once.io
    ensures var fops := MergeFiles(olds, files, s);
            once.Since(from, before + FileOpLines(fops, pid)) && (once.done <==> changed || AnyFileChange(fops))
  {
    hide FilesSofar, MergeFiles, FileOpLines, AnyFileChange;
    ghost var done: seq<FileOp> := [];
    NumberingShape(files, s);
    StartFiles(once, from, before, changed, pid, olds, files, s);
    var i, k := 0, 0;
    while i < |olds| || k < |news|
      invariant i <= |olds| && k <= |news|
      invariant FilesSofar(once, from, before, changed, pid, olds, files, s, done, olds[i..], k)
      decreases |olds| - i + |news| - k
    {
      ghost var rest := olds[i..];
      assert i < |olds| ==> rest[1..] == olds[i + 1..];
      FileChoice(rest, files, k, s);
      var op;
      if i < |olds| && (k == |news| || Compare(olds[i].name, news[k].name) < 0) {
        op := FileGone(olds[i]);
      } else if i == |olds| || Compare(olds[i].name, news[k].name) > 0 {
        op := FileFresh(news[k]);
      } else {
        op := FileSame(olds[i], news[k]);
      }
      FileStep(once, op, from, before, changed, pid, olds, files, s, done, rest, k);
      done := done + [op];
      i, k := if op.FileFresh? then i else i + 1, if op.FileGone? then k else k + 1;
    }
    assert olds[i..] == [];
    EndFiles(once, from, before, changed, pid, olds, files, s, done);
  }

  lemma {:induction false} StartFiles(once: Once, from: seq<Line>, before: seq<Line>, changed: bool, pid: nat,
                                      olds: seq<File>, files: seq<Plain>, s: nat)
    requires once.Since(from, before) && (once.done <==> changed)
    ensures FilesSofar(once, from, before, changed, pid, olds, files, s, [], olds[0..], 0)
  {
    assert olds[0..] == olds && files[0..] == files && before + [] == before;
    assert [] + MergeFiles(olds, files, s) == MergeFiles(olds, files, s);
  }

  lemma {:induction false} EndFiles(once: Once, from: seq<Line>, before: seq<Line>, changed: bool, pid: nat,
                                    olds: seq<File>, files: seq<Plain>, s: nat, done: seq<FileOp>)
    requires FilesSofar(once, from, before, changed, pid, olds, files, s, done, [], |files|)
    ensures MergeFiles(olds, files, s) == done
    ensures once.Since(from, before + FileOpLines(done, pid)) && (once.done <==> changed || AnyFileChange(done))
  {
    FileChoice([], files, |files|, s);
    assert done + [] == done;
  }

  // ---------------------------------------------------------------- the lists after the merge

  function StayingKids(kids: seq<Kid>): seq<Dir> {
    if kids == [] then [] else (if kids[0].isNew then [] else [kids[0].d]) + StayingKids(kids[1..])
  }

  /** The old list, relinked, runs in step with the children that are not new: same names, same ids,
      same order. */
  lemma {:induction false} KeptInStep(marks: seq<Mark>, fid: nat)
    ensures Alike(StayingKids(KidsOf(marks, fid)), KeptOlds(marks))
    decreases |marks|
  {
    hide Alike;
    if marks == [] {
      NoneAlike();
    } else if marks[0].GoneMark? {
      KeptInStep(marks[1..], fid);
      assert KeptOlds(marks) == KeptOlds(marks[1..]);
    } else {
      var kids, rest := KidsOf(marks, fid), KidsOf(marks[1..], fid + 1);
      KeptInStep(marks[1..], fid + 1);
      assert kids[1..] == rest;
      if marks[0].KeptMark? {
        OneAlike(kids[0].d, marks[0].was, StayingKids(rest), KeptOlds(marks[1..]));
      } else {
        assert StayingKids(kids) == StayingKids(rest) && KeptOlds(marks) == KeptOlds(marks[1..]);
      }
    }
  }

  predicate Alike(a: seq<Dir>, b: seq<Dir>) {
    |a| == |b| && forall i :: 0 <= i < |a| ==> a[i].name == b[i].name && a[i].id == b[i].id
  }

  lemma NoneAlike()
    ensures Alike([], [])
  {
  }

  lemma OneAlike(x: Dir, y: Dir, a: seq<Dir>, b: seq<Dir>)
    requires Alike(a, b) && x.name == y.name && x.id == y.id
    ensures Alike([x] + a, [y] + b)
  {
  }
}
