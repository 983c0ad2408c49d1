/** Walking a share in step with the tree of its last scan. */
module Diff {
  import opened Names
  import opened Trees
  import opened Image
  import opened Paths
  import opened Deltas
  import opened Scan
  import opened Listings

  /** What the merge of two subdirectory listings decides at once. New subtrees are walked on the
      spot; those that stay are entered later. */
  datatype Mark = GoneMark(was: Dir) | FreshMark(dir: Dir) | KeptMark(was: Dir)

  datatype Merged = Merged(marks: seq<Mark>, next: nat)
  datatype Built = Built(delta: Delta, next: nat)
  datatype BuiltAll = BuiltAll(ops: seq<Op>, next: nat)

  /** dt_list_diff_childs: names are compared from the front; a new subtree takes the next id for
      itself and those after it for its contents. */
  function Merge(olds: seq<Dir>, subs: seq<Sub>, fid: nat, next: nat): Merged
    decreases |olds| + |subs|
  {
    if olds == [] && subs == [] then Merged([], next)
    else if olds != [] && (subs == [] || Less(olds[0].name, subs[0].name)) then
      var rest := Merge(olds[1..], subs, fid, next);
      Merged([GoneMark(olds[0])] + rest.marks, rest.next)
    else if olds == [] || olds[0].name != subs[0].name then
      var sub := ScanSub(subs[0], next, fid, next + 1);
      var rest := Merge(olds, subs[1..], fid + 1, sub.next);
      Merged([FreshMark(sub.dir)] + rest.marks, rest.next)
    else
      var rest := Merge(olds[1..], subs[1..], fid + 1, next);
      Merged([KeptMark(olds[0])] + rest.marks, rest.next)
  }

  /** dt_list_diff. */
  function MergeFiles(olds: seq<File>, files: seq<Plain>, fid: nat): seq<FileOp>
    decreases |olds| + |files|
  {
    if olds == [] && files == [] then []
    else if olds != [] && (files == [] || Less(olds[0].name, files[0].name)) then
      [FileGone(olds[0])] + MergeFiles(olds[1..], files, fid)
    else if olds == [] || olds[0].name != files[0].name then
      [FileFresh(File(files[0].name, fid, files[0].size))] + MergeFiles(olds, files[1..], fid + 1)
    else
      [FileSame(olds[0], File(files[0].name, fid, files[0].size))] + MergeFiles(olds[1..], files[1..], fid + 1)
  }

  /** A directory that stays, with its merged listings: it keeps its id and gets its new position. */
  function Joined(was: Dir, fid: nat, ops: seq<Op>, fops: seq<FileOp>): Delta {
    Delta(was, Listed(was.name, was.id, fid, News(ops), FileNews(fops)), ops, fops)
  }

  function DiffDir(was: Dir, fid: nat, n: Node, next: nat): Built
    decreases n, 0, 0
  {
    var merged := Merge(was.dirs, n.subs, 0, next);
    var all := Descend(merged.marks, n.subs, 0, merged.next);
    Built(Joined(was, fid, all.ops, MergeFiles(was.files, n.files, |n.subs|)), all.next)
  }

  /** A directory that stays but cannot be entered is read as empty. */
  function DiffSub(was: Dir, fid: nat, sub: Sub, next: nat): Built
    decreases sub, 0, 0
  {
    if sub.entered then DiffDir(was, fid, sub.node, next)
    else
      var merged := Merge(was.dirs, [], 0, next);
      Built(Joined(was, fid, Settled(merged.marks), MergeFiles(was.files, [], 0)), merged.next)
  }

  /** The operations of a merge in which nothing stays. */
  function Settled(marks: seq<Mark>): seq<Op> {
    if marks == [] then []
    else
      [if marks[0].FreshMark? then Fresh(marks[0].dir) else Gone(marks[0].was)] + Settled(marks[1..])
  }

  /** Entering the subdirectories that stay, in order. */
  function Descend(marks: seq<Mark>, subs: seq<Sub>, fid: nat, next: nat): BuiltAll
    decreases subs, |marks|, 1
  {
    if marks == [] then BuiltAll([], next)
    else if marks[0].GoneMark? then
      var rest := Descend(marks[1..], subs, fid, next);
      BuiltAll([Gone(marks[0].was)] + rest.ops, rest.next)
    else if subs == [] then BuiltAll([], next)
    else if marks[0].FreshMark? then
      var rest := Descend(marks[1..], subs[1..], fid + 1, next);
      BuiltAll([Fresh(marks[0].dir)] + rest.ops, rest.next)
    else
      var first := DiffSub(marks[0].was, fid, subs[0], next);
      var rest := Descend(marks[1..], subs[1..], fid + 1, first.next);
      BuiltAll([Same(first.delta)] + rest.ops, rest.next)
  }

  /** dt_diff, given the old tree and its largest id. */
  function DiffScan(was: Dir, n: Node, maxid: nat): Delta {
    DiffDir(was, 0, n, maxid + 1).delta
  }

  // ---------------------------------------------------------------- the merge

  function MarkOlds(marks: seq<Mark>): seq<Dir> {
    if marks == [] then []
    else (if marks[0].FreshMark? then [] else [marks[0].was]) + MarkOlds(marks[1..])
  }

  function MarkName(m: Mark): string {
    if m.FreshMark? then m.dir.name else m.was.name
  }

  function MarkNames(marks: seq<Mark>): seq<string> {
    seq(|marks|, i requires 0 <= i < |marks| => MarkName(marks[i]))
  }

  /** The marks account for the new listing, one by one, and stand on well-formed trees. */
  ghost predicate Covers(marks: seq<Mark>, subs: seq<Sub>, fid: nat) {
    if marks == [] then subs == []
    else
      match marks[0]
      case GoneMark(d) => Canonical(d) && Covers(marks[1..], subs, fid)
      case FreshMark(d) =>
        && subs != [] && d.name == subs[0].name && d.fid == fid && Canonical(d) && SizesTrue(d)
        && Covers(marks[1..], subs[1..], fid + 1)
      case KeptMark(d) =>
        && subs != [] && d.name == subs[0].name && Canonical(d)
        && Covers(marks[1..], subs[1..], fid + 1)
  }

  ghost predicate AllCanonical(olds: seq<Dir>) {
    forall d :: d in olds ==> Canonical(d)
  }

  ghost predicate AllProper(subs: seq<Sub>) {
    forall sub :: sub in subs ==> GoodName(sub.name) && Proper(sub.node)
  }

  lemma {:induction false} MergeCovers(olds: seq<Dir>, subs: seq<Sub>, fid: nat, next: nat)
    requires AllCanonical(olds) && AllProper(subs) && next > 0
    ensures var r := Merge(olds, subs, fid, next);
            && next <= r.next && Covers(r.marks, subs, fid) && MarkOlds(r.marks) == olds
    decreases |olds| + |subs|
  {
    if olds == [] && subs == [] {
    } else if olds != [] && (subs == [] || Less(olds[0].name, subs[0].name)) {
      MergeCovers(olds[1..], subs, fid, next);
    } else if olds == [] || olds[0].name != subs[0].name {
      var sub := ScanSub(subs[0], next, fid, next + 1);
      ScanSubShape(subs[0], next, fid, next + 1);
      ScanSubCanonical(subs[0], next, fid, next + 1);
      MergeCovers(olds, subs[1..], fid + 1, sub.next);
    } else {
      MergeCovers(olds[1..], subs[1..], fid + 1, next);
    }
  }

  lemma {:induction false} MergeNames(olds: seq<Dir>, subs: seq<Sub>, fid: nat, next: nat)
    requires Sorted(DirNames(olds)) && Sorted(SubNames(subs))
    ensures var names := MarkNames(Merge(olds, subs, fid, next).marks);
            && Sorted(names) && forall x :: x in names ==> x in DirNames(olds) || x in SubNames(subs)
    decreases |olds| + |subs|
  {
    var names := MarkNames(Merge(olds, subs, fid, next).marks);
    NothingSorted();
    hide Sorted, Compare;
    if olds == [] && subs == [] {
      assert names == [];
    } else if olds != [] && (subs == [] || Less(olds[0].name, subs[0].name)) {
      var rest := Merge(olds[1..], subs, fid, next).marks;
      DirNamesTail(olds);
      MergeNames(olds[1..], subs, fid, next);
      Bounded(olds[0].name, olds, subs);
      PutSmallest(olds[0].name, MarkNames(rest));
      assert names == [olds[0].name] + MarkNames(rest);
    } else if olds == [] || olds[0].name != subs[0].name {
      var sub := ScanSub(subs[0], next, fid, next + 1);
      var rest := Merge(olds, subs[1..], fid + 1, sub.next).marks;
      ScanSubShape(subs[0], next, fid, next + 1);
      SubNamesTail(subs);
      MergeNames(olds, subs[1..], fid + 1, sub.next);
      if olds != [] { Trichotomy(olds[0].name, subs[0].name); }
      Bounded(subs[0].name, olds, subs);
      PutSmallest(subs[0].name, MarkNames(rest));
      assert names == [subs[0].name] + MarkNames(rest);
    } else {
      var rest := Merge(olds[1..], subs[1..], fid + 1, next).marks;
      DirNamesTail(olds);
      SubNamesTail(subs);
      MergeNames(olds[1..], subs[1..], fid + 1, next);
      Bounded(olds[0].name, olds, subs);
      PutSmallest(olds[0].name, MarkNames(rest));
      assert names == [olds[0].name] + MarkNames(rest);
    }
  }

  lemma NothingSorted()
    ensures Sorted([])
  {
  }

  lemma {:induction false} DirNamesTail(ds: seq<Dir>)
    requires ds != []
    ensures DirNames(ds) == [ds[0].name] + DirNames(ds[1..])
    ensures Sorted(DirNames(ds)) ==> Sorted(DirNames(ds[1..]))
  {
    assert forall i :: 0 <= i < |ds| - 1 ==> DirNames(ds[1..])[i] == DirNames(ds)[i + 1];
  }

  lemma {:induction false} SubNamesTail(subs: seq<Sub>)
    requires subs != []
    ensures SubNames(subs) == [subs[0].name] + SubNames(subs[1..])
    ensures Sorted(SubNames(subs)) ==> Sorted(SubNames(subs[1..]))
  {
    assert forall i :: 0 <= i < |subs| - 1 ==> SubNames(subs[1..])[i] == SubNames(subs)[i + 1];
  }

  /** A name not above either first name is below all the others. */
  lemma {:induction false} Bounded(x: string, olds: seq<Dir>, subs: seq<Sub>)
    requires Sorted(DirNames(olds)) && Sorted(SubNames(subs))
    requires olds != [] ==> x == olds[0].name || Less(x, olds[0].name)
    requires subs != [] ==> x == subs[0].name || Less(x, subs[0].name)
    ensures forall y :: y in DirNames(olds) ==> y == x || Less(x, y)
    ensures forall y :: y in SubNames(subs) ==> y == x || Less(x, y)
    ensures olds != [] && x == olds[0].name ==> forall y :: y in DirNames(olds[1..]) ==> Less(x, y)
    ensures subs != [] && x == subs[0].name ==> forall y :: y in SubNames(subs[1..]) ==> Less(x, y)
    ensures olds != [] && Less(x, olds[0].name) ==> forall y :: y in DirNames(olds) ==> Less(x, y)
    ensures subs != [] && Less(x, subs[0].name) ==> forall y :: y in SubNames(subs) ==> Less(x, y)
  {
    if olds != [] {
      DirNamesTail(olds);
      SortedHead(DirNames(olds), x);
    }
    if subs != [] {
      SubNamesTail(subs);
      SortedHead(SubNames(subs), x);
    }
  }

  lemma {:induction false} SortedHead(names: seq<string>, x: string)
    requires Sorted(names) && names != [] && (x == names[0] || Less(x, names[0]))
    ensures forall y :: y in names[1..] ==> Less(x, y)
  {
    forall y | y in names[1..]
      ensures Less(x, y)
    {
      var i :| 0 <= i < |names[1..]| && names[1..][i] == y;
      assert Less(names[0], names[i + 1]);
      if x != names[0] {
        LessTransitive(x, names[0], y);
      }
    }
  }

  lemma PutSmallest(x: string, names: seq<string>)
    requires Sorted(names) && forall y :: y in names ==> Less(x, y)
    ensures Sorted([x] + names)
  {
  }

  /** The operations account for both listings of files. */
  ghost predicate FilesFit(fops: seq<FileOp>, olds: seq<File>, news: seq<File>) {
    && FileOlds(fops) == olds && FileNews(fops) == news
    && forall i :: 0 <= i < |fops| && fops[i].FileSame? ==> fops[i].was.name == fops[i].file.name
  }

  lemma {:induction false} FilesFitCons(op: FileOp, rest: seq<FileOp>, olds: seq<File>, news: seq<File>)
    requires FilesFit(rest, olds, news) && (op.FileSame? ==> op.was.name == op.file.name)
    ensures FilesFit([op] + rest, if op.FileFresh? then olds else [op.was] + olds,
                     if op.FileGone? then news else [op.file] + news)
  {
    assert ([op] + rest)[1..] == rest;
  }

  lemma {:induction false} MergeFilesFits(olds: seq<File>, files: seq<Plain>, fid: nat)
    ensures FilesFit(MergeFiles(olds, files, fid), olds, Numbering(files, fid))
    decreases |olds| + |files|
  {
    if olds == [] && files == [] {
    } else if olds != [] && (files == [] || Less(olds[0].name, files[0].name)) {
      MergeFilesFits(olds[1..], files, fid);
      FilesFitCons(FileGone(olds[0]), MergeFiles(olds[1..], files, fid), olds[1..], Numbering(files, fid));
      assert olds == [olds[0]] + olds[1..];
    } else if olds == [] || olds[0].name != files[0].name {
      MergeFilesFits(olds, files[1..], fid + 1);
      FilesFitCons(FileFresh(File(files[0].name, fid, files[0].size)), MergeFiles(olds, files[1..], fid + 1),
                   olds, Numbering(files[1..], fid + 1));
    } else {
      MergeFilesFits(olds[1..], files[1..], fid + 1);
      FilesFitCons(FileSame(olds[0], File(files[0].name, fid, files[0].size)),
                   MergeFiles(olds[1..], files[1..], fid + 1),
                   olds[1..], Numbering(files[1..], fid + 1));
      assert olds == [olds[0]] + olds[1..];
    }
  }

  // ---------------------------------------------------------------- a directory that stays

  /** What walking a directory that stays has to deliver. */
  ghost predicate Right(e: Delta, was: Dir, fid: nat) {
    && e.was == was && e.dir.fid == fid && Fits(e)
    && Canonical(e.dir) && SizesTrue(e.dir) && DistinctNames(Both(e))
  }

  ghost predicate AllRight(ops: seq<Op>, marks: seq<Mark>, subs: seq<Sub>, fid: nat) {
    && FitsOf(ops) && Olds(ops) == MarkOlds(marks)
    && DirsFrom(News(ops), fid) && DirNames(News(ops)) == SubNames(subs)
    && (forall d :: d in News(ops) ==> Canonical(d) && SizesTrue(d))
    && DirNames(BothOf(ops)) == MarkNames(marks) && (forall d :: d in BothOf(ops) ==> DistinctNames(d))
  }

  lemma {:induction false} JoinedRight(was: Dir, fid: nat, ops: seq<Op>, marks: seq<Mark>, subs: seq<Sub>,
                                       files: seq<Plain>)
    requires Canonical(was) && AllRight(ops, marks, subs, 0) && MarkOlds(marks) == was.dirs && Sorted(MarkNames(marks))
    requires AllProper(subs) && Sorted(SubNames(subs))
    requires Sorted(PlainNames(files)) && forall i :: 0 <= i < |files| ==> GoodName(files[i].name)
    ensures Right(Joined(was, fid, ops, MergeFiles(was.files, files, |subs|)), was, fid)
  {
    var fops := MergeFiles(was.files, files, |subs|);
    var e := Joined(was, fid, ops, fops);
    MergeFilesFits(was.files, files, |subs|);
    JoinedFits(was, fid, ops, fops, subs, files);
    JoinedCanonical(e.dir, subs, files);
    SizesTotal(e.dir.dirs);
    NamesApart(BothOf(ops));
  }

  lemma {:induction false} JoinedFits(was: Dir, fid: nat, ops: seq<Op>, fops: seq<FileOp>, subs: seq<Sub>,
                                      files: seq<Plain>)
    requires Canonical(was) && FitsOf(ops) && Olds(ops) == was.dirs
    requires DirsFrom(News(ops), 0) && |News(ops)| == |subs|
    requires FilesFit(fops, was.files, Numbering(files, |subs|))
    ensures Fits(Joined(was, fid, ops, fops))
  {
    NumberingShape(files, |subs|);
  }

  lemma {:induction false} JoinedCanonical(d: Dir, subs: seq<Sub>, files: seq<Plain>)
    requires d.id > 0 && Numbered(d) && DirNames(d.dirs) == SubNames(subs) && d.files == Numbering(files, |subs|)
    requires forall c :: c in d.dirs ==> Canonical(c)
    requires AllProper(subs) && Sorted(SubNames(subs))
    requires Sorted(PlainNames(files)) && forall i :: 0 <= i < |files| ==> GoodName(files[i].name)
    ensures Canonical(d)
  {
    NumberingShape(files, |subs|);
    assert FileNames(d.files) == PlainNames(files);
    forall i | 0 <= i < |d.dirs|
      ensures GoodName(d.dirs[i].name)
    {
      assert d.dirs[i].name == DirNames(d.dirs)[i] == SubNames(subs)[i];
      assert subs[i] in subs;
    }
  }

  lemma {:induction false} NamesApart(ds: seq<Dir>)
    requires Sorted(DirNames(ds)) && forall d :: d in ds ==> DistinctNames(d)
    ensures DistinctNamesOf(ds)
    decreases |ds|
  {
    if ds != [] {
      forall i | 1 <= i < |ds|
        ensures ds[i].name != ds[0].name
      {
        assert Less(DirNames(ds)[0], DirNames(ds)[i]);
        Trichotomy(ds[0].name, ds[i].name);
      }
      DirNamesTail(ds);
      assert ds[0] in ds;
      NamesApart(ds[1..]);
    }
  }

  lemma {:induction false} DiffDirRight(was: Dir, fid: nat, n: Node, next: nat)
    requires Canonical(was) && Proper(n) && next > 0
    ensures Right(DiffDir(was, fid, n, next).delta, was, fid) && next <= DiffDir(was, fid, n, next).next
    decreases n, 0, 0
  {
    var merged := Merge(was.dirs, n.subs, 0, next);
    assert AllCanonical(was.dirs) && AllProper(n.subs);
    MergeCovers(was.dirs, n.subs, 0, next);
    MergeNames(was.dirs, n.subs, 0, next);
    DescendRight(merged.marks, n.subs, 0, merged.next);
    var all := Descend(merged.marks, n.subs, 0, merged.next);
    JoinedRight(was, fid, all.ops, merged.marks, n.subs, n.files);
  }

  lemma {:induction false} DiffSubRight(was: Dir, fid: nat, sub: Sub, next: nat)
    requires Canonical(was) && Proper(sub.node) && next > 0
    ensures Right(DiffSub(was, fid, sub, next).delta, was, fid) && next <= DiffSub(was, fid, sub, next).next
    decreases sub, 0, 0
  {
    if sub.entered {
      assert sub.node < sub;
      DiffDirRight(was, fid, sub.node, next);
    } else {
      var merged := Merge(was.dirs, [], 0, next);
      assert AllCanonical(was.dirs) && AllProper([]);
      MergeCovers(was.dirs, [], 0, next);
      MergeNames(was.dirs, [], 0, next);
      SettledRight(merged.marks);
      JoinedRight(was, fid, Settled(merged.marks), merged.marks, [], []);
    }
  }

  lemma {:induction false} SettledRight(marks: seq<Mark>)
    requires Covers(marks, [], 0)
    ensures AllRight(Settled(marks), marks, [], 0)
    decreases |marks|
  {
    if marks != [] {
      var ops, rest := Settled(marks), Settled(marks[1..]);
      SettledRight(marks[1..]);
      GoneRight(ops, rest, marks, [], 0);
    }
  }

  lemma {:induction false} GoneRight(ops: seq<Op>, rest: seq<Op>, marks: seq<Mark>, subs: seq<Sub>, fid: nat)
    requires marks != [] && marks[0].GoneMark? && Canonical(marks[0].was)
    requires ops == [Gone(marks[0].was)] + rest && AllRight(rest, marks[1..], subs, fid)
    ensures AllRight(ops, marks, subs, fid)
  {
    assert ops[1..] == rest;
    assert News(ops) == News(rest);
    assert BothOf(ops) == [marks[0].was] + BothOf(rest);
    CanonicalNames(marks[0].was);
    NamesCons(marks, BothOf(ops), BothOf(rest));
  }

  lemma {:induction false} NamesCons(marks: seq<Mark>, ds: seq<Dir>, rest: seq<Dir>)
    requires marks != [] && ds != [] && ds[1..] == rest && ds[0].name == MarkName(marks[0])
    requires DirNames(rest) == MarkNames(marks[1..])
    ensures DirNames(ds) == MarkNames(marks)
  {
    DirNamesTail(ds);
    assert MarkNames(marks) == [MarkName(marks[0])] + MarkNames(marks[1..]);
  }

  /** One more entry of the new listing. */
  lemma {:induction false} NewRight(ops: seq<Op>, rest: seq<Op>, marks: seq<Mark>, subs: seq<Sub>, fid: nat, d: Dir,
                                    both: Dir)
    requires marks != [] && subs != [] && AllRight(rest, marks[1..], subs[1..], fid + 1)
    requires ops != [] && ops[1..] == rest
    requires FitsOf(ops) && Olds(ops) == MarkOlds(marks)
    requires News(ops) == [d] + News(rest) && d.fid == fid && d.name == subs[0].name && Canonical(d) && SizesTrue(d)
    requires BothOf(ops) == [both] + BothOf(rest) && both.name == MarkName(marks[0]) && DistinctNames(both)
    ensures AllRight(ops, marks, subs, fid)
  {
    SubNamesTail(subs);
    DirNamesTail(News(ops));
    NamesCons(marks, BothOf(ops), BothOf(rest));
    forall i | 0 <= i < |News(ops)|
      ensures News(ops)[i].fid == fid + i
    {
      assert i > 0 ==> News(ops)[i] == News(rest)[i - 1];
    }
  }

  lemma {:induction false} DescendRight(marks: seq<Mark>, subs: seq<Sub>, fid: nat, next: nat)
    requires Covers(marks, subs, fid) && AllProper(subs) && next > 0
    ensures AllRight(Descend(marks, subs, fid, next).ops, marks, subs, fid)
            && next <= Descend(marks, subs, fid, next).next
    decreases subs, |marks|, 1
  {
    if marks != [] {
      var ops := Descend(marks, subs, fid, next).ops;
      match marks[0] {
        case GoneMark(d) =>
          DescendRight(marks[1..], subs, fid, next);
          GoneRight(ops, Descend(marks[1..], subs, fid, next).ops, marks, subs, fid);
        case FreshMark(d) =>
          var rest := Descend(marks[1..], subs[1..], fid + 1, next).ops;
          assert ops == [Fresh(d)] + rest && ops[1..] == rest;
          DescendRight(marks[1..], subs[1..], fid + 1, next);
          CanonicalPositive(d);
          CanonicalDistinct(d);
          CanonicalNames(d);
          NewRight(ops, rest, marks, subs, fid, d, d);
        case KeptMark(d) =>
          var first := DiffSub(d, fid, subs[0], next);
          var rest := Descend(marks[1..], subs[1..], fid + 1, first.next).ops;
          assert ops == [Same(first.delta)] + rest && ops[1..] == rest;
          assert subs[0] in subs;
          DiffSubRight(d, fid, subs[0], next);
          DescendRight(marks[1..], subs[1..], fid + 1, first.next);
          NewRight(ops, rest, marks, subs, fid, first.delta.dir, Both(first.delta));
      }
    }
  }

  // ---------------------------------------------------------------- ids

  function MarkDir(m: Mark): Dir {
    if m.FreshMark? then m.dir else m.was
  }

  function MarkDirs(marks: seq<Mark>): seq<Dir> {
    if marks == [] then [] else [MarkDir(marks[0])] + MarkDirs(marks[1..])
  }

  /** Ids are those of the given trees, or taken from the range that the walk went through. */
  ghost predicate FromRange(ids: set<int>, known: set<int>, lo: int, hi: int) {
    forall x :: x in ids ==> x in known || lo <= x < hi
  }

  ghost predicate Under(ids: set<int>, hi: int) {
    forall x :: x in ids ==> x < hi
  }

  lemma {:induction false} IdsCons(d: Dir, rest: seq<Dir>)
    requires UniqueIds(d) && UniqueIdsOf(rest) && Ids(d) !! IdsOf(rest)
    ensures UniqueIdsOf([d] + rest)
  {
    assert ([d] + rest)[1..] == rest;
  }

  lemma {:induction false} IdsOfCons(d: Dir, rest: seq<Dir>)
    ensures IdsOf([d] + rest) == Ids(d) + IdsOf(rest)
  {
    assert ([d] + rest)[1..] == rest;
  }

  lemma {:induction false} MergeIds(olds: seq<Dir>, subs: seq<Sub>, fid: nat, next: nat)
    requires UniqueIdsOf(olds) && Under(IdsOf(olds), next)
    ensures var r := Merge(olds, subs, fid, next);
            && next <= r.next && UniqueIdsOf(MarkDirs(r.marks))
            && FromRange(IdsOf(MarkDirs(r.marks)), IdsOf(olds), next, r.next)
    decreases |olds| + |subs|
  {
    var r := Merge(olds, subs, fid, next);
    if olds == [] && subs == [] {
    } else if olds != [] && (subs == [] || Less(olds[0].name, subs[0].name)) {
      MergeIds(olds[1..], subs, fid, next);
      MarkIds(olds[0], MarkDirs(Merge(olds[1..], subs, fid, next).marks), olds, next, next, r.next);
      assert r.marks[1..] == Merge(olds[1..], subs, fid, next).marks;
    } else if olds == [] || olds[0].name != subs[0].name {
      var sub := ScanSub(subs[0], next, fid, next + 1);
      var rest := Merge(olds, subs[1..], fid + 1, sub.next);
      ScanSubIds(subs[0], next, fid, next + 1);
      MergeIds(olds, subs[1..], fid + 1, sub.next);
      FreshIds(sub.dir, MarkDirs(rest.marks), olds, next, sub.next, r.next);
      assert r.marks[1..] == rest.marks;
    } else {
      MergeIds(olds[1..], subs[1..], fid + 1, next);
      MarkIds(olds[0], MarkDirs(Merge(olds[1..], subs[1..], fid + 1, next).marks), olds, next, next, r.next);
      assert r.marks[1..] == Merge(olds[1..], subs[1..], fid + 1, next).marks;
    }
  }

  lemma {:induction false} MarkIds(d: Dir, rest: seq<Dir>, olds: seq<Dir>, next: nat, mid: nat, end: nat)
    requires olds != [] && d == olds[0] && UniqueIdsOf(olds) && Under(IdsOf(olds), next) && next <= mid <= end
    requires UniqueIdsOf(rest) && FromRange(IdsOf(rest), IdsOf(olds[1..]), mid, end)
    ensures UniqueIdsOf([d] + rest) && FromRange(IdsOf([d] + rest), IdsOf(olds), next, end)
  {
    forall x | x in Ids(d)
      ensures x !in IdsOf(rest)
    {
    }
    IdsCons(d, rest);
    IdsOfCons(d, rest);
  }

  lemma {:induction false} FreshIds(d: Dir, rest: seq<Dir>, olds: seq<Dir>, next: nat, mid: nat, end: nat)
    requires UniqueIds(d) && d.id == next < mid <= end && Between(IdsOf(d.dirs), next + 1, mid)
    requires Under(IdsOf(olds), next)
    requires UniqueIdsOf(rest) && FromRange(IdsOf(rest), IdsOf(olds), mid, end)
    ensures UniqueIdsOf([d] + rest) && FromRange(IdsOf([d] + rest), IdsOf(olds), next, end)
  {
    forall x | x in Ids(d)
      ensures x !in IdsOf(rest)
    {
    }
    IdsCons(d, rest);
    IdsOfCons(d, rest);
  }

  lemma {:induction false} DiffDirIds(was: Dir, fid: nat, n: Node, next: nat)
    requires UniqueIds(was) && Under(Ids(was), next)
    ensures var r := DiffDir(was, fid, n, next);
            && next <= r.next && UniqueIds(Both(r.delta)) && FromRange(Ids(Both(r.delta)), Ids(was), next, r.next)
    decreases n, 0, 0
  {
    var merged := Merge(was.dirs, n.subs, 0, next);
    MergeIds(was.dirs, n.subs, 0, next);
    DescendIds(merged.marks, n.subs, 0, merged.next);
  }

  lemma {:induction false} DiffSubIds(was: Dir, fid: nat, sub: Sub, next: nat)
    requires UniqueIds(was) && Under(Ids(was), next)
    ensures var r := DiffSub(was, fid, sub, next);
            && next <= r.next && UniqueIds(Both(r.delta)) && FromRange(Ids(Both(r.delta)), Ids(was), next, r.next)
    decreases sub, 0, 0
  {
    if sub.entered {
      assert sub.node < sub;
      DiffDirIds(was, fid, sub.node, next);
    } else {
      var merged := Merge(was.dirs, [], 0, next);
      MergeIds(was.dirs, [], 0, next);
      SettledBoth(merged.marks);
    }
  }

  lemma {:induction false} SettledBoth(marks: seq<Mark>)
    ensures BothOf(Settled(marks)) == MarkDirs(marks)
    decreases |marks|
  {
    if marks != [] {
      SettledBoth(marks[1..]);
      assert Settled(marks)[1..] == Settled(marks[1..]);
    }
  }

  lemma {:induction false} DescendIds(marks: seq<Mark>, subs: seq<Sub>, fid: nat, next: nat)
    requires UniqueIdsOf(MarkDirs(marks)) && Under(IdsOf(MarkDirs(marks)), next)
    ensures var r := Descend(marks, subs, fid, next);
            && next <= r.next && UniqueIdsOf(BothOf(r.ops))
            && FromRange(IdsOf(BothOf(r.ops)), IdsOf(MarkDirs(marks)), next, r.next)
    decreases subs, |marks|, 1
  {
    if marks != [] && (marks[0].GoneMark? || subs != []) {
      var r := Descend(marks, subs, fid, next);
      var all := MarkDirs(marks);
      assert all[0] == MarkDir(marks[0]) && all[1..] == MarkDirs(marks[1..]);
      if marks[0].GoneMark? {
        var rest := Descend(marks[1..], subs, fid, next);
        DescendIds(marks[1..], subs, fid, next);
        MarkIds(all[0], BothOf(rest.ops), all, next, next, r.next);
        assert r.ops[1..] == rest.ops;
      } else if marks[0].FreshMark? {
        var rest := Descend(marks[1..], subs[1..], fid + 1, next);
        DescendIds(marks[1..], subs[1..], fid + 1, next);
        MarkIds(all[0], BothOf(rest.ops), all, next, next, r.next);
        assert r.ops[1..] == rest.ops;
      } else {
        var first := DiffSub(marks[0].was, fid, subs[0], next);
        var rest := Descend(marks[1..], subs[1..], fid + 1, first.next);
        DiffSubIds(marks[0].was, fid, subs[0], next);
        DescendIds(marks[1..], subs[1..], fid + 1, first.next);
        assert r.ops[1..] == rest.ops;
        forall x | x in Ids(Both(first.delta))
          ensures x !in IdsOf(BothOf(rest.ops))
        {
        }
        IdsCons(Both(first.delta), BothOf(rest.ops));
        IdsOfCons(Both(first.delta), BothOf(rest.ops));
      }
    }
  }

  // ---------------------------------------------------------------- the patch applies

  /** Whatever the old tree and the new listing are, the walk yields a delta that a patch can be
      printed from: the directories that stay keep name and id, new ones have ids above all old
      ones, and the new tree is canonical with true sizes. */
  lemma {:induction false} DiffSound(was: Dir, n: Node, maxid: nat)
    requires Canonical(was) && UniqueIds(was) && was.fid == 0 && Under(Ids(was), maxid + 1) && Proper(n)
    ensures var e := DiffScan(was, n, maxid);
            && Sound(e) && e.was == was && e.dir.fid == 0 && e.dir.name == was.name && e.dir.id == was.id
            && Canonical(e.dir) && UniqueIds(e.dir) && SizesTrue(e.dir)
            && forall x :: x in Ids(e.dir) ==> x in Ids(was) || x > maxid
  {
    DiffDirRight(was, 0, n, maxid + 1);
    DiffDirIds(was, 0, n, maxid + 1);
    var e := DiffScan(was, n, maxid);
    NewIdsWithin(e);
  }

  lemma {:induction false} NewIdsWithin(e: Delta)
    requires Fits(e) && UniqueIds(Both(e))
    ensures Ids(e.dir) <= Ids(Both(e)) && UniqueIds(e.dir)
    decreases e, 1
  {
    NewIdsWithinOf(e.ops);
  }

  lemma {:induction false} NewIdsWithinOf(ops: seq<Op>)
    requires FitsOf(ops) && UniqueIdsOf(BothOf(ops))
    ensures IdsOf(News(ops)) <= IdsOf(BothOf(ops)) && UniqueIdsOf(News(ops))
    decreases ops, 0
  {
    if ops != [] {
      var news, rest := News(ops), News(ops[1..]);
      assert BothOf(ops)[1..] == BothOf(ops[1..]);
      NewIdsWithinOf(ops[1..]);
      match ops[0] {
        case Gone(_) => assert news == rest;
        case Fresh(d) => assert news[0] == d && news[1..] == rest;
        case Same(e) =>
          assert e < ops[0] && BothOf(ops)[0] == Both(e);
          NewIdsWithin(e);
          assert news[0] == e.dir && news[1..] == rest;
      }
    }
  }
}
