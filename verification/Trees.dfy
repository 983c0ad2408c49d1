/** The dentry tree that the scanner keeps in memory, and the lines it prints for it. */
module Trees {
  import opened Names

  datatype File = File(name: string, fid: nat, size: nat)

  /** A directory: `items` is the number of entries, `fid` the position in its parent's listing. */
  datatype Dir = Dir(name: string, id: nat, fid: nat, size: nat, items: nat, dirs: seq<Dir>, files: seq<File>)

  type Path = seq<string>

  // ---------------------------------------------------------------- directory ids

  function Ids(d: Dir): set<int> {
    {d.id} + IdsOf(d.dirs)
  }

  function IdsOf(ds: seq<Dir>): set<int> {
    if ds == [] then {} else Ids(ds[0]) + IdsOf(ds[1..])
  }

  /** No directory id occurs twice in the tree. */
  predicate UniqueIds(d: Dir) {
    d.id !in IdsOf(d.dirs) && UniqueIdsOf(d.dirs)
  }

  predicate UniqueIdsOf(ds: seq<Dir>) {
    ds != [] ==> UniqueIds(ds[0]) && Ids(ds[0]) !! IdsOf(ds[1..]) && UniqueIdsOf(ds[1..])
  }

  // ---------------------------------------------------------------- the shape a scan gives a tree

  /** Listing order: directories first, then files, numbered from 0 without gaps. */
  ghost predicate Numbered(d: Dir) {
    && d.items == |d.dirs| + |d.files|
    && (forall i :: 0 <= i < |d.dirs| ==> d.dirs[i].fid == i)
    && (forall i :: 0 <= i < |d.files| ==> d.files[i].fid == |d.dirs| + i)
  }

  function DirNames(ds: seq<Dir>): seq<string> {
    seq(|ds|, i requires 0 <= i < |ds| => ds[i].name)
  }

  function FileNames(fs: seq<File>): seq<string> {
    seq(|fs|, i requires 0 <= i < |fs| => fs[i].name)
  }

  /** What every tree printed by a scan looks like: listings sorted by name within their kind and
      numbered in that order, all names printable, directory ids positive. */
  ghost predicate Canonical(d: Dir) {
    && d.id > 0
    && Numbered(d)
    && Sorted(DirNames(d.dirs))
    && Sorted(FileNames(d.files))
    && (forall i :: 0 <= i < |d.dirs| ==> GoodName(d.dirs[i].name))
    && (forall i :: 0 <= i < |d.files| ==> GoodName(d.files[i].name))
    && (forall i :: 0 <= i < |d.dirs| ==> Canonical(d.dirs[i]))
  }

  // ---------------------------------------------------------------- sizes

  function FilesTotal(fs: seq<File>): nat {
    if fs == [] then 0 else fs[0].size + FilesTotal(fs[1..])
  }

  /** The sum of all file sizes at and below a directory. */
  function Total(d: Dir): nat {
    FilesTotal(d.files) + TotalOf(d.dirs)
  }

  function TotalOf(ds: seq<Dir>): nat {
    if ds == [] then 0 else Total(ds[0]) + TotalOf(ds[1..])
  }

  /** A sum: of one size it is that size, and of two lists it is the sum of theirs. */
  lemma {:induction false} FilesTotalSums(f: File, a: seq<File>, b: seq<File>)
    ensures FilesTotal([]) == 0 && FilesTotal([f]) == f.size && FilesTotal(a + b) == FilesTotal(a) + FilesTotal(b)
    decreases |a|
  {
    assert [f][1..] == [];
    if a == [] {
      assert a + b == b;
    } else {
      assert (a + b)[1..] == a[1..] + b && (a + b)[0] == a[0];
      FilesTotalSums(f, a[1..], b);
    }
  }

  lemma {:induction false} TotalOfSums(d: Dir, a: seq<Dir>, b: seq<Dir>)
    ensures TotalOf([]) == 0 && TotalOf([d]) == Total(d) && TotalOf(a + b) == TotalOf(a) + TotalOf(b)
    decreases |a|
  {
    assert [d][1..] == [];
    if a == [] {
      assert a + b == b;
    } else {
      assert (a + b)[1..] == a[1..] + b && (a + b)[0] == a[0];
      TotalOfSums(d, a[1..], b);
    }
  }

  /** All files of a tree, level by level. */
  function AllFiles(d: Dir): seq<File> {
    d.files + AllFilesOf(d.dirs)
  }

  function AllFilesOf(ds: seq<Dir>): seq<File> {
    if ds == [] then [] else AllFiles(ds[0]) + AllFilesOf(ds[1..])
  }

  /** The total of a directory is the sum over every file in or below it, and nothing else. */
  lemma {:induction false} TotalIsOfAllFiles(d: Dir)
    ensures Total(d) == FilesTotal(AllFiles(d))
    decreases d, 1
  {
    FilesTotalSums(File("", 0, 0), d.files, AllFilesOf(d.dirs));
    TotalsAreOfAllFiles(d.dirs);
  }

  lemma {:induction false} TotalsAreOfAllFiles(ds: seq<Dir>)
    ensures TotalOf(ds) == FilesTotal(AllFilesOf(ds))
    decreases ds, 0
  {
    if ds != [] {
      TotalIsOfAllFiles(ds[0]);
      TotalsAreOfAllFiles(ds[1..]);
      FilesTotalSums(File("", 0, 0), AllFiles(ds[0]), AllFilesOf(ds[1..]));
    }
  }

  /** Every directory of the tree carries the total of the files below it. */
  ghost predicate SizesTrue(d: Dir) {
    d.size == Total(d) && forall i :: 0 <= i < |d.dirs| ==> SizesTrue(d.dirs[i])
  }

  // ---------------------------------------------------------------- printed lines

  /** The prefix of a line: none in a full print, `+`, `-` or `*` in a patch. */
  datatype Act = Plain | Add | Del | Mod

  /** `0 id path` opens a directory; `1 pid fid size id items name` describes an entry of `pid`,
      with id and items 0 for a file; a header carries the digest of the print a patch is based on. */
  datatype Line =
    | PathLine(act: Act, id: nat, path: Path)
    | EntryLine(act: Act, pid: nat, fid: nat, size: nat, dir: nat, items: nat, name: string)

  /** Lines of a patch, as opposed to those of a print. */
  ghost predicate IsPatch(lines: seq<Line>) {
    forall line :: line in lines ==> !line.act.Plain?
  }

  function DirLine(act: Act, pid: nat, d: Dir): Line {
    EntryLine(act, pid, d.fid, d.size, d.id, d.items, d.name)
  }

  function FileLine(act: Act, pid: nat, f: File): Line {
    EntryLine(act, pid, f.fid, f.size, 0, 0, f.name)
  }

  function OpenLines(act: Act, ds: seq<Dir>, path: Path): seq<Line> {
    if ds == [] then []
    else [PathLine(act, ds[0].id, path + [ds[0].name])] + OpenLines(act, ds[1..], path)
  }

  function FileLines(act: Act, pid: nat, fs: seq<File>): seq<Line> {
    if fs == [] then [] else [FileLine(act, pid, fs[0])] + FileLines(act, pid, fs[1..])
  }

  function CloseLines(act: Act, pid: nat, ds: seq<Dir>): seq<Line> {
    if ds == [] then [] else [DirLine(act, pid, ds[0])] + CloseLines(act, pid, ds[1..])
  }

  /** Everything printed between entering a directory and leaving it. */
  function Body(act: Act, d: Dir, path: Path): seq<Line> {
    OpenLines(act, d.dirs, path) + FileLines(act, d.id, d.files) + Bodies(act, d.dirs, path)
    + CloseLines(act, d.id, d.dirs)
  }

  function Bodies(act: Act, ds: seq<Dir>, path: Path): seq<Line> {
    if ds == [] then [] else Body(act, ds[0], path + [ds[0].name]) + Bodies(act, ds[1..], path)
  }

  function TreeLines(act: Act, d: Dir, pid: nat, path: Path): seq<Line> {
    [PathLine(act, d.id, path)] + Body(act, d, path) + [DirLine(act, pid, d)]
  }

  /** The print of a whole share. */
  function Print(root: Dir): seq<Line> {
    TreeLines(Plain, root, 0, [])
  }

  /** Lines that take a subtree away: its paths first, its own entry last; entries below are not
      mentioned, the database drops them with their paths. */
  function GoneBody(d: Dir, path: Path): seq<Line> {
    OpenLines(Del, d.dirs, path) + GoneBodies(d.dirs, path)
  }

  function GoneBodies(ds: seq<Dir>, path: Path): seq<Line> {
    if ds == [] then [] else GoneBody(ds[0], path + [ds[0].name]) + GoneBodies(ds[1..], path)
  }

  function GoneLines(d: Dir, pid: nat, path: Path): seq<Line> {
    [PathLine(Del, d.id, path)] + GoneBody(d, path) + [DirLine(Del, pid, d)]
  }

  /** All lines of a tree carry the same mark. */
  lemma {:induction false} BodyActs(act: Act, d: Dir, path: Path)
    ensures forall line :: line in Body(act, d, path) ==> line.act == act
    decreases d, 1
  {
    EntryActs(act, d.dirs, d.files, d.id, path);
    BodiesActs(act, d.dirs, path);
  }

  lemma {:induction false} EntryActs(act: Act, ds: seq<Dir>, fs: seq<File>, pid: nat, path: Path)
    ensures forall line :: line in OpenLines(act, ds, path) ==> line.act == act
    ensures forall line :: line in FileLines(act, pid, fs) ==> line.act == act
    ensures forall line :: line in CloseLines(act, pid, ds) ==> line.act == act
    decreases |ds| + |fs|
  {
    if ds != [] {
      EntryActs(act, ds[1..], fs, pid, path);
    }
    if fs != [] {
      EntryActs(act, ds, fs[1..], pid, path);
    }
  }

  lemma {:induction false} BodiesActs(act: Act, ds: seq<Dir>, path: Path)
    ensures forall line :: line in Bodies(act, ds, path) ==> line.act == act
    decreases ds, 0
  {
    if ds != [] {
      BodyActs(act, ds[0], path + [ds[0].name]);
      BodiesActs(act, ds[1..], path);
    }
  }

  lemma {:induction false} PrintPlain(t: Dir)
    ensures forall line :: line in Print(t) ==> line.act.Plain?
  {
    BodyActs(Plain, t, []);
  }

  lemma {:induction false} CloseLinesSnoc(act: Act, pid: nat, ds: seq<Dir>, d: Dir)
    ensures CloseLines(act, pid, ds + [d]) == CloseLines(act, pid, ds) + [DirLine(act, pid, d)]
    decreases |ds|
  {
    if ds == [] {
      assert ds + [d] == [d] && [d][1..] == [];
    } else {
      assert (ds + [d])[1..] == ds[1..] + [d] && (ds + [d])[0] == ds[0];
      CloseLinesSnoc(act, pid, ds[1..], d);
    }
  }
}
