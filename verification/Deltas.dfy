/** The outcome of walking a new tree in step with an old one, and the patch lines it prints. */
module Deltas {
  import opened Wrappers
  import opened Trees
  import opened Store
  import opened Image
  import opened Paths
  import opened Renumber

  /** What the merge of two listings of subdirectories decides, in merge order. */
  datatype Op = Gone(was: Dir) | Fresh(dir: Dir) | Same(delta: Delta)

  datatype FileOp = FileGone(was: File) | FileFresh(file: File) | FileSame(was: File, file: File)

  /** A directory that exists in both trees: its old and its new dentry, and the merge of their listings. */
  datatype Delta = Delta(was: Dir, dir: Dir, ops: seq<Op>, fops: seq<FileOp>)

  // ---------------------------------------------------------------- the two listings of a merge

  function Olds(ops: seq<Op>): seq<Dir> {
    if ops == [] then []
    else
      (match ops[0]
       case Gone(d) => [d]
       case Fresh(_) => []
       case Same(e) => [e.was]) + Olds(ops[1..])
  }

  function News(ops: seq<Op>): seq<Dir> {
    if ops == [] then []
    else
      (match ops[0]
       case Gone(_) => []
       case Fresh(d) => [d]
       case Same(e) => [e.dir]) + News(ops[1..])
  }

  function FileOlds(fops: seq<FileOp>): seq<File> {
    if fops == [] then []
    else
      (match fops[0]
       case FileGone(f) => [f]
       case FileFresh(_) => []
       case FileSame(f, _) => [f]) + FileOlds(fops[1..])
  }

  function FileNews(fops: seq<FileOp>): seq<File> {
    if fops == [] then []
    else
      (match fops[0]
       case FileGone(_) => []
       case FileFresh(f) => [f]
       case FileSame(_, f) => [f]) + FileNews(fops[1..])
  }

  /** The old and the new tree laid over each other: every directory that is in either. */
  function Both(e: Delta): Dir {
    e.dir.(dirs := BothOf(e.ops), files := [])
  }

  function BothOf(ops: seq<Op>): seq<Dir> {
    if ops == [] then []
    else
      [match ops[0]
       case Gone(d) => d
       case Fresh(d) => d
       case Same(e) => assert e < ops[0]; Both(e)] + BothOf(ops[1..])
  }

  /** The parts of a delta fit together, level by level. */
  ghost predicate Fits(e: Delta) {
    && e.was.id == e.dir.id > 0 && e.was.name == e.dir.name
    && Olds(e.ops) == e.was.dirs && News(e.ops) == e.dir.dirs
    && FileOlds(e.fops) == e.was.files && FileNews(e.fops) == e.dir.files
    && Numbered(e.was) && Numbered(e.dir)
    && FitsOf(e.ops)
    && (forall i :: 0 <= i < |e.fops| && e.fops[i].FileSame? ==> e.fops[i].was.name == e.fops[i].file.name)
  }

  ghost predicate FitsOf(ops: seq<Op>) {
    ops != [] ==>
      && (match ops[0]
          case Gone(_) => true
          case Fresh(d) => PositiveIds(d) && DistinctFids(d)
          case Same(e) => assert e < ops[0]; Fits(e))
      && FitsOf(ops[1..])
  }

  /** A delta that a patch can be printed from: no id and no path stands for two directories, be it
      one of the old tree and one of the new. */
  ghost predicate Sound(e: Delta) {
    Fits(e) && UniqueIds(Both(e)) && DistinctNames(Both(e))
  }

  // ---------------------------------------------------------------- patch lines

  /** Whether an entry of the directory appeared or disappeared or a file in it changed its size:
      then the directory is named by a `* 0` line before anything else is said about it. */
  predicate Changed(e: Delta) {
    (exists i :: 0 <= i < |e.ops| && !e.ops[i].Same?) || (exists i :: 0 <= i < |e.fops| && Differs(e.fops[i]))
  }

  predicate Differs(f: FileOp) {
    f.FileSame? ==> f.was.size != f.file.size
  }

  predicate Closes(e: Delta) {
    e.dir.size != e.was.size || e.dir.items != e.was.items
  }

  function HeadLines(e: Delta, path: Path): seq<Line> {
    if Changed(e) then [PathLine(Mod, e.dir.id, path)] else []
  }

  function OpLine(op: Op, pid: nat, path: Path): seq<Line> {
    match op
    case Gone(d) => GoneLines(d, pid, path + [d.name])
    case Fresh(d) => TreeLines(Add, d, pid, path + [d.name])
    case Same(_) => []
  }

  function OpLines(ops: seq<Op>, pid: nat, path: Path): seq<Line> {
    if ops == [] then [] else OpLine(ops[0], pid, path) + OpLines(ops[1..], pid, path)
  }

  function FileOpLine(op: FileOp, pid: nat): seq<Line> {
    match op
    case FileGone(f) => [FileLine(Del, pid, f)]
    case FileFresh(f) => [FileLine(Add, pid, f)]
    case FileSame(f, f') => if f.size != f'.size then [FileLine(Mod, pid, f.(size := f'.size))] else []
  }

  function FileOpLines(fops: seq<FileOp>, pid: nat): seq<Line> {
    if fops == [] then [] else FileOpLine(fops[0], pid) + FileOpLines(fops[1..], pid)
  }

  function FootLines(e: Delta, pid: nat): seq<Line> {
    if Closes(e) then [DirLine(Mod, pid, e.was.(size := e.dir.size, items := e.dir.items))] else []
  }

  /** The patch lines of a directory: its own changes, then those of the subdirectories that stay,
      then its new size. */
  function PatchLines(e: Delta, pid: nat, path: Path): seq<Line> {
    HeadLines(e, path) + OpLines(e.ops, e.dir.id, path) + FileOpLines(e.fops, e.dir.id)
    + SameLines(e.ops, e.dir.id, path) + FootLines(e, pid)
  }

  function SameLines(ops: seq<Op>, pid: nat, path: Path): seq<Line> {
    if ops == [] then []
    else
      (match ops[0]
       case Same(e) => assert e < ops[0]; PatchLines(e, pid, path + [e.dir.name])
       case _ => []) + SameLines(ops[1..], pid, path)
  }

  /** The patch between two trees. */
  function Patch(e: Delta): seq<Line> {
    PatchLines(e, 0, [])
  }

  // ---------------------------------------------------------------- the listing of a directory during a patch

  /** Positions of the new listing, once all subdirectories that stay have been closed. */
  function DirSlots(ops: seq<Op>): seq<Slot> {
    if ops == [] then []
    else
      (match ops[0]
       case Gone(_) => []
       case Fresh(d) => [Slot(None, DirRow(d))]
       case Same(e) => [Slot(Some(e.was.fid), DirRow(e.dir))]) + DirSlots(ops[1..])
  }

  function FileSlots(fops: seq<FileOp>): seq<Slot> {
    if fops == [] then []
    else
      (match fops[0]
       case FileGone(_) => []
       case FileFresh(f) => [Slot(None, FileRow(f))]
       case FileSame(f, f') => [Slot(Some(f.fid), FileRow(f'))]) + FileSlots(fops[1..])
  }

  function Slots(e: Delta): seq<Slot> {
    DirSlots(e.ops) + FileSlots(e.fops)
  }

  /** The rows of the directories in a patched tree while the directories in `pending` still wait
      for their renumbering. */
  function MidRecs(e: Delta, path: Path, pid: nat, slot: nat, pending: set<int>): map<int, Rec> {
    (FreshRecs(e.ops, path, e.dir.id) + MidSames(e.ops, path, e.dir.id, pending))
    [e.dir.id := MidRec(e, path, pid, slot, pending)]
  }

  function MidRec(e: Delta, path: Path, pid: nat, slot: nat, pending: set<int>): Rec {
    Rec(path, Some(pid), Some(slot), e.dir.items, e.dir.size,
        if e.dir.id in pending then KeptRows(Slots(e)) else RowsOf(e.dir))
  }

  function FreshRecs(ops: seq<Op>, path: Path, pid: nat): map<int, Rec> {
    if ops == [] then map[]
    else
      (match ops[0]
       case Fresh(d) => Recs(d, path + [d.name], pid)
       case _ => map[]) + FreshRecs(ops[1..], path, pid)
  }

  function MidSames(ops: seq<Op>, path: Path, pid: nat, pending: set<int>): map<int, Rec> {
    if ops == [] then map[]
    else
      (match ops[0]
       case Same(e) =>
         assert e < ops[0];
         MidRecs(e, path + [e.dir.name], pid, if pid in pending then e.was.fid else e.dir.fid, pending)
       case _ => map[]) + MidSames(ops[1..], path, pid, pending)
  }

  /** The directories still marked in the buffer after the patch lines. */
  predicate Pending(e: Delta) {
    Changed(e) && !Closes(e)
  }

  function PendingIds(e: Delta): set<int> {
    (if Pending(e) then {e.dir.id} else {}) + PendingIdsOf(e.ops)
  }

  function PendingIdsOf(ops: seq<Op>): set<int> {
    if ops == [] then {}
    else
      (match ops[0]
       case Same(e) => assert e < ops[0]; PendingIds(e)
       case _ => {}) + PendingIdsOf(ops[1..])
  }

  /** Their rows in newfiles. */
  function PendingRows(e: Delta): map<int, map<int, Row>> {
    (if Pending(e) && AddedRows(Slots(e), 0) != map[] then map[e.dir.id := AddedRows(Slots(e), 0)] else map[])
    + PendingRowsOf(e.ops)
  }

  function PendingRowsOf(ops: seq<Op>): map<int, map<int, Row>> {
    if ops == [] then map[]
    else
      (match ops[0]
       case Same(e) => assert e < ops[0]; PendingRows(e)
       case _ => map[]) + PendingRowsOf(ops[1..])
  }
}
