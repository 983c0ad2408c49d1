/** Several spiders, one share: the database is transactional and locks, the save file is neither.
    Steps of different spiders interleave freely; any of them may crash at any point. */
module Handshake {
  import opened Wrappers
  import opened Trees
  import opened Printing
  import opened Store
  import opened Image
  import opened Paths
  import opened Deltas
  import opened PatchTheorem
  import opened Scan
  import opened Diff
  import opened Text
  import opened Restore
  import opened Rescan
  import DtDiff
  import Md5
  import KnownDigest
  import Agreement
  import Cuts
  import Duplicates
  import NR = NamelessRoot
  import Q = Quietness

  /** The complete lines of a file. */
  type Lines = seq<string>

  // ---------------------------------------------------------------- the scanner

  /** What a run of the scanner prints: the digest that a patch is headed by, the patch, the tree. */
  datatype Output = Output(header: Option<Md5.Hash>, patch: seq<Line>, t: Dir)

  /** hash.hexdigest() of the lines, and the digest that the scanner computes of the ones it reads. */
  function HashOf(lines: Lines): Md5.Hash {
    Md5.Digest(Md5.Bytes(Unlines(lines)))
  }

  function HexDigit(n: nat): char
    requires n < 16
  {
    "0123456789abcdef"[n]
  }

  function HexByte(n: nat): string
    requires n < 256
  {
    [HexDigit(n / 16), HexDigit(n % 16)]
  }

  function Hex(d: Md5.Hash): string {
    if d == [] then "" else HexByte(d[0] as nat) + Hex(d[1..])
  }

  /** The lines of an output. */
  function LinesFrom(o: Output): Lines {
    (if o.header.Some? then ["* " + Hex(o.header.value)] else []) + Printout(o.patch + Print(o.t))
  }

  /** The scanner on a share that shows `n`, with a save to compare with or without one; None if it dies. */
  function RunScanner(save: Option<Lines>, n: Node): Option<Output> {
    if save.Some? && Stops(START, Tells(save.value)) then None
    else
      var tree := if save.Some? then ReadTolds(Tells(save.value)) else None;
      if tree.None? then Some(Output(None, [], FullScan(n)))
      else if DtDiff.Fatal(tree.value, n) then None
      else
        var e := DiffScan(tree.value.root, n, tree.value.maxid);
        Some(Output(Some(HashOf(save.value)), LinesShown(Patch(e), tree.value.RootName()), DtDiff.Unnamed(e.dir)))
  }

  // ---------------------------------------------------------------- the system

  /** Where a spider is in its loop over one share. When it has patched the tables, `base` is the old
      tree, as the scanner has read it. */
  datatype Phase =
    | Idle
    | Claimed
    | Locked(oldhash: Option<Md5.Hash>, hadSave: bool)
    | Ran(oldhash: Option<Md5.Hash>, patchmode: bool, from: Option<Lines>, o: Output)
    | Applied(o: Output, patched: bool, base: Option<Dir>, t: Tables, total: Option<nat>)
    | Moved(o: Output, patched: bool, base: Option<Dir>, t: Tables, total: Option<nat>)
    | Written(o: Output, patched: bool, base: Option<Dir>, t: Tables, total: Option<nat>)
    | Recovering1
    | Recovering2

  /** The committed rows of the share; its save file and the previous one; the row lock; the spiders;
      whether the next scan is due. `last` and `seen` are history: the output that the committed
      tables come from, and every content that was written or hashed. */
  datatype System = System(
    hash: Option<Md5.Hash>, tables: Tables, size: nat, save: Option<Lines>, old': Option<Lines>,
    lock: Option<nat>, phases: map<nat, Phase>, due: bool, last: Option<Output>, seen: set<Lines>)

  const INIT := System(None, EMPTY, 0, None, None, None, map[], true, None, {})

  function PhaseOf(s: System, i: nat): Phase {
    if i in s.phases then s.phases[i] else Idle
  }

  datatype Action =
    | TimePasses
    | Claim(i: nat)
    | Lock(i: nat)
    | Scan(i: nat, n: Node)
    | Apply(i: nat, tooLong: bool, order: seq<int>)
    | MoveSave(i: nat)
    | SkipMove(i: nat)
    | Write(i: nat, k: nat)
    | SkipWrite(i: nat)
    | Commit(i: nat)
    | Crash(i: nat)
    | Violation(i: nat)
    | Recover(i: nat)
    | DeleteSave
    | PutSave(lines: Lines)
    | DeleteOld

  /** Leaving a transaction without a commit releases the lock and forgets what it did. */
  function Released(s: System, i: nat, phase: Phase): System {
    s.(lock := if s.lock == Some(i) then None else s.lock, phases := s.phases[i := phase])
  }

  /** The part of scan_share from the choice of the mode to the last statement before the save. */
  function Update(t: Tables, o: Output, patching: bool, order: seq<int>): Option<Spider> {
    if patching then
      var r := Run(Spider(t, map[], None), o.patch);
      if r.None? || Flush(r.value.t, order).None? then None
      else Some(Spider(Flush(r.value.t, order).value, map[], r.value.total))
    else Run(Spider(EMPTY, map[], None), AsAdded(Print(o.t)))
  }

  /** The modified directories that the spider has to renumber at the end come in any order. */
  ghost predicate FairOrder(t: Tables, o: Output, order: seq<int>) {
    var r := Run(Spider(t, map[], None), o.patch);
    r.Some? ==> IterationOrder(r.value.buffer, order)
  }

  /** The old tree that a patch is applied to, as the scanner has read it. */
  function BaseOf(from: Option<Lines>): Option<Dir> {
    if from.None? then None
    else
      var tree := ReadTolds(Tells(from.value));
      if tree.None? then None else Some(tree.value.root)
  }

  /** A patch is used if the scanner was given the save, if the patch is not too long, and if its
      header is the committed digest. */
  ghost function ApplyStep(s: System, i: nat, tooLong: bool, order: seq<int>): Option<System> {
    var p := PhaseOf(s, i);
    if !p.Ran? then None
    else
      var patching := p.patchmode && !tooLong && p.oldhash.Some? && p.o.header == p.oldhash;
      if patching && !FairOrder(s.tables, p.o, order) then None
      else
        var r := Update(s.tables, p.o, patching, order);
        if r.None? then Some(Released(s, i, Recovering1))
        else
          var base := if patching then BaseOf(p.from) else None;
          Some(s.(phases := s.phases[i := Applied(p.o, patching, base, r.value.t, r.value.total)]))
  }

  /** One step; None when the action is not possible. */
  ghost function Next(s: System, a: Action): Option<System> {
    match a
    case TimePasses => Some(s.(due := true))
    case Claim(i) =>
      if !PhaseOf(s, i).Idle? then None
      else if s.due then Some(s.(due := false, phases := s.phases[i := Claimed])) else Some(s)
    case Lock(i) =>
      if !PhaseOf(s, i).Claimed? then None
      else if s.lock.Some? then Some(s.(phases := s.phases[i := Idle]))
      else Some(s.(lock := Some(i), phases := s.phases[i := Locked(s.hash, s.save.Some?)]))
    case Scan(i, n) =>
      var p := PhaseOf(s, i);
      if !p.Locked? || !Proper(n) then None
      else
        var patchmode := p.oldhash.Some? && p.hadSave;
        if patchmode && s.save.None? then Some(Released(s, i, Idle))
        else
          var from := if patchmode then s.save else None;
          var o := RunScanner(from, n);
          if o.None? then Some(Released(s, i, Idle))
          else Some(s.(phases := s.phases[i := Ran(p.oldhash, patchmode, from, o.value)],
                    seen := s.seen + if from.Some? then {from.value} else {}))
    case Apply(i, tooLong, order) => ApplyStep(s, i, tooLong, order)
    case MoveSave(i) =>
      var p := PhaseOf(s, i);
      if !p.Applied? then None
      else if s.save.None? then Some(s.(phases := s.phases[i := Moved(p.o, p.patched, p.base, p.t, p.total)]))
      else Some(s.(save := None, old' := s.save, phases := s.phases[i := Moved(p.o, p.patched, p.base, p.t, p.total)]))
    case SkipMove(i) =>
      var p := PhaseOf(s, i);
      if !p.Applied? then None
      else Some(s.(phases := s.phases[i := Written(p.o, p.patched, p.base, p.t, p.total)]))
    case Write(i, k) =>
      var p := PhaseOf(s, i);
      if !p.Moved? || k > |LinesFrom(p.o)| then None
      else
        var lines := LinesFrom(p.o)[..k];
        Some(s.(save := Some(lines), seen := s.seen + {lines},
             phases := s.phases[i := Written(p.o, p.patched, p.base, p.t, p.total)]))
    case SkipWrite(i) =>
      var p := PhaseOf(s, i);
      if !p.Moved? then None
      else Some(s.(phases := s.phases[i := Written(p.o, p.patched, p.base, p.t, p.total)]))
    case Commit(i) =>
      var p := PhaseOf(s, i);
      if !p.Written? then None
      else
        var lines := LinesFrom(p.o);
        Some(Released(s, i, Idle).(hash := Some(HashOf(lines)), tables := p.t,
             size := if p.total.Some? then p.total.value else s.size,
             due := false, last := Some(p.o), seen := s.seen + {lines}))
    case Crash(i) => Some(Released(s, i, Idle))
    case Violation(i) =>
      if !PhaseOf(s, i).Ran? then None else Some(Released(s, i, Recovering1))
    case Recover(i) =>
      var p := PhaseOf(s, i);
      if p.Recovering1? then Some(s.(save := None, phases := s.phases[i := Recovering2]))
      else if p.Recovering2? then Some(s.(old' := None, phases := s.phases[i := Idle]))
      else None
    case DeleteSave => Some(s.(save := None))
    case PutSave(lines) => Some(s.(save := Some(lines)))
    case DeleteOld => Some(s.(old' := None))
  }

  ghost function RunAll(s: System, run: seq<Action>): Option<System>
    decreases |run|
  {
    if run == [] then Some(s)
    else
      var n := Next(s, run[0]);
      if n.None? then None else RunAll(n.value, run[1..])
  }

  /** No two different contents that were ever written or hashed have the same digest. */
  ghost predicate NoCollision(seen: set<Lines>) {
    forall a, b :: a in seen && b in seen && HashOf(a) == HashOf(b) ==> a == b
  }

  // ---------------------------------------------------------------- what holds at every point

  ghost predicate GoodOutput(o: Output) {
    Good(o.t) && IsPatch(o.patch)
  }

  /** The beginning of the lines of some scan. */
  ghost predicate Beginning(lines: Lines) {
    exists o, k :: Begins(o, k, lines)
  }

  ghost predicate Begins(o: Output, k: nat, lines: Lines) {
    GoodOutput(o) && k <= |LinesFrom(o)| && lines == LinesFrom(o)[..k]
  }

  /** The committed tables are those of the tree that was printed by the output whose digest is
      committed with them, and the share's size is that tree's. */
  ghost predicate Faithful(s: System) {
    if s.last.None? then s.hash == None && s.tables == EMPTY
    else
      var o := s.last.value;
      && GoodOutput(o) && s.hash == Some(HashOf(LinesFrom(o))) && LinesFrom(o) in s.seen
      && s.tables == TablesOf(o.t) && s.size == Total(o.t)
  }

  /** A spider that is about to commit would leave the database faithful. If it patches, then the
      patch was made against the tree that is committed now. */
  ghost predicate Ready(s: System, o: Output, patched: bool, base: Option<Dir>, t: Tables, total: Option<nat>) {
    && GoodOutput(o) && t == TablesOf(o.t) && (patched <==> base.Some?)
    && (base.Some? ==> s.last.Some? && base.value == s.last.value.t)
    && (if total.Some? then total.value == Total(o.t) else base.Some? && s.size == Total(o.t))
  }

  ghost predicate ScannedAt(from: Option<Lines>, n: Node, o: Output) {
    Proper(n) && RunScanner(from, n) == Some(o)
  }

  ghost predicate Stands(s: System, p: Phase) {
    match p
    case Locked(h, _) => h == s.hash
    case Ran(h, patchmode, from, o) =>
      && h == s.hash && (patchmode <==> from.Some?) && (from.Some? ==> from.value in s.seen)
      && exists n :: ScannedAt(from, n, o)
    case Applied(o, patched, base, t, total) => Ready(s, o, patched, base, t, total)
    case Moved(o, patched, base, t, total) => Ready(s, o, patched, base, t, total)
    case Written(o, patched, base, t, total) => Ready(s, o, patched, base, t, total)
    case _ => true
  }

  predicate Holding(p: Phase) {
    p.Locked? || p.Ran? || p.Applied? || p.Moved? || p.Written?
  }

  ghost predicate Inv(s: System) {
    && Faithful(s)
    && (forall i :: i in s.phases ==> Stands(s, s.phases[i]) && (Holding(s.phases[i]) ==> s.lock == Some(i)))
  }

  // ---------------------------------------------------------------- the first line

  /** The characters 0 to 9 and then a to f. */
  lemma HexDigitIs(n: nat)
    requires n < 16
    ensures HexDigit(n) as int == if n < 10 then '0' as int + n else 'a' as int + (n - 10)
  {
  }

  lemma {:induction false} HexDigitInjective(m: nat, n: nat)
    requires m < 16 && n < 16 && HexDigit(m) == HexDigit(n)
    ensures m == n
  {
    hide HexDigit;
    HexDigitIs(m);
    HexDigitIs(n);
  }

  lemma {:induction false} HexByteInjective(m: nat, n: nat)
    requires m < 256 && n < 256 && HexByte(m) == HexByte(n)
    ensures m == n
  {
    hide HexDigit;
    assert HexByte(m)[0] == HexByte(n)[0] && HexByte(m)[1] == HexByte(n)[1];
    HexDigitInjective(m / 16, n / 16);
    HexDigitInjective(m % 16, n % 16);
  }

  lemma {:induction false} HexInjective(a: Md5.Hash, b: Md5.Hash)
    requires Hex(a) == Hex(b)
    ensures a == b
    decreases |a|
  {
    hide HexDigit;
    if a != [] && b != [] {
      var m, n := a[0] as nat, b[0] as nat;
      assert HexByte(m) == Hex(a)[..2] && HexByte(n) == Hex(b)[..2];
      assert Hex(a[1..]) == Hex(a)[2..] && Hex(b[1..]) == Hex(b)[2..];
      HexByteInjective(m, n);
      HexInjective(a[1..], b[1..]);
      assert a == [a[0]] + a[1..] && b == [b[0]] + b[1..];
    }
  }

  lemma HexNext(x: Md5.Byte, d: Md5.Hash)
    ensures Hex([x] + d) == HexByte(x as nat) + Hex(d)
  {
    assert ([x] + d)[1..] == d;
  }

  lemma {:induction false} HexFour(a: Md5.Byte, b: Md5.Byte, c: Md5.Byte, d: Md5.Byte, rest: Md5.Hash)
    ensures Hex([a, b, c, d] + rest)
         == HexByte(a as nat) + HexByte(b as nat) + HexByte(c as nat) + HexByte(d as nat) + Hex(rest)
  {
    hide Hex, HexByte;
    HexNext(d, rest);
    HexNext(c, [d] + rest);
    HexNext(b, [c] + ([d] + rest));
    HexNext(a, [b] + ([c] + ([d] + rest)));
    assert [a, b, c, d] + rest == [a] + ([b] + ([c] + ([d] + rest)));
  }

  lemma HexBytes()
    ensures HexByte(0xd4) == "d4" && HexByte(0x1d) == "1d" && HexByte(0x8c) == "8c" && HexByte(0xd9) == "d9"
    ensures HexByte(0x8f) == "8f" && HexByte(0x00) == "00" && HexByte(0xb2) == "b2" && HexByte(0x04) == "04"
    ensures HexByte(0xe9) == "e9" && HexByte(0x80) == "80" && HexByte(0x09) == "09" && HexByte(0x98) == "98"
    ensures HexByte(0xec) == "ec" && HexByte(0xf8) == "f8" && HexByte(0x42) == "42" && HexByte(0x7e) == "7e"
  {
  }

  /** hashlib.md5().hexdigest() of nothing, as section A.5 of RFC 1321 gives it. */
  lemma {:induction false} EmptyHex()
    ensures Hex(HashOf([])) == "d41d8cd98f00b204e9800998ecf8427e"
  {
    hide Hex, HexByte, Md5.Digest;
    KnownDigest.EmptyDigest();
    HexBytes();
    HexNothing();
    var w3: Md5.Hash := [0xec, 0xf8, 0x42, 0x7e];
    var w2: Md5.Hash := [0xe9, 0x80, 0x09, 0x98] + w3;
    var w1: Md5.Hash := [0x8f, 0x00, 0xb2, 0x04] + w2;
    HexFour(0xec, 0xf8, 0x42, 0x7e, []);
    assert [0xec, 0xf8, 0x42, 0x7e] + [] == w3 && Hex(w3) == "ecf8427e";
    HexFour(0xe9, 0x80, 0x09, 0x98, w3);
    assert Hex(w2) == "e9800998" + "ecf8427e";
    HexFour(0x8f, 0x00, 0xb2, 0x04, w2);
    assert Hex(w1) == "8f00b204" + Hex(w2);
    HexFour(0xd4, 0x1d, 0x8c, 0xd9, w1);
    assert Md5.Bytes(Unlines([])) == [];
    assert HashOf([]) == [0xd4, 0x1d, 0x8c, 0xd9] + w1;
    assert Hex(HashOf([])) == "d41d8cd9" + Hex(w1);
  }

  lemma HexNothing()
    ensures Hex([]) == ""
  {
  }

  /** An output whose first line is the one that the spider compares with is a patch with that header:
      without one, nothing comes before the print. */
  lemma {:induction false} FirstLineIsHeader(o: Output, hash: Md5.Hash)
    requires o.header == None ==> o.patch == []
    ensures LinesFrom(o) != [] && (LinesFrom(o)[0] == "* " + Hex(hash) <==> o.header == Some(hash))
  {
    if o.header.Some? {
      var first := "* " + Hex(o.header.value);
      assert LinesFrom(o)[0] == first && first[2..] == Hex(o.header.value) && ("* " + Hex(hash))[2..] == Hex(hash);
      if first == "* " + Hex(hash) {
        HexInjective(o.header.value, hash);
      }
    } else {
      var line := PathLine(Act.Plain, o.t.id, []);
      assert (o.patch + Print(o.t))[0] == line;
      assert LinesFrom(o)[0] == Format(line) && Format(line)[0] == '0';
    }
  }

  // ---------------------------------------------------------------- saves

  lemma {:induction false} TellsOutput(o: Output)
    ensures Tells(LinesFrom(o)) == (if o.header.Some? then [Skipped] else []) + Meanings(o.patch + Print(o.t))
  {
    var lines := o.patch + Print(o.t);
    TellsOf(lines);
    if o.header.Some? {
      var first := "* " + Hex(o.header.value);
      assert first[0] == '*';
      assert Tell(first) == Skipped;
      var all := LinesFrom(o);
      assert all == [first] + Printout(lines);
      assert Tells(all) == [Tell(first)] + Tells(Printout(lines));
    } else {
      assert LinesFrom(o) == Printout(lines);
    }
  }

  lemma {:induction false} TellsOf(lines: seq<Line>)
    ensures Tells(Printout(lines)) == Meanings(lines)
    decreases |lines|
  {
    hide Tell, Format, Meaning;
    if lines != [] {
      TellsOf(lines[1..]);
      TellsFormat(lines[0]);
      assert Tells(Printout(lines)) == [Tell(Format(lines[0]))] + Tells(Printout(lines[1..]));
      assert Meanings(lines) == [Meaning(lines[0])] + Meanings(lines[1..]);
    }
  }

  lemma {:induction false} SkippedFirst(tolds: seq<Told>)
    ensures ReadTolds([Skipped] + tolds) == ReadTolds(tolds)
    ensures Tame(tolds) ==> Tame([Skipped] + tolds)
  {
    assert ([Skipped] + tolds)[1..] == tolds;
    SkippedNames(tolds);
  }

  lemma {:induction false} SkippedNames(tolds: seq<Told>)
    ensures RootNamed([Skipped] + tolds) == RootNamed(tolds)
    decreases |tolds|
  {
    var n := |tolds| - 1;
    if n >= 0 {
      assert [Skipped] + tolds == ([Skipped] + tolds[..n]) + [tolds[n]];
      RootNamedNext([Skipped] + tolds[..n], tolds[n]);
      SkippedNames(tolds[..n]);
    } else {
      assert ([Skipped] + tolds)[..0] == [];
    }
  }

  /** A complete save is read back as the tree that was printed. */
  lemma {:induction false} SaveReadsBack(o: Output)
    requires GoodOutput(o)
    ensures var r := ReadTolds(Tells(LinesFrom(o)));
            r.Some? && r.value.root == o.t && r.value.named && forall x :: x in Ids(o.t) ==> x <= r.value.maxid
    ensures Tame(Tells(LinesFrom(o)))
  {
    TellsOutput(o);
    CanonicalPositive(o.t);
    ReadsPrint(o.patch, o.t);
    PrintTame(o.patch, o.t);
    SkippedFirst(Meanings(o.patch + Print(o.t)));
    assert [] + Meanings(o.patch + Print(o.t)) == Meanings(o.patch + Print(o.t));
  }

  /** Which beginnings of a save are read at all, and what root each of them gives: the whole save and
      all but its last line; the lines up to the first one of the print; and, without subdirectories,
      those up to any file. */
  lemma {:induction false} CutSave(o: Output, k: nat)
    requires GoodOutput(o) && k <= |LinesFrom(o)|
    ensures var r, m, n := ReadTolds(Tells(LinesFrom(o)[..k])), |LinesFrom(o)|, |LinesFrom(o)| - |Print(o.t)|;
            && (r.Some? <==> k == n + 1 || k + 1 >= m || (o.t.dirs == [] && k > n))
            && (r.Some? ==> r.value.root == Cuts.RootOf(o.t, k - n) && (r.value.named <==> k == m))
  {
    hide ReadTolds, Cuts.RootOf, Tells, Meanings, Print;
    var head := if o.header.Some? then 1 else 0;
    var lines := o.patch + Print(o.t);
    Lengths(o);
    CanonicalPositive(o.t);
    if k >= head {
      TellsCut(o, k, head);
      Cuts.AcceptedCuts(o.patch, o.t, k - head);
      SkippedFirst(Meanings(lines[..k - head]));
    } else {
      NothingRead(LinesFrom(o)[..k]);
    }
  }

  lemma {:induction false} Lengths(o: Output)
    ensures |LinesFrom(o)| == (if o.header.Some? then 1 else 0) + |o.patch| + |Print(o.t)| && |Print(o.t)| >= 2
  {
    PrintoutLength(o.patch + Print(o.t));
  }

  lemma {:induction false} PrintoutLength(lines: seq<Line>)
    ensures |Printout(lines)| == |lines|
    decreases |lines|
  {
    if lines != [] {
      PrintoutLength(lines[1..]);
    }
  }

  lemma {:induction false} TellsCut(o: Output, k: nat, head: nat)
    requires head == (if o.header.Some? then 1 else 0) && head <= k <= |LinesFrom(o)|
    ensures k - head <= |o.patch + Print(o.t)|
    ensures var rest := Meanings((o.patch + Print(o.t))[..k - head]);
            Tells(LinesFrom(o)[..k]) == if head == 1 then [Skipped] + rest else rest
  {
    hide Print, LinesFrom;
    Lengths(o);
    TellsOutput(o);
    var lines := o.patch + Print(o.t);
    assert Tells(LinesFrom(o)[..k]) == Tells(LinesFrom(o))[..k];
    assert Meanings(lines[..k - head]) == Meanings(lines)[..k - head];
  }

  lemma NothingRead(texts: seq<string>)
    requires texts == []
    ensures ReadTolds(Tells(texts)) == None
  {
  }

  /** Beginnings of a save never end the reader by its assertion. */
  lemma {:induction false} CutGoesOn(o: Output, k: nat)
    requires GoodOutput(o) && k <= |LinesFrom(o)|
    ensures !Stops(START, Tells(LinesFrom(o)[..k]))
  {
    hide LinesFrom, Tell, Stops, TakeAll, GoodOutput;
    var tolds := Tells(LinesFrom(o));
    SaveReadsBack(o);
    assert tolds == tolds[..k] + tolds[k..] && Tells(LinesFrom(o)[..k]) == tolds[..k];
    TakeConcat(START, tolds[..k], tolds[k..]);
    StopsConcat(START, tolds[..k], []);
  }

  /** Of all beginnings of a save, only the one that lacks the last line can make the scanner die. It
      does so exactly when a directory of the tree is missing from the share. */
  lemma {:induction false} CutKills(o: Output, k: nat, n: Node)
    requires GoodOutput(o) && k <= |LinesFrom(o)| && Proper(n)
    ensures RunScanner(Some(LinesFrom(o)[..k]), n) == None
       <==> k + 1 == |LinesFrom(o)| && exists p :: NR.HasDir(o.t, p) && !NR.Shows(n, p)
  {
    hide ReadTolds, Stops, LinesFrom, DtDiff.Fatal, NR.SortedNames, Print, GoodOutput, NR.Shows;
    var cut := LinesFrom(o)[..k];
    CutGoesOn(o, k);
    CutSave(o, k);
    CutTree(o, k);
    Lengths(o);
    var r := ReadTolds(Tells(cut));
    if r.Some? {
      NR.FatalIff(r.value, n);
      if k + 1 == |LinesFrom(o)| {
        SameDirs(r.value.root, o.t);
      } else if k < |LinesFrom(o)| {
        NothingBelow(r.value.root, n);
      }
    }
  }

  lemma {:induction false} CutTree(o: Output, k: nat)
    requires GoodOutput(o) && k <= |LinesFrom(o)|
    ensures var k' := k - (|LinesFrom(o)| - |Print(o.t)|);
            var root := Cuts.RootOf(o.t, k');
            && NR.SortedNames(root) && (k + 1 == |LinesFrom(o)| ==> root.dirs == o.t.dirs)
            && (k + 1 < |LinesFrom(o)| ==> root.dirs == [])
  {
    NR.CanonicalNamed(o.t);
  }

  lemma {:induction false} SameDirs(a: Dir, b: Dir)
    requires a.dirs == b.dirs
    ensures forall p :: NR.HasDir(a, p) <==> NR.HasDir(b, p)
  {
  }

  lemma {:induction false} NothingBelow(d: Dir, n: Node)
    requires d.dirs == []
    ensures forall p :: NR.HasDir(d, p) ==> NR.Shows(n, p)
  {
  }

  /** Whatever beginning of a save the scanner finds, what it prints is good, if it does not die. */
  lemma {:induction false} ScanGood(save: Option<Lines>, n: Node)
    requires (save.Some? ==> Beginning(save.value)) && Proper(n)
    ensures var o := RunScanner(save, n); o.Some? ==> GoodOutput(o.value)
  {
    hide Good, DiffScan, PatchLines, LinesShown, LinesFrom, HashOf;
    if RunScanner(save, n).None? {
      return;
    }
    AnyScan(save, n);
    FullScanGood(n);
    if save.Some? && ReadTolds(Tells(save.value)).Some? {
      var o: Output, k: nat :| Begins(o, k, save.value);
      PartTame(o, k);
      var tree := ReadTolds(Tells(save.value)).value;
      DiffGood(tree.root, n, tree.maxid);
      GoodUnique(DiffScan(tree.root, n, tree.maxid).dir);
    }
  }

  lemma GoodUnique(t: Dir)
    requires Good(t)
    ensures UniqueIds(t) && t.name == ""
  {
  }

  lemma {:induction false} PartTame(o: Output, k: nat)
    requires GoodOutput(o) && k <= |LinesFrom(o)| && ReadTolds(Tells(LinesFrom(o)[..k])).Some?
    ensures var tree := ReadTolds(Tells(LinesFrom(o)[..k])).value;
            && UniqueIds(tree.root) && tree.root.id == 1 && tree.root.name == ""
            && forall x :: x in Ids(tree.root) ==> 0 < x <= tree.maxid
  {
    hide LinesFrom, Tell, TakeAll, GoodOutput, Tame, UniqueIds, Ids;
    SaveReadsBack(o);
    assert Tells(LinesFrom(o)[..k]) == Tells(LinesFrom(o))[..k];
    TamePart(Tells(LinesFrom(o)), k);
    TameTree(Tells(LinesFrom(o)[..k]));
  }

  /** Whatever file the scanner is given, what it prints is good, if it does not die, except that two
      directories may have the same id. Without a header there is no patch. */
  lemma {:induction false} AnyScan(save: Option<Lines>, n: Node)
    requires Proper(n) && RunScanner(save, n).Some?
    ensures var o := RunScanner(save, n).value;
            && IsPatch(o.patch) && (UniqueIds(o.t) ==> Good(o.t)) && (o.header == None ==> o.patch == [])
  {
    hide Good, DiffScan, PatchLines, LinesShown;
    FullScanGood(n);
    if save.Some? && ReadTolds(Tells(save.value)).Some? {
      var tree := ReadTolds(Tells(save.value)).value;
      ReadPositive(save.value);
      AnyDiffGood(tree.root, n, tree.maxid);
      var e := DiffScan(tree.root, n, tree.maxid);
      Q.DeltaPatch(e, 0, []);
      ShownMarked(Patch(e), tree.RootName());
    }
  }

  // ---------------------------------------------------------------- updates

  lemma {:induction false} FullUpdate(t: Tables, o: Output, order: seq<int>)
    requires Good(o.t)
    ensures Update(t, o, false, order) == Some(Spider(TablesOf(o.t), map[], Some(Total(o.t))))
  {
    LoadGivesImage(o.t);
  }

  /** A print in which two directories have the same id violates a key. */
  lemma {:induction false} FullUpdateFails(t: Tables, o: Output, order: seq<int>)
    requires !UniqueIds(o.t)
    ensures Update(t, o, false, order) == None
  {
    if Update(t, o, false, order).Some? {
      Duplicates.LoadsUnique(o.t);
    }
  }

  /** A patch that was made against the committed tree turns its tables into those of the new one;
      a size that is not sent is the one that is there. */
  lemma {:induction false} PatchUpdate(t: Dir, n: Node, maxid: nat, header: Option<Md5.Hash>, order: seq<int>)
    requires Good(t) && Proper(n) && forall x :: x in Ids(t) ==> x <= maxid
    requires var e := DiffScan(t, n, maxid); FairOrder(TablesOf(t), Output(header, Patch(e), e.dir), order)
    ensures var e := DiffScan(t, n, maxid);
            var u := Update(TablesOf(t), Output(header, Patch(e), e.dir), true, order);
            && u.Some? && u.value.t == TablesOf(e.dir)
            && if u.value.total.Some? then u.value.total.value == Total(e.dir) else Total(t) == Total(e.dir)
  {
    var e := DiffScan(t, n, maxid);
    DiffSound(t, n, maxid);
    PatchGivesImage(e, order);
  }

  // ---------------------------------------------------------------- every step keeps the invariant

  /** Scanning against the committed save. */
  lemma {:induction false} BaseIs(last: Output, n: Node, o: Output)
    requires GoodOutput(last) && Proper(n) && RunScanner(Some(LinesFrom(last)), n) == Some(o)
    ensures BaseOf(Some(LinesFrom(last))) == Some(last.t)
    ensures exists maxid: nat :: Against(last.t, n, maxid, o)
  {
    SaveReadsBack(last);
    var tree := ReadTolds(Tells(LinesFrom(last))).value;
    DiffSound(last.t, n, tree.maxid);
    NR.CanonicalShown(DiffScan(last.t, n, tree.maxid));
    assert Against(last.t, n, tree.maxid, o);
  }

  ghost predicate Against(t: Dir, n: Node, maxid: nat, o: Output) {
    (forall x :: x in Ids(t) ==> x <= maxid) && var e := DiffScan(t, n, maxid); o.patch == Patch(e) && o.t == e.dir
  }

  /** The header says which save the scanner has read. */
  lemma HeaderSays(from: Option<Lines>, n: Node, o: Output)
    requires RunScanner(from, n) == Some(o) && o.header.Some?
    ensures from.Some? && o.header.value == HashOf(from.value)
  {
  }

  /** A patch headed by the committed digest was made against the committed tree. */
  lemma {:induction false} MadeAgainst(s: System, p: Phase) returns (n: Node, maxid: nat)
    requires Inv(s) && NoCollision(s.seen) && Stands(s, p) && p.Ran? && p.patchmode && p.oldhash.Some?
             && p.o.header == p.oldhash
    ensures s.last.Some? && GoodOutput(s.last.value) && Proper(n) && Against(s.last.value.t, n, maxid, p.o)
    ensures p.from == Some(LinesFrom(s.last.value)) && BaseOf(p.from) == Some(s.last.value.t)
  {
    hide Update, PatchLines, Print, TablesOf, HashOf, RunScanner, BaseOf, FairOrder, LinesFrom, DiffScan;
    n :| ScannedAt(p.from, n, p.o);
    var last := s.last.value;
    HeaderSays(p.from, n, p.o);
    assert p.from.value in s.seen && LinesFrom(last) in s.seen && HashOf(p.from.value) == HashOf(LinesFrom(last));
    assert p.from == Some(LinesFrom(last));
    BaseIs(last, n, p.o);
    maxid :| Against(last.t, n, maxid, p.o);
  }

  lemma {:induction false} PatchReady(s: System, p: Phase, order: seq<int>)
    requires Inv(s) && NoCollision(s.seen) && Stands(s, p) && p.Ran? && p.patchmode && p.oldhash.Some?
    requires p.o.header == p.oldhash && FairOrder(s.tables, p.o, order)
    ensures UniqueIds(p.o.t)
    ensures var u := Update(s.tables, p.o, true, order);
            u.Some? && Ready(s, p.o, true, BaseOf(p.from), u.value.t, u.value.total)
  {
    hide Update, TablesOf, Stands, NoCollision, BaseOf, FairOrder, Faithful, Ready, GoodOutput;
    RanGood(s, p);
    var n, maxid := MadeAgainst(s, p);
    AgainstUnique(s.last.value, n, maxid, p.o);
    hide Against;
    AgainstReady(s, p.o, n, maxid, order);
  }

  lemma {:induction false} AgainstUnique(last: Output, n: Node, maxid: nat, o: Output)
    requires GoodOutput(last) && Proper(n) && Against(last.t, n, maxid, o)
    ensures UniqueIds(o.t)
  {
    hide DiffScan, PatchLines;
    DiffSound(last.t, n, maxid);
  }

  lemma {:induction false} AgainstReady(s: System, o: Output, n: Node, maxid: nat, order: seq<int>)
    requires Faithful(s) && s.last.Some? && GoodOutput(s.last.value) && GoodOutput(o) && Proper(n)
    requires Against(s.last.value.t, n, maxid, o) && FairOrder(s.tables, o, order)
    ensures var u := Update(s.tables, o, true, order);
            u.Some? && Ready(s, o, true, Some(s.last.value.t), u.value.t, u.value.total)
  {
    hide Update, Patch, Print, TablesOf, HashOf, FairOrder, LinesFrom, DiffScan, GoodOutput;
    var t := s.last.value.t;
    assert Good(t) by {
      OutputGood(s.last.value);
    }
    assert o == Output(o.header, Patch(DiffScan(t, n, maxid)), DiffScan(t, n, maxid).dir);
    PatchUpdate(t, n, maxid, o.header, order);
  }

  lemma OutputGood(o: Output)
    requires GoodOutput(o)
    ensures Good(o.t)
  {
  }

  lemma {:induction false} FullReady(s: System, p: Phase, order: seq<int>)
    requires Stands(s, p) && p.Ran? && UniqueIds(p.o.t)
    ensures var u := Update(s.tables, p.o, false, order);
            u.Some? && Ready(s, p.o, false, None, u.value.t, u.value.total)
  {
    hide Update, TablesOf, Stands;
    RanGood(s, p);
    FullUpdate(s.tables, p.o, order);
  }

  /** An update violates a key exactly if it loads a print in which two directories have the same id.
      Otherwise the spider would leave the database faithful. */
  lemma {:induction false} ApplyReady(s: System, i: nat, tooLong: bool, order: seq<int>)
    requires Inv(s) && NoCollision(s.seen) && ApplyStep(s, i, tooLong, order).Some?
    ensures var s' := ApplyStep(s, i, tooLong, order).value;
            if UniqueIds(PhaseOf(s, i).o.t) then
              && i in s'.phases && s'.phases[i].Applied?
              && var p := s'.phases[i];
              Ready(s, p.o, p.patched, p.base, p.t, p.total) && s' == s.(phases := s.phases[i := p])
            else s' == Released(s, i, Recovering1)
  {
    hide Update, BaseOf, FairOrder, Faithful, Ready, Stands, NoCollision;
    var p := PhaseOf(s, i);
    assert Stands(s, p);
    if p.patchmode && !tooLong && p.oldhash.Some? && p.o.header == p.oldhash {
      PatchReady(s, p, order);
    } else if UniqueIds(p.o.t) {
      FullReady(s, p, order);
    } else {
      FullUpdateFails(s.tables, p.o, order);
    }
  }

  lemma {:induction false} RanGood(s: System, p: Phase)
    requires Stands(s, p) && p.Ran?
    ensures IsPatch(p.o.patch) && (UniqueIds(p.o.t) ==> GoodOutput(p.o)) && (p.o.header == None ==> p.o.patch == [])
  {
    hide HashOf, DiffScan, PatchLines, RunScanner;
    var n :| ScannedAt(p.from, n, p.o);
    AnyScan(p.from, n);
  }

  /** Nothing committed changes: the other spiders stand where they stood. */
  ghost predicate SameRows(s: System, s': System) {
    s'.hash == s.hash && s'.tables == s.tables && s'.size == s.size && s'.last == s.last && s.seen <= s'.seen
  }

  lemma {:induction false} StandsStill(s: System, s': System, p: Phase)
    requires Stands(s, p) && SameRows(s, s')
    ensures Stands(s', p)
  {
    hide RunScanner, HashOf, TablesOf;
    match p
    case Idle =>
    case Claimed =>
    case Locked(h, _) =>
    case Ran(h, patchmode, from, o) =>
      var n :| ScannedAt(from, n, o);
      assert ScannedAt(from, n, o);
    case Applied(o, patched, base, t, total) =>
    case Moved(o, patched, base, t, total) =>
    case Written(o, patched, base, t, total) =>
    case Recovering1 =>
    case Recovering2 =>
  }

  /** One spider moves to another phase, and files may change. */
  lemma {:induction false} Moves(s: System, s': System, i: nat, p: Phase)
    requires Inv(s) && SameRows(s, s') && s'.phases == s.phases[i := p] && Stands(s', p)
    requires s'.lock == s.lock || s.lock == None || (s.lock == Some(i) && s'.lock == None)
    requires Holding(p) ==> s'.lock == Some(i)
    requires s.lock == None ==> s'.lock == None || s'.lock == Some(i)
    ensures Inv(s')
  {
    hide Stands, HashOf, TablesOf, LinesFrom, GoodOutput;
    assert Faithful(s');
    forall j | j in s'.phases
      ensures Stands(s', s'.phases[j]) && (Holding(s'.phases[j]) ==> s'.lock == Some(j))
    {
      if j != i {
        StandsStill(s, s', s.phases[j]);
      }
    }
  }

  lemma {:induction false} FilesMove(s: System, s': System)
    requires Inv(s) && SameRows(s, s') && s'.phases == s.phases && s'.lock == s.lock
    ensures Inv(s')
  {
    hide Stands, HashOf, TablesOf, LinesFrom, GoodOutput;
    assert Faithful(s');
    forall j | j in s'.phases
      ensures Stands(s', s'.phases[j])
    {
      StandsStill(s, s', s.phases[j]);
    }
  }

  /** The commit makes the output, its digest and its tables the committed ones, all at once. Nobody
      else can be in the middle of anything. */
  lemma {:induction false} CommitKeeps(s: System, i: nat)
    requires Inv(s) && Next(s, Commit(i)).Some?
    ensures Inv(Next(s, Commit(i)).value)
  {
    hide HashOf, TablesOf, LinesFrom, RunScanner, Print, PatchLines;
    var s' := Next(s, Commit(i)).value;
    var p := PhaseOf(s, i);
    assert Stands(s, p) && s.lock == Some(i);
    assert Ready(s, p.o, p.patched, p.base, p.t, p.total);
    forall j | j in s'.phases
      ensures Stands(s', s'.phases[j]) && (Holding(s'.phases[j]) ==> s'.lock == Some(j))
    {
      if j != i {
        assert !Holding(s.phases[j]);
      }
    }
  }

  lemma {:induction false} PartBegins(o: Output, k: nat)
    requires GoodOutput(o) && k <= |LinesFrom(o)|
    ensures Beginning(LinesFrom(o)[..k])
  {
    assert Begins(o, k, LinesFrom(o)[..k]);
  }

  lemma {:induction false} FilesKeep(s: System, a: Action)
    requires Inv(s) && Next(s, a).Some? && (a.MoveSave? || a.SkipMove? || a.Write? || a.SkipWrite?)
    ensures Inv(Next(s, a).value) && s.seen <= Next(s, a).value.seen
  {
    hide HashOf, TablesOf, LinesFrom, RunScanner, GoodOutput, ApplyStep, Faithful, Ready;
    var s' := Next(s, a).value;
    assert Stands(s, PhaseOf(s, a.i));
    StandsStill(s, s', PhaseOf(s, a.i));
    Moves(s, s', a.i, s'.phases[a.i]);
  }

  lemma ReadyGood(s: System, p: Phase)
    requires Stands(s, p) && p.Moved?
    ensures GoodOutput(p.o)
  {
  }

  lemma {:induction false} ScanKeeps(s: System, i: nat, n: Node)
    requires Inv(s) && Next(s, Action.Scan(i, n)).Some?
    ensures Inv(Next(s, Action.Scan(i, n)).value) && s.seen <= Next(s, Action.Scan(i, n)).value.seen
  {
    hide HashOf, TablesOf, LinesFrom, RunScanner, GoodOutput, ApplyStep, Faithful, Ready;
    var s' := Next(s, Action.Scan(i, n)).value;
    assert Stands(s, PhaseOf(s, i));
    if s'.phases[i].Ran? {
      assert ScannedAt(s'.phases[i].from, n, s'.phases[i].o);
    }
    Moves(s, s', i, s'.phases[i]);
  }

  /** Every step of every spider, of the clock and of whoever deletes files keeps the invariant. */
  lemma {:induction false} StepKeeps(s: System, a: Action)
    requires Inv(s) && NoCollision(s.seen) && Next(s, a).Some?
    ensures Inv(Next(s, a).value) && s.seen <= Next(s, a).value.seen
  {
    hide HashOf, TablesOf, LinesFrom, RunScanner, GoodOutput, ApplyStep, Faithful, Ready;
    var s' := Next(s, a).value;
    if a.MoveSave? || a.SkipMove? || a.Write? || a.SkipWrite? {
      FilesKeep(s, a);
    } else if a.Scan? {
      ScanKeeps(s, a.i, a.n);
    } else if a.Apply? {
      ApplyReady(s, a.i, a.tooLong, a.order);
      ApplyHolds(s, a.i, a.tooLong, a.order);
      if s'.phases[a.i].Applied? {
        StandsStill(s, s', s'.phases[a.i]);
      }
      Moves(s, s', a.i, s'.phases[a.i]);
    } else if a.Commit? {
      CommitKeeps(s, a.i);
    } else if a.TimePasses? || a.DeleteSave? || a.PutSave? || a.DeleteOld? {
      FilesMove(s, s');
    } else if !(a.Claim? && !s.due) {
      Moves(s, s', a.i, s'.phases[a.i]);
    }
  }

  lemma ApplyHolds(s: System, i: nat, tooLong: bool, order: seq<int>)
    requires Inv(s) && ApplyStep(s, i, tooLong, order).Some?
    ensures s.lock == Some(i)
  {
  }

  lemma {:induction false} SeenGrows(s: System, run: seq<Action>)
    requires RunAll(s, run).Some?
    ensures s.seen <= RunAll(s, run).value.seen
    decreases |run|
  {
    hide ApplyStep;
    if run != [] {
      StepSees(s, run[0]);
      SeenGrows(Next(s, run[0]).value, run[1..]);
    }
  }

  lemma {:induction false} StepSees(s: System, a: Action)
    requires Next(s, a).Some?
    ensures s.seen <= Next(s, a).value.seen
  {
    hide Update, RunScanner, LinesFrom, HashOf;
  }

  lemma {:induction false} RunKeeps(s: System, run: seq<Action>)
    requires Inv(s) && RunAll(s, run).Some? && NoCollision(RunAll(s, run).value.seen)
    ensures Inv(RunAll(s, run).value)
    decreases |run|
  {
    hide Inv, Next, HashOf;
    if run != [] {
      var s' := Next(s, run[0]).value;
      SeenGrows(s, run);
      SeenGrows(s', run[1..]);
      StepSees(s, run[0]);
      StepKeeps(s, run[0]);
      RunKeeps(s', run[1..]);
    }
  }

  // ---------------------------------------------------------------- safety

  /** Over every run from an empty database, with any number of spiders, any interleaving of their
      steps, crashes at any point, partial writes and deletions of saves: the committed tables hold
      exactly the tree printed by the scan whose digest is committed with them, and the size of the
      share is the sum of all its file sizes. */
  lemma {:induction false} AlwaysFaithful(run: seq<Action>)
    requires RunAll(INIT, run).Some? && NoCollision(RunAll(INIT, run).value.seen)
    ensures Faithful(RunAll(INIT, run).value)
  {
    RunKeeps(INIT, run);
  }

  /** So the two tables always agree with each other, and going up in them is going up in the tree. */
  lemma {:induction false} AlwaysAgrees(run: seq<Action>)
    requires RunAll(INIT, run).Some? && NoCollision(RunAll(INIT, run).value.seen)
    ensures var s := RunAll(INIT, run).value; s.tables != EMPTY ==> Agreement.Agrees(s.tables.dirs, 1)
  {
    AlwaysFaithful(run);
    var s := RunAll(INIT, run).value;
    if s.last.Some? {
      Agreement.ImageAgrees(s.last.value.t);
    }
  }

  /** Whenever a patch is about to be committed, the tree that the scanner compared with is the one
      that the database holds, and the transaction has turned it into the tree that was printed. */
  lemma {:induction false} PatchesMatch(run: seq<Action>, i: nat)
    requires RunAll(INIT, run).Some? && NoCollision(RunAll(INIT, run).value.seen)
    requires var p := PhaseOf(RunAll(INIT, run).value, i); p.Written? && p.patched
    ensures var s := RunAll(INIT, run).value;
            var p := PhaseOf(s, i);
            && s.last.Some? && p.base == Some(s.last.value.t) && s.tables == TablesOf(p.base.value)
            && p.t == TablesOf(p.o.t)
  {
    hide TablesOf, HashOf, LinesFrom;
    RunKeeps(INIT, run);
    assert Stands(RunAll(INIT, run).value, PhaseOf(RunAll(INIT, run).value, i));
  }

  /** No two spiders are between lock and commit at the same time. */
  lemma {:induction false} OneAtATime(run: seq<Action>, i: nat, j: nat)
    requires RunAll(INIT, run).Some? && NoCollision(RunAll(INIT, run).value.seen)
    requires Holding(PhaseOf(RunAll(INIT, run).value, i)) && Holding(PhaseOf(RunAll(INIT, run).value, j))
    ensures i == j
  {
    RunKeeps(INIT, run);
  }

  /** An update fails, with a violated key, exactly if it loads a print in which two directories have
      the same id. */
  lemma {:induction false} UpdateFails(run: seq<Action>, i: nat, tooLong: bool, order: seq<int>)
    requires RunAll(INIT, run).Some? && NoCollision(RunAll(INIT, run).value.seen)
    requires Next(RunAll(INIT, run).value, Apply(i, tooLong, order)).Some?
    ensures var s := RunAll(INIT, run).value;
            PhaseOf(Next(s, Apply(i, tooLong, order)).value, i).Applied? <==> UniqueIds(PhaseOf(s, i).o.t)
  {
    RunKeeps(INIT, run);
    hide Inv, NoCollision, Ready, ApplyStep;
    ApplyReady(RunAll(INIT, run).value, i, tooLong, order);
    ApplyIs(RunAll(INIT, run).value, i, tooLong, order);
  }

  lemma ApplyIs(s: System, i: nat, tooLong: bool, order: seq<int>)
    ensures Next(s, Apply(i, tooLong, order)) == ApplyStep(s, i, tooLong, order)
  {
    hide ApplyStep, RunScanner;
  }

  // ---------------------------------------------------------------- without foreign files

  /** The save, and what is being scanned against, come from scans. */
  ghost predicate Home(s: System) {
    && (s.save.Some? ==> Beginning(s.save.value))
    && forall i :: i in s.phases && s.phases[i].Ran? && s.phases[i].from.Some? ==> Beginning(s.phases[i].from.value)
  }

  lemma {:induction false} HomeKeeps(s: System, a: Action)
    requires Inv(s) && Home(s) && Next(s, a).Some? && !a.PutSave?
    ensures Home(Next(s, a).value)
  {
    hide HashOf, TablesOf, LinesFrom, RunScanner, Beginning, GoodOutput, Update, Faithful, Ready, FairOrder;
    if a.Write? {
      var p := PhaseOf(s, a.i);
      assert Stands(s, p);
      ReadyGood(s, p);
      PartBegins(p.o, a.k);
    }
  }

  lemma {:induction false} RunHome(s: System, run: seq<Action>)
    requires Inv(s) && Home(s) && RunAll(s, run).Some? && NoCollision(RunAll(s, run).value.seen)
    requires forall a :: a in run ==> !a.PutSave?
    ensures Home(RunAll(s, run).value)
    decreases |run|
  {
    hide Inv, Home, Next, HashOf;
    if run != [] {
      var s' := Next(s, run[0]).value;
      SeenGrows(s, run);
      SeenGrows(s', run[1..]);
      StepSees(s, run[0]);
      StepKeeps(s, run[0]);
      assert run[0] in run;
      HomeKeeps(s, run[0]);
      RunHome(s', run[1..]);
    }
  }

  /** As long as nobody puts a foreign file in the place of the save, updates never fail: whatever the
      mode turns out to be, no constraint is violated. */
  lemma {:induction false} UpdatesSucceed(run: seq<Action>, i: nat, tooLong: bool, order: seq<int>)
    requires RunAll(INIT, run).Some? && NoCollision(RunAll(INIT, run).value.seen)
    requires forall a :: a in run ==> !a.PutSave?
    requires Next(RunAll(INIT, run).value, Apply(i, tooLong, order)).Some?
    ensures PhaseOf(Next(RunAll(INIT, run).value, Apply(i, tooLong, order)).value, i).Applied?
  {
    hide RunScanner;
    var s := RunAll(INIT, run).value;
    RunKeeps(INIT, run);
    RunHome(INIT, run);
    var p := PhaseOf(s, i);
    assert Stands(s, p);
    var n :| ScannedAt(p.from, n, p.o);
    ScanGood(p.from, n);
    ApplyReady(s, i, tooLong, order);
  }
}
