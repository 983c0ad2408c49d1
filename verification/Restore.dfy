/** Rebuilding a tree from its print: what reading a save file makes of each line. */
module Restore {
  import opened Wrappers
  import opened Trees
  import opened Text
  import opened Image

  /** The directories opened and not yet linked to a parent, under their ids, and the largest id. */
  datatype Restored = Restored(open: map<int, Dir>, max: nat)

  const START := Restored(map[], 0)

  function Blank(id: nat): Dir {
    Dir("", id, 0, 0, 0, [], [])
  }

  function Larger(a: nat, b: nat): nat {
    if a < b then b else a
  }

  /** dtread_readline, after the line is taken apart; None is its failure, or that it ends the program
      (see Stops). */
  function Take(st: Restored, told: Told): Option<Restored> {
    match told
    case Malformed => None
    case Skipped => Some(st)
    case Opens(id) =>
      if id in st.open then None else Some(Restored(st.open[id := Blank(id)], Larger(st.max, id)))
    case Entry(pid, fid, size, dir, items, name) =>
      if pid != 0 && pid !in st.open then None
      else if dir == 0 then
        if pid == 0 then None
        else
          var p := st.open[pid];
          Some(st.(open := st.open[pid := p.(files := p.files + [File(name, fid, size)])]))
      else if dir !in st.open then None
      else
        var d := st.open[dir].(name := name, fid := fid, size := size, items := items);
        if pid == 0 then Some(st.(open := st.open[dir := d]))
        else
          var p := st.open[pid];
          Some(st.(open := st.open[pid := p.(dirs := p.dirs + [d])] - {dir}))
  }

  function TakeAll(st: Restored, tolds: seq<Told>): Option<Restored>
    decreases |tolds|
  {
    if tolds == [] then Some(st)
    else
      match Take(st, tolds[0])
      case None => None
      case Some(st') => TakeAll(st', tolds[1..])
  }

  function Meanings(lines: seq<Line>): seq<Told> {
    seq(|lines|, i requires 0 <= i < |lines| => Meaning(lines[i]))
  }

  function Tells(texts: seq<string>): seq<Told> {
    seq(|texts|, i requires 0 <= i < |texts| => Tell(texts[i]))
  }

  /** Whether the root has got a name: it has none from its opening line on until its entry's line. */
  function NamedBy(told: Told, named: bool): bool {
    if told.Opens? && told.id == 1 then false
    else if told.Entry? && told.dir == 1 then true
    else named
  }

  function RootNamed(tolds: seq<Told>): bool {
    var n := |tolds| - 1;
    n >= 0 && NamedBy(tolds[n], RootNamed(tolds[..n]))
  }

  /** The tree read from a file, with its largest id; `named` tells whether the root's name is set. */
  datatype Tree = Tree(root: Dir, maxid: nat, named: bool) {
    function RootName(): Option<string> {
      if named then Some(root.name) else None
    }
  }

  /** The end of dtread_readfile: one directory must be left, the one with id 1. */
  function Rooted(st: Restored, named: bool): Option<Tree> {
    if |st.open| == 1 && 1 in st.open then Some(Tree(st.open[1], st.max, named)) else None
  }

  function ReadTolds(tolds: seq<Told>): Option<Tree> {
    match TakeAll(START, tolds)
    case None => None
    case Some(st) => Rooted(st, RootNamed(tolds))
  }

  /** A file that belongs to no directory: an assertion ends the program. */
  predicate Orphan(told: Told) {
    told.Entry? && told.pid == 0 && told.dir == 0
  }

  /** The program ends at the first line that is not taken. */
  predicate Stops(st: Restored, tolds: seq<Told>)
    decreases |tolds|
  {
    if tolds == [] then false
    else
      match Take(st, tolds[0])
      case None => Orphan(tolds[0])
      case Some(st') => Stops(st', tolds[1..])
  }

  predicate StopsText(text: string) {
    Stops(START, Tells(LinesOf(text)))
  }

  lemma {:induction false} StopsConcat(st: Restored, a: seq<Told>, b: seq<Told>)
    ensures Stops(st, a + b) == match TakeAll(st, a) case None => Stops(st, a) case Some(st') => Stops(st', b)
    ensures TakeAll(st, a).Some? ==> !Stops(st, a)
    decreases |a|
  {
    if a == [] {
      assert a + b == b;
    } else {
      assert (a + b)[1..] == a[1..] + b;
      match Take(st, a[0])
      case None =>
      case Some(st') => StopsConcat(st', a[1..], b);
    }
  }

  lemma {:induction false} StopsOne(st: Restored, told: Told)
    ensures Stops(st, [told]) <==> Take(st, told).None? && Orphan(told)
  {
    assert [told][1..] == [];
  }

  lemma {:induction false} RootNamedNext(tolds: seq<Told>, told: Told)
    ensures RootNamed(tolds + [told]) == NamedBy(told, RootNamed(tolds))
  {
    assert (tolds + [told])[..|tolds|] == tolds;
  }

  /** Lines about other directories leave the root's name as it is. */
  lemma {:induction false} RootNamedConcat(a: seq<Told>, b: seq<Told>)
    requires forall told :: told in b ==> !(told.Opens? && told.id == 1) && !(told.Entry? && told.dir == 1)
    ensures RootNamed(a + b) == RootNamed(a)
    decreases |b|
  {
    if b == [] {
      assert a + b == a;
    } else {
      var n := |b| - 1;
      assert a + b == (a + b[..n]) + [b[n]];
      RootNamedNext(a + b[..n], b[n]);
      assert b[n] in b;
      RootNamedConcat(a, b[..n]);
    }
  }

  /** dtread_readfile on the text of a file. */
  function ReadText(text: string): Option<Tree> {
    ReadTolds(Tells(LinesOf(text)))
  }

  lemma {:induction false} TakeConcat(st: Restored, a: seq<Told>, b: seq<Told>)
    ensures TakeAll(st, a + b) == match TakeAll(st, a) case None => None case Some(st') => TakeAll(st', b)
    decreases |a|
  {
    if a == [] {
      assert a + b == b;
    } else {
      assert (a + b)[1..] == a[1..] + b;
      match Take(st, a[0])
      case None =>
      case Some(st') => TakeConcat(st', a[1..], b);
    }
  }

  // ---------------------------------------------------------------- the table of open directories

  ghost predicate Links(told: Told, id: int) {
    told.Entry? && told.dir == id > 0 && told.pid != 0
  }

  /** A line opens the directory, and no later line links it to a parent. */
  ghost predicate Waits(tolds: seq<Told>, id: int) {
    exists i :: 0 <= i < |tolds| && tolds[i].Opens? && tolds[i].id == id
                && forall j :: i < j < |tolds| ==> !Links(tolds[j], id)
  }

  lemma {:induction false} WaitsNext(tolds: seq<Told>, told: Told, id: int)
    ensures Waits(tolds + [told], id) <==> (told.Opens? && told.id == id) || (Waits(tolds, id) && !Links(told, id))
  {
    var all, n := tolds + [told], |tolds|;
    assert all[n] == told;
    if Waits(all, id) && !(told.Opens? && told.id == id) {
      var i :| 0 <= i < |all| && all[i].Opens? && all[i].id == id && forall j :: i < j < |all| ==> !Links(all[j], id);
      assert tolds[i] == all[i] && forall j :: i < j < n ==> tolds[j] == all[j];
      assert !Links(all[n], id);
    }
    if Waits(tolds, id) && !Links(told, id) {
      var i :| 0 <= i < n && tolds[i].Opens? && tolds[i].id == id && forall j :: i < j < n ==> !Links(tolds[j], id);
      assert all[i] == tolds[i] && forall j :: i < j < n ==> all[j] == tolds[j];
    }
    if told.Opens? && told.id == id {
      assert all[n].Opens?;
    }
  }

  /** Whatever lines were read so far: the table holds exactly the directories opened by a line and
      not linked to a parent since. */
  lemma {:induction false} TableHoldsWaiting(tolds: seq<Told>)
    ensures TakeAll(START, tolds).Some? ==> forall id :: id in TakeAll(START, tolds).value.open <==> Waits(tolds, id)
    decreases |tolds|
  {
    if tolds != [] {
      var n := |tolds| - 1;
      var before, told := tolds[..n], tolds[n];
      assert tolds == before + [told];
      TableHoldsWaiting(before);
      TakeConcat(START, before, [told]);
      if TakeAll(START, tolds).Some? {
        var st := TakeAll(START, before).value;
        TakeOne(st, told);
        forall id
          ensures id in TakeAll(START, tolds).value.open <==> Waits(tolds, id)
        {
          WaitsNext(before, told, id);
          TakeKeys(st, told, id);
        }
      }
    }
  }

  lemma {:induction false} TakeOne(st: Restored, told: Told)
    ensures TakeAll(st, [told]) == Take(st, told)
  {
    match Take(st, told)
    case None =>
    case Some(st') => assert TakeAll(st', [told][1..]) == Some(st');
  }

  lemma TakeKeys(st: Restored, told: Told, id: int)
    requires Take(st, told).Some?
    ensures id in Take(st, told).value.open <==> (told.Opens? && told.id == id) || (id in st.open && !Links(told, id))
  {
  }

  // ---------------------------------------------------------------- the lines of a tree

  ghost predicate PositiveIdsOf(ds: seq<Dir>) {
    forall i :: 0 <= i < |ds| ==> PositiveIds(ds[i])
  }

  /** A directory between its opening line and its closing line, when everything below is linked. */
  function Filled(d: Dir): Dir {
    Dir("", d.id, 0, 0, 0, d.dirs, d.files)
  }

  function OpenAll(open: map<int, Dir>, ds: seq<Dir>): map<int, Dir>
    decreases |ds|
  {
    if ds == [] then open else OpenAll(open[ds[0].id := Blank(ds[0].id)], ds[1..])
  }

  function FillAll(open: map<int, Dir>, ds: seq<Dir>): map<int, Dir>
    decreases |ds|
  {
    if ds == [] then open else FillAll(open[ds[0].id := Filled(ds[0])], ds[1..])
  }

  function MaxTops(max: nat, ds: seq<Dir>): nat
    decreases |ds|
  {
    if ds == [] then max else MaxTops(Larger(max, ds[0].id), ds[1..])
  }

  /** The largest id once a directory's body is read. */
  function MaxBelow(max: nat, d: Dir): nat
    decreases d, 1
  {
    MaxBodies(MaxTops(max, d.dirs), d.dirs)
  }

  function MaxBodies(max: nat, ds: seq<Dir>): nat
    decreases ds, 0
  {
    if ds == [] then max else MaxBodies(MaxBelow(max, ds[0]), ds[1..])
  }

  lemma MeaningsConcat(a: seq<Line>, b: seq<Line>)
    ensures Meanings(a + b) == Meanings(a) + Meanings(b)
  {
  }

  lemma MeaningsCons(line: Line, rest: seq<Line>)
    ensures Meanings([line] + rest)[0] == Meaning(line) && Meanings([line] + rest)[1..] == Meanings(rest)
  {
  }

  lemma {:induction false} OpensTaken(ds: seq<Dir>, path: Path, st: Restored)
    requires PositiveIdsOf(ds) && UniqueIdsOf(ds) && IdsOf(ds) !! st.open.Keys
    ensures TakeAll(st, Meanings(OpenLines(Plain, ds, path)))
         == Some(Restored(OpenAll(st.open, ds), MaxTops(st.max, ds)))
    decreases |ds|
  {
    if ds != [] {
      MeaningsCons(PathLine(Plain, ds[0].id, path + [ds[0].name]), OpenLines(Plain, ds[1..], path));
      OpensTaken(ds[1..], path, Restored(st.open[ds[0].id := Blank(ds[0].id)], Larger(st.max, ds[0].id)));
    }
  }

  lemma {:induction false} OpenAllLooks(open: map<int, Dir>, ds: seq<Dir>)
    requires UniqueIdsOf(ds)
    ensures forall d :: d in ds ==> d.id in OpenAll(open, ds) && OpenAll(open, ds)[d.id] == Blank(d.id)
    ensures forall k :: k in open && k !in IdsOf(ds) ==> k in OpenAll(open, ds) && OpenAll(open, ds)[k] == open[k]
    ensures forall k :: k in OpenAll(open, ds) ==> k in open || k in Tops(ds)
    decreases |ds|
  {
    if ds != [] {
      var open' := open[ds[0].id := Blank(ds[0].id)];
      OpenAllLooks(open', ds[1..]);
      TopsStep(ds);
      assert ds[0].id in Ids(ds[0]);
      assert ds[0].id in open' && ds[0].id !in IdsOf(ds[1..]);
      assert forall d :: d in ds ==> d == ds[0] || d in ds[1..];
    }
  }

  lemma {:induction false} FillAllLooks(open: map<int, Dir>, ds: seq<Dir>)
    requires UniqueIdsOf(ds)
    ensures forall d :: d in ds ==> d.id in FillAll(open, ds) && FillAll(open, ds)[d.id] == Filled(d)
    ensures forall k :: k in open && k !in IdsOf(ds) ==> k in FillAll(open, ds) && FillAll(open, ds)[k] == open[k]
    ensures forall k :: k in FillAll(open, ds) ==> k in open || k in Tops(ds)
    decreases |ds|
  {
    if ds != [] {
      var open' := open[ds[0].id := Filled(ds[0])];
      FillAllLooks(open', ds[1..]);
      TopsStep(ds);
      assert ds[0].id in Ids(ds[0]);
      assert ds[0].id in open' && ds[0].id !in IdsOf(ds[1..]);
      assert forall d :: d in ds ==> d == ds[0] || d in ds[1..];
    }
  }

  lemma {:induction false} FilesTaken(fs: seq<File>, pid: nat, st: Restored)
    requires pid > 0 && pid in st.open
    ensures var p := st.open[pid];
            TakeAll(st, Meanings(FileLines(Plain, pid, fs)))
            == Some(st.(open := st.open[pid := p.(files := p.files + fs)]))
    decreases |fs|
  {
    var p := st.open[pid];
    if fs == [] {
      assert p.files + fs == p.files;
      assert st.open[pid := p] == st.open;
    } else {
      MeaningsCons(FileLine(Plain, pid, fs[0]), FileLines(Plain, pid, fs[1..]));
      var one := st.(open := st.open[pid := p.(files := p.files + [fs[0]])]);
      FilesTaken(fs[1..], pid, one);
      assert (p.files + [fs[0]]) + fs[1..] == p.files + fs;
      assert one.open[pid := p.(files := p.files + fs)] == st.open[pid := p.(files := p.files + fs)];
    }
  }

  lemma {:induction false} ClosesTaken(ds: seq<Dir>, pid: nat, st: Restored)
    requires pid > 0 && pid in st.open && PositiveIdsOf(ds) && UniqueIdsOf(ds) && pid !in IdsOf(ds)
    requires forall d :: d in ds ==> d.id in st.open && st.open[d.id] == Filled(d)
    ensures var p := st.open[pid];
            TakeAll(st, Meanings(CloseLines(Plain, pid, ds)))
            == Some(st.(open := st.open[pid := p.(dirs := p.dirs + ds)] - Tops(ds)))
    decreases |ds|
  {
    hide Take, Meaning, Tops;
    var p := st.open[pid];
    if ds == [] {
      assert p.dirs + ds == p.dirs;
      NoTops();
      assert st.open[pid := p.(dirs := p.dirs + ds)] - Tops(ds) == st.open;
    } else {
      var d := ds[0];
      assert d in ds && d.id in Ids(d) && d.id > 0;
      TopsAmongIds(ds[1..]);
      TopsStep(ds);
      MeaningsCons(DirLine(Plain, pid, d), CloseLines(Plain, pid, ds[1..]));
      CloseOne(d, pid, st);
      var open := st.open[pid := p.(dirs := p.dirs + [d])] - {d.id};
      forall c | c in ds[1..]
        ensures c.id in open && open[c.id] == Filled(c)
      {
        assert c in ds;
        TopsOf(c, ds[1..]);
      }
      ClosesTaken(ds[1..], pid, st.(open := open));
      assert (p.dirs + [d]) + ds[1..] == p.dirs + ds;
      DropBeside(st.open, pid, p.(dirs := p.dirs + [d]), p.(dirs := p.dirs + ds), d.id, Tops(ds[1..]));
    }
  }

  lemma {:induction false} CloseOne(d: Dir, pid: nat, st: Restored)
    requires pid > 0 && pid in st.open && d.id > 0 && d.id in st.open && st.open[d.id] == Filled(d)
    ensures var p := st.open[pid];
            Take(st, Meaning(DirLine(Plain, pid, d)))
            == Some(st.(open := st.open[pid := p.(dirs := p.dirs + [d])] - {d.id}))
  {
    assert Filled(d).(name := d.name, fid := d.fid, size := d.size, items := d.items) == d;
  }

  lemma {:induction false} DropBeside(m: map<int, Dir>, k: int, v: Dir, w: Dir, x: int, rest: set<int>)
    requires k != x && k !in rest
    ensures (m[k := v] - {x})[k := w] - rest == m[k := w] - ({x} + rest)
  {
  }

  /** Reading the body of an open directory fills it, and leaves the rest of the table as it was. */
  lemma {:induction false} BodyTaken(d: Dir, path: Path, st: Restored)
    requires PositiveIds(d) && UniqueIds(d) && IdsOf(d.dirs) !! st.open.Keys
    requires d.id in st.open && st.open[d.id] == Blank(d.id)
    ensures TakeAll(st, Meanings(Body(Plain, d, path)))
         == Some(Restored(st.open[d.id := Filled(d)], MaxBelow(st.max, d)))
    decreases d, 1
  {
    var opens, files := OpenLines(Plain, d.dirs, path), FileLines(Plain, d.id, d.files);
    var bodies, closes := Bodies(Plain, d.dirs, path), CloseLines(Plain, d.id, d.dirs);
    MeaningsConcat(opens + files + bodies, closes);
    MeaningsConcat(opens + files, bodies);
    MeaningsConcat(opens, files);
    TakeConcat(st, Meanings(opens + files + bodies), Meanings(closes));
    TakeConcat(st, Meanings(opens + files), Meanings(bodies));
    TakeConcat(st, Meanings(opens), Meanings(files));
    OpensTaken(d.dirs, path, st);
    OpenAllLooks(st.open, d.dirs);
    var st1 := Restored(OpenAll(st.open, d.dirs), MaxTops(st.max, d.dirs));
    assert st1.open[d.id] == Blank(d.id);
    FilesTaken(d.files, d.id, st1);
    var listed := Blank(d.id).(files := d.files);
    assert Blank(d.id).files + d.files == d.files;
    var st2 := st1.(open := st1.open[d.id := listed]);
    TopsAmongIds(d.dirs);
    BlanksStay(st1.open, d.dirs, d.id, listed);
    BelowApart(d.dirs);
    forall x | x in BelowOf(d.dirs)
      ensures x !in st2.open
    {
    }
    BodiesTaken(d.dirs, path, st2);
    var st3 := Restored(FillAll(st2.open, d.dirs), MaxBodies(st2.max, d.dirs));
    FillAllLooks(st2.open, d.dirs);
    ClosesTaken(d.dirs, d.id, st3);
    assert listed.dirs + d.dirs == d.dirs;
    assert st3.open[d.id := Filled(d)] - Tops(d.dirs) == st.open[d.id := Filled(d)] by {
      BodyMaps(st.open, st1.open, st2.open, st3.open, d);
    }
  }

  lemma {:induction false} BlanksStay(open: map<int, Dir>, ds: seq<Dir>, id: int, listed: Dir)
    requires id !in IdsOf(ds) && forall d :: d in ds ==> d.id in open && open[d.id] == Blank(d.id)
    ensures forall d :: d in ds ==> d.id in open[id := listed] && open[id := listed][d.id] == Blank(d.id)
  {
    TopsAmongIds(ds);
    forall d | d in ds
      ensures d.id != id
    {
      assert d.id in Tops(ds);
    }
  }

  lemma {:induction false} BodyMaps(open: map<int, Dir>, begun: map<int, Dir>, listed: map<int, Dir>,
                                    filled: map<int, Dir>, d: Dir)
    requires UniqueIds(d) && IdsOf(d.dirs) !! open.Keys && d.id in open
    requires begun == OpenAll(open, d.dirs) && filled == FillAll(listed, d.dirs)
    requires d.id in listed && listed == begun[d.id := listed[d.id]]
    ensures filled[d.id := Filled(d)] - Tops(d.dirs) == open[d.id := Filled(d)]
  {
    OpenAllLooks(open, d.dirs);
    FillAllLooks(listed, d.dirs);
    TopsAmongIds(d.dirs);
    var a, b := filled[d.id := Filled(d)] - Tops(d.dirs), open[d.id := Filled(d)];
    hide OpenAll, FillAll, Filled, Tops;
    assert forall k :: k in a ==> k in b && a[k] == b[k];
    forall k | k in b
      ensures k in a
    {
      assert k in open && k !in IdsOf(d.dirs);
    }
  }

  lemma {:induction false} BodiesTaken(ds: seq<Dir>, path: Path, st: Restored)
    requires PositiveIdsOf(ds) && UniqueIdsOf(ds) && BelowOf(ds) !! st.open.Keys
    requires forall d :: d in ds ==> d.id in st.open && st.open[d.id] == Blank(d.id)
    ensures TakeAll(st, Meanings(Bodies(Plain, ds, path)))
         == Some(Restored(FillAll(st.open, ds), MaxBodies(st.max, ds)))
    decreases ds, 0
  {
    if ds != [] {
      var one, rest := Body(Plain, ds[0], path + [ds[0].name]), Bodies(Plain, ds[1..], path);
      MeaningsConcat(one, rest);
      TakeConcat(st, Meanings(one), Meanings(rest));
      assert ds[0] in ds;
      BodyTaken(ds[0], path + [ds[0].name], st);
      TopsAmongIds(ds[1..]);
      var st' := Restored(st.open[ds[0].id := Filled(ds[0])], MaxBelow(st.max, ds[0]));
      forall d | d in ds[1..]
        ensures d.id in st'.open && st'.open[d.id] == Blank(d.id)
      {
        assert d in ds && d.id in Tops(ds[1..]);
      }
      assert st'.open.Keys == st.open.Keys;
      BodiesTaken(ds[1..], path, st');
    }
  }

  // ---------------------------------------------------------------- the largest id

  lemma {:induction false} TopsMax(max: nat, ds: seq<Dir>)
    ensures MaxTops(max, ds) >= max && (MaxTops(max, ds) == max || MaxTops(max, ds) in Tops(ds))
    ensures forall x :: x in Tops(ds) ==> x <= MaxTops(max, ds)
    decreases |ds|
  {
    if ds != [] {
      TopsStep(ds);
      TopsMax(Larger(max, ds[0].id), ds[1..]);
    } else {
      NoTops();
    }
  }

  /** The largest id is one of those of the tree, and none is above it. */
  lemma {:induction false} BelowMax(max: nat, d: Dir)
    ensures MaxBelow(max, d) >= max && (MaxBelow(max, d) == max || MaxBelow(max, d) in IdsOf(d.dirs))
    ensures forall x :: x in IdsOf(d.dirs) ==> x <= MaxBelow(max, d)
    decreases d, 1
  {
    TopsMax(max, d.dirs);
    TopsAmongIds(d.dirs);
    BodiesMax(MaxTops(max, d.dirs), d.dirs);
    TopsAndBelow(d.dirs);
  }

  lemma {:induction false} BodiesMax(max: nat, ds: seq<Dir>)
    ensures MaxBodies(max, ds) >= max && (MaxBodies(max, ds) == max || MaxBodies(max, ds) in IdsOf(ds))
    ensures forall x :: x in BelowOf(ds) ==> x <= MaxBodies(max, ds)
    decreases ds, 0
  {
    if ds != [] {
      BelowMax(max, ds[0]);
      BodiesMax(MaxBelow(max, ds[0]), ds[1..]);
    }
  }

  // ---------------------------------------------------------------- round trip

  lemma {:induction false} PatchTaken(lines: seq<Line>, st: Restored)
    requires IsPatch(lines)
    ensures TakeAll(st, Meanings(lines)) == Some(st)
    decreases |lines|
  {
    if lines != [] {
      assert lines == [lines[0]] + lines[1..];
      MeaningsCons(lines[0], lines[1..]);
      assert lines[0] in lines;
      PatchTaken(lines[1..], st);
    }
  }

  lemma {:induction false} PrintTaken(patch: seq<Line>, t: Dir)
    requires IsPatch(patch) && PositiveIds(t) && UniqueIds(t) && t.id == 1
    ensures TakeAll(START, Meanings(patch + Print(t))) == Some(Restored(map[1 := t], MaxBelow(1, t)))
  {
    hide Body, UniqueIdsOf, PositiveIds;
    var st1 := Restored(map[1 := Blank(1)], 1);
    var first, body, last := PathLine(Plain, 1, []), Body(Plain, t, []), DirLine(Plain, 0, t);
    MeaningsConcat(patch, Print(t));
    PatchTaken(patch, START);
    TakeConcat(START, Meanings(patch), Meanings(Print(t)));
    assert Print(t) == [first] + (body + [last]);
    MeaningsCons(first, body + [last]);
    assert Take(START, Meaning(first)) == Some(st1);
    MeaningsConcat(body, [last]);
    TakeConcat(st1, Meanings(body), Meanings([last]));
    assert t.id !in IdsOf(t.dirs);
    BodyTaken(t, [], st1);
    var st2 := Restored(map[1 := Filled(t)], MaxBelow(1, t));
    assert st1.open[1 := Filled(t)] == st2.open;
    assert Meanings([last]) == [Meaning(last)];
    TakeOne(st2, Meaning(last));
    assert Filled(t).(name := t.name, fid := t.fid, size := t.size, items := t.items) == t;
    assert st2.open[1 := t] == map[1 := t];
  }

  /** Reading the print of a tree, with a patch in front or not, gives the tree back, with the same
      names, ids, positions, sizes, counts and order, and its largest id. */
  lemma {:induction false} ReadsPrint(patch: seq<Line>, t: Dir)
    requires IsPatch(patch) && PositiveIds(t) && UniqueIds(t) && t.id == 1
    ensures var r := ReadTolds(Meanings(patch + Print(t)));
            && r.Some? && r.value.root == t && r.value.named
            && r.value.maxid in Ids(t) && forall x :: x in Ids(t) ==> x <= r.value.maxid
  {
    hide TakeAll, Body, UniqueIds, PositiveIds, MaxBelow;
    PrintTaken(patch, t);
    BelowMax(1, t);
    var all := patch + Print(t);
    assert all[|all| - 1] == DirLine(Plain, 0, t) && Meanings(all)[|all| - 1] == Meaning(DirLine(Plain, 0, t));
  }

  lemma {:induction false} TellsPrintout(lines: seq<Line>)
    requires forall line :: line in lines ==> OneLine(line)
    ensures Tells(LinesOf(Unlines(Printout(lines)))) == Meanings(lines)
  {
    PrintoutOneLine(lines);
    LinesOfUnlines(Printout(lines));
    forall i | 0 <= i < |lines|
      ensures Tell(Printout(lines)[i]) == Meaning(lines[i])
    {
      TellsFormat(lines[i]);
    }
  }

  /** The same down to the characters of the file. */
  lemma {:induction false} ReadsText(patch: seq<Line>, t: Dir)
    requires IsPatch(patch) && PositiveIds(t) && UniqueIds(t) && t.id == 1
    requires forall line :: line in patch + Print(t) ==> OneLine(line)
    ensures var r := ReadText(Unlines(Printout(patch + Print(t))));
            && r.Some? && r.value.root == t && r.value.named
            && r.value.maxid in Ids(t) && forall x :: x in Ids(t) ==> x <= r.value.maxid
  {
    TellsPrintout(patch + Print(t));
    ReadsPrint(patch, t);
  }

  /** A save without its last line, the one that closes the root, is not refused: it is read as the same
      tree with an unnamed root of size and item count 0. */
  lemma {:induction false} ShortSaveAccepted(patch: seq<Line>, t: Dir)
    requires IsPatch(patch) && PositiveIds(t) && UniqueIds(t) && t.id == 1
    ensures var r := ReadTolds(Meanings(patch + ([PathLine(Plain, 1, [])] + Body(Plain, t, []))));
            r.Some? && r.value.root == Filled(t)
  {
    var st1 := Restored(map[1 := Blank(1)], 1);
    var first, body := PathLine(Plain, 1, []), Body(Plain, t, []);
    MeaningsConcat(patch, [first] + body);
    PatchTaken(patch, START);
    TakeConcat(START, Meanings(patch), Meanings([first] + body));
    MeaningsCons(first, body);
    assert Take(START, Meaning(first)) == Some(st1);
    assert t.id !in IdsOf(t.dirs);
    BodyTaken(t, [], st1);
    assert st1.open[1 := Filled(t)] == map[1 := Filled(t)];
  }
}
