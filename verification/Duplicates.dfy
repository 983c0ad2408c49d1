/** A print in which two directories have the same id cannot be loaded: the second `paths` row violates
    the primary key. */
module Duplicates {
  import opened Wrappers
  import opened Trees
  import opened Store
  import opened Image

  /** The ids of the `0` lines, in order. */
  function OpenedIds(lines: seq<Line>): seq<int> {
    if lines == [] then []
    else (if lines[0].PathLine? then [lines[0].id] else []) + OpenedIds(lines[1..])
  }

  function TopIds(ds: seq<Dir>): seq<int> {
    if ds == [] then [] else [ds[0].id] + TopIds(ds[1..])
  }

  ghost predicate Distinct(ids: seq<int>) {
    forall i, j :: 0 <= i < j < |ids| ==> ids[i] != ids[j]
  }

  ghost predicate Apart(a: seq<int>, b: seq<int>) {
    forall x :: x in a ==> x !in b
  }

  lemma {:induction false} DistinctConcat(a: seq<int>, b: seq<int>)
    ensures Distinct(a + b) <==> Distinct(a) && Distinct(b) && Apart(a, b)
  {
    var all := a + b;
    if Distinct(all) {
      forall i, j | 0 <= i < j < |a|
        ensures a[i] != a[j]
      {
        assert all[i] != all[j];
      }
      forall i, j | 0 <= i < j < |b|
        ensures b[i] != b[j]
      {
        assert all[|a| + i] != all[|a| + j];
      }
      forall x | x in a
        ensures x !in b
      {
        var i :| 0 <= i < |a| && a[i] == x;
        assert all[i] == x && forall j :: 0 <= j < |b| ==> all[|a| + j] == b[j];
      }
    }
    if Distinct(a) && Distinct(b) && Apart(a, b) {
      forall i, j | 0 <= i < j < |all|
        ensures all[i] != all[j]
      {
        if i < |a| {
          assert a[i] in a && (j >= |a| ==> all[j] == b[j - |a|] && b[j - |a|] in b);
        } else {
          assert all[i] == b[i - |a|] && all[j] == b[j - |a|];
        }
      }
    }
  }

  lemma {:induction false} OpenedConcat(a: seq<Line>, b: seq<Line>)
    ensures OpenedIds(a + b) == OpenedIds(a) + OpenedIds(b)
    decreases |a|
  {
    if a == [] {
      assert a + b == b;
    } else {
      OpenedConcat(a[1..], b);
      assert (a + b)[1..] == a[1..] + b && (a + b)[0] == a[0];
    }
  }

  // ---------------------------------------------------------------- the ids of a print

  lemma {:induction false} EntriesOpen(act: Act, ds: seq<Dir>, fs: seq<File>, pid: nat, path: Path)
    ensures OpenedIds(OpenLines(act, ds, path)) == TopIds(ds) && OpenedIds(FileLines(act, pid, fs)) == []
    ensures OpenedIds(CloseLines(act, pid, ds)) == []
    decreases |ds| + |fs|
  {
    if ds != [] {
      EntriesOpen(act, ds[1..], fs, pid, path);
    }
    if fs != [] {
      EntriesOpen(act, ds, fs[1..], pid, path);
    }
  }

  lemma {:induction false} BodyOpens(act: Act, d: Dir, path: Path)
    ensures OpenedIds(Body(act, d, path)) == TopIds(d.dirs) + OpenedIds(Bodies(act, d.dirs, path))
  {
    var a, b := OpenLines(act, d.dirs, path), FileLines(act, d.id, d.files);
    var c, e := Bodies(act, d.dirs, path), CloseLines(act, d.id, d.dirs);
    EntriesOpen(act, d.dirs, d.files, d.id, path);
    OpenedConcat(a + b + c, e);
    OpenedConcat(a + b, c);
    OpenedConcat(a, b);
  }

  ghost predicate Elements(ids: seq<int>, s: set<int>) {
    forall x :: x in ids <==> x in s
  }

  lemma {:induction false} TopElements(ds: seq<Dir>)
    ensures Elements(TopIds(ds), Tops(ds))
    decreases |ds|
  {
    if ds == [] {
      NoTops();
    } else {
      TopsStep(ds);
      TopElements(ds[1..]);
    }
  }

  /** Lines that open every directory once come from a tree without duplicates. */
  lemma {:induction false} DistinctBody(act: Act, d: Dir, path: Path)
    requires Distinct(OpenedIds(Body(act, d, path)))
    ensures UniqueIdsOf(d.dirs) && Elements(OpenedIds(Body(act, d, path)), IdsOf(d.dirs))
    decreases d, 1
  {
    hide Distinct;
    BodyOpens(act, d, path);
    TopElements(d.dirs);
    TopsAndBelow(d.dirs);
    DistinctBodies(act, d.dirs, path);
  }

  lemma {:induction false} DistinctBodies(act: Act, ds: seq<Dir>, path: Path)
    requires Distinct(TopIds(ds) + OpenedIds(Bodies(act, ds, path)))
    ensures UniqueIdsOf(ds) && Elements(OpenedIds(Bodies(act, ds, path)), BelowOf(ds))
    decreases ds, 0
  {
    hide Distinct, Body, UniqueIdsOf, IdsOf, Elements, Apart;
    if ds == [] {
      NoneOpened();
    } else {
      var first, rest := Body(act, ds[0], path + [ds[0].name]), Bodies(act, ds[1..], path);
      var t, f, r := TopIds(ds[1..]), OpenedIds(first), OpenedIds(rest);
      OpenedConcat(first, rest);
      assert TopIds(ds) + OpenedIds(Bodies(act, ds, path)) == [ds[0].id] + (t + (f + r));
      FourApart(ds[0].id, t, f, r);
      DistinctBody(act, ds[0], path + [ds[0].name]);
      DistinctBodies(act, ds[1..], path);
      TopElements(ds[1..]);
      UniqueFirst(ds, t, f, r);
    }
  }

  lemma NoneOpened()
    ensures UniqueIdsOf([]) && Elements([], {}) && BelowOf([]) == {} && OpenedIds([]) == []
  {
  }

  lemma {:induction false} UniqueFirst(ds: seq<Dir>, t: seq<int>, f: seq<int>, r: seq<int>)
    requires ds != [] && UniqueIdsOf(ds[0].dirs) && UniqueIdsOf(ds[1..])
    requires Elements(t, Tops(ds[1..])) && Elements(f, IdsOf(ds[0].dirs)) && Elements(r, BelowOf(ds[1..]))
    requires var h := ds[0].id; h !in t && h !in f && h !in r && Apart(f, t) && Apart(f, r)
    ensures UniqueIdsOf(ds) && Elements(f + r, BelowOf(ds))
  {
    TopsAndBelow(ds[1..]);
    assert forall x :: x in f + r <==> x in f || x in r;
    forall x | x in Ids(ds[0])
      ensures x !in IdsOf(ds[1..])
    {
      if x != ds[0].id {
        assert x in f && x !in t && x !in r;
      }
    }
  }

  lemma {:induction false} FourApart(h: int, t: seq<int>, f: seq<int>, r: seq<int>)
    requires Distinct([h] + (t + (f + r)))
    ensures Distinct(f) && Distinct(t + r) && h !in t && h !in f && h !in r && Apart(f, t) && Apart(f, r)
  {
    DistinctConcat([h], t + (f + r));
    DistinctConcat(t, f + r);
    DistinctConcat(f, r);
    DistinctConcat(t, r);
    assert h in [h];
  }

  lemma {:induction false} DistinctPrint(t: Dir)
    requires Distinct(OpenedIds(Print(t)))
    ensures UniqueIds(t)
  {
    hide Distinct;
    var body, last := Body(Plain, t, []), [DirLine(Plain, 0, t)];
    var first := [PathLine(Plain, t.id, [])];
    OpenedConcat(first + body, last);
    OpenedConcat(first, body);
    assert first[1..] == [] && last[1..] == [];
    assert OpenedIds(Print(t)) == [t.id] + OpenedIds(body);
    DistinctConcat([t.id], OpenedIds(body));
    assert t.id in [t.id];
    DistinctBody(Plain, t, []);
  }

  // ---------------------------------------------------------------- a load

  ghost predicate Unmodified(buffer: map<int, bool>) {
    forall id :: id in buffer ==> !buffer[id]
  }

  /** Statements of a load; none of them takes a row of `paths` away. */
  predicate Loading(q: Stmt) {
    q.InsertPath? || q.UpdatePath? || q.InsertFile?
  }

  lemma {:induction false} LoadingKeeps(t: Tables, qs: seq<Stmt>)
    requires (forall q :: q in qs ==> Loading(q)) && ExecAll(t, qs).Some?
    ensures t.dirs.Keys <= ExecAll(t, qs).value.dirs.Keys
    decreases |qs|
  {
    hide Exec;
    if qs != [] {
      assert qs[0] in qs;
      OneKeeps(t, qs[0]);
      LoadingKeeps(Exec(t, qs[0]).value, qs[1..]);
    }
  }

  lemma OneKeeps(t: Tables, q: Stmt)
    requires Loading(q) && Exec(t, q).Some?
    ensures t.dirs.Keys <= Exec(t, q).value.dirs.Keys
    ensures q.InsertPath? ==> q.id !in t.dirs && q.id in Exec(t, q).value.dirs
  {
  }

  lemma {:induction false} StepOpens(s: Spider, line: Line)
    requires line.act.Add? && Unmodified(s.buffer) && Step(s, line).Some?
    ensures var s' := Step(s, line).value;
            && Unmodified(s'.buffer) && s.t.dirs.Keys <= s'.t.dirs.Keys
            && (line.PathLine? ==> line.id !in s.t.dirs && line.id in s'.t.dirs)
  {
    hide Exec;
    var r := Read(line, s.buffer, s.total).value;
    LoadingKeeps(s.t, r.stmts);
    if line.PathLine? {
      var q := InsertPath(line.id, line.path);
      ExecOne(s.t, q);
      OneKeeps(s.t, q);
    }
  }

  lemma {:induction false} RunOpens(s: Spider, lines: seq<Line>)
    requires (forall line :: line in lines ==> line.act.Add?) && Unmodified(s.buffer) && Run(s, lines).Some?
    ensures Distinct(OpenedIds(lines)) && forall x :: x in OpenedIds(lines) ==> x !in s.t.dirs
    decreases |lines|
  {
    hide Step;
    if lines != [] {
      assert lines[0] in lines;
      var s' := Step(s, lines[0]).value;
      StepOpens(s, lines[0]);
      RunOpens(s', lines[1..]);
      if lines[0].PathLine? {
        DistinctConcat([lines[0].id], OpenedIds(lines[1..]));
      }
    }
  }

  lemma {:induction false} AddedOpens(lines: seq<Line>)
    ensures OpenedIds(AsAdded(lines)) == OpenedIds(lines) && forall line :: line in AsAdded(lines) ==> line.act.Add?
    decreases |lines|
  {
    if lines != [] {
      AddedOpens(lines[1..]);
    }
  }

  /** Only a tree without duplicates can be loaded. */
  lemma {:induction false} LoadsUnique(t: Dir)
    requires Run(Spider(EMPTY, map[], None), AsAdded(Print(t))).Some?
    ensures UniqueIds(t)
  {
    AddedOpens(Print(t));
    RunOpens(Spider(EMPTY, map[], None), AsAdded(Print(t)));
    DistinctPrint(t);
  }
}
