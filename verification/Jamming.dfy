/** When reading a save gets stuck in the cuckoo table: a function of the lines alone. */
module Jamming {
  import opened Wrappers
  import opened Trees
  import opened Text
  import opened Restore
  import opened Displacement
  import Places
  import Basics

  /** What a line does to the keys of the table: an opening line inserts one, the entry of a directory
      below another deletes one. */
  function Touch(at: Layout, told: Told, fuel: nat): (r: Option<Layout>)
    requires Formed(at)
    ensures r.Some? ==> Formed(r.value)
  {
    if told.Opens? then Inserted(at, told.id, fuel)
    else if told.Entry? && told.dir != 0 && told.pid != 0 then Deleted(at, told.dir, fuel)
    else Some(at)
  }

  function TouchAll(tolds: seq<Told>, fuel: nat): (r: Option<Layout>)
    ensures r.Some? ==> Formed(r.value)
  {
    if tolds == [] then Some(EmptyLayout(0, FIRST_SEED))
    else
      var n := |tolds| - 1;
      var before := TouchAll(tolds[..n], fuel);
      if before.None? then None else Touch(before.value, tolds[n], fuel)
  }

  /** Some line gets stuck in the table, before any line is refused. */
  ghost predicate Jams(tolds: seq<Told>, fuel: nat) {
    exists n :: 0 <= n <= |tolds| && TakeAll(START, tolds[..n]).Some? && TouchAll(tolds[..n], fuel).None?
  }

  ghost predicate JamsText(text: string, fuel: nat) {
    Jams(Tells(LinesOf(text)), fuel)
  }

  lemma {:induction false} TouchNext(tolds: seq<Told>, told: Told, fuel: nat)
    ensures TouchAll(tolds + [told], fuel)
         == var before := TouchAll(tolds, fuel); if before.None? then None else Touch(before.value, told, fuel)
  {
    assert (tolds + [told])[..|tolds|] == tolds;
  }

  lemma {:induction false} TouchPrefix(tolds: seq<Told>, n: nat, fuel: nat)
    requires n <= |tolds| && TouchAll(tolds, fuel).Some?
    ensures TouchAll(tolds[..n], fuel).Some?
    decreases |tolds|
  {
    if n < |tolds| {
      var m := |tolds| - 1;
      TouchPrefix(tolds[..m], n, fuel);
      assert tolds[..m][..n] == tolds[..n];
    } else {
      assert tolds[..n] == tolds;
    }
  }

  /** Once stuck, stuck for good. */
  lemma {:induction false} JamsBefore(tolds: seq<Told>, more: seq<Told>, fuel: nat)
    requires TakeAll(START, tolds).Some? && TouchAll(tolds, fuel).None?
    ensures Jams(tolds + more, fuel)
  {
    assert (tolds + more)[..|tolds|] == tolds;
  }

  /** Lines that all go in do not get stuck, and neither does a file that fails at the next line. */
  lemma {:induction false} JamsNever(tolds: seq<Told>, more: seq<Told>, fuel: nat)
    requires TouchAll(tolds, fuel).Some? && (more == [] || TakeAll(START, tolds + [more[0]]).None?)
    ensures !Jams(tolds + more, fuel)
  {
    var all := tolds + more;
    forall n | 0 <= n <= |all| && TakeAll(START, all[..n]).Some?
      ensures TouchAll(all[..n], fuel).Some?
    {
      if n <= |tolds| {
        assert all[..n] == tolds[..n];
        TouchPrefix(tolds, n, fuel);
      } else {
        var rest := all[|tolds| + 1..n];
        assert all[..n] == (tolds + [more[0]]) + rest;
        TakeConcat(START, tolds + [more[0]], rest);
      }
    }
  }

  // ---------------------------------------------------------------- more fuel

  lemma {:induction false} TouchWithMore(tolds: seq<Told>, fuel: nat, more: nat)
    requires fuel <= more && TouchAll(tolds, fuel).Some?
    ensures TouchAll(tolds, more) == TouchAll(tolds, fuel)
    decreases |tolds|
  {
    hide Inserted, Deleted;
    if tolds != [] {
      var n := |tolds| - 1;
      TouchWithMore(tolds[..n], fuel, more);
      var at := TouchAll(tolds[..n], fuel).value;
      var told := tolds[n];
      if told.Opens? {
        InsertedWithMore(at, told.id, fuel, more);
      } else if told.Entry? && told.dir != 0 && told.pid != 0 {
        DeletedWithMore(at, told.dir, fuel, more);
      }
    }
  }

  /** A file that is read with some number of rehashes is read with more. */
  lemma {:induction false} JamsWithLess(tolds: seq<Told>, fuel: nat, more: nat)
    requires fuel <= more && Jams(tolds, more)
    ensures Jams(tolds, fuel)
  {
    hide TouchAll;
    var n :| 0 <= n <= |tolds| && TakeAll(START, tolds[..n]).Some? && TouchAll(tolds[..n], more).None?;
    if TouchAll(tolds[..n], fuel).Some? {
      TouchWithMore(tolds[..n], fuel, more);
    }
  }

  // ---------------------------------------------------------------- files that never get stuck

  /** Never more than two directories are waiting. */
  ghost predicate Narrow(tolds: seq<Told>) {
    forall n :: 0 <= n <= |tolds| && TakeAll(START, tolds[..n]).Some?
                ==> |TakeAll(START, tolds[..n]).value.open| <= 2
  }

  lemma {:induction false} NarrowPrefix(tolds: seq<Told>, n: nat)
    requires Narrow(tolds) && n <= |tolds|
    ensures Narrow(tolds[..n])
  {
    forall m | 0 <= m <= n
      ensures tolds[..n][..m] == tolds[..m]
    {
    }
  }

  lemma {:induction false} OpensSize(st: Restored, id: nat)
    requires id !in st.open
    ensures |st.open[id := Blank(id)]| == |st.open| + 1
  {
    assert st.open[id := Blank(id)].Keys == st.open.Keys + {id};
  }

  lemma {:induction false} TakenKeys(st: Restored, told: Told)
    requires Take(st, told).Some?
    ensures Take(st, told).value.open.Keys
         == if told.Opens? then st.open.Keys + {told.id as int}
            else if told.Entry? && told.dir != 0 && told.pid != 0 then st.open.Keys - {told.dir as int}
            else st.open.Keys
  {
  }

  /** The keys of the table are the directories that are waiting. */
  lemma {:induction false} NarrowHolding(tolds: seq<Told>, fuel: nat)
    requires Narrow(tolds) && TakeAll(START, tolds).Some?
    requires forall told :: told in tolds && told.Opens? ==> told.id > 0
    ensures TouchAll(tolds, fuel).Some?
    ensures var at := TouchAll(tolds, fuel).value; Holding(at, TakeAll(START, tolds).value.open.Keys) && at.log <= 2
    decreases |tolds|
  {
    hide Inserted, Deleted, Located, Take, Narrow;
    if tolds == [] {
      EmptyHolding(0, FIRST_SEED);
      assert START.open.Keys == {};
    } else {
      var n := |tolds| - 1;
      var before, told := tolds[..n], tolds[n];
      assert tolds == before + [told];
      NarrowPrefix(tolds, n);
      TakeConcat(START, before, [told]);
      var st := TakeAll(START, before).value;
      TakeOne(st, told);
      NarrowHolding(before, fuel);
      NarrowStep(st, told, TouchAll(before, fuel).value, fuel) by {
        assert tolds[..n + 1] == tolds && told in tolds;
        NarrowAt(tolds, n);
        NarrowAt(tolds, n + 1);
      }
    }
  }

  lemma NarrowAt(tolds: seq<Told>, n: nat)
    requires Narrow(tolds) && n <= |tolds| && TakeAll(START, tolds[..n]).Some?
    ensures |TakeAll(START, tolds[..n]).value.open| <= 2
  {
  }

  lemma {:induction false} NarrowStep(st: Restored, told: Told, at: Layout, fuel: nat)
    requires Take(st, told).Some? && Holding(at, st.open.Keys) && at.log <= 2 && (told.Opens? ==> told.id > 0)
    requires |st.open| <= 2 && |Take(st, told).value.open| <= 2
    ensures Formed(at) && Touch(at, told, fuel).Some?
    ensures var r := Touch(at, told, fuel).value; Holding(r, Take(st, told).value.open.Keys) && r.log <= 2
  {
    hide Inserted, Deleted, Located;
    PositiveKeys(at, st.open.Keys);
    TakenKeys(st, told);
    if told.Opens? {
      OpensSize(st, told.id);
      InsertedFew(at, st.open.Keys, told.id, fuel);
      assert Places.Pow2(2) == 4;
    } else if told.Entry? && told.dir != 0 && told.pid != 0 {
      assert told.dir as int in st.open;
      DeletedFew(at, st.open.Keys, told.dir, fuel);
    }
  }

  /** A file in which never more than two directories wait at a time is read without a single rehash that
      leaves a key over. */
  lemma {:induction false} NarrowNeverJams(tolds: seq<Told>, fuel: nat)
    requires Narrow(tolds) && forall told :: told in tolds && told.Opens? ==> told.id > 0
    ensures !Jams(tolds, fuel)
  {
    forall n | 0 <= n <= |tolds| && TakeAll(START, tolds[..n]).Some?
      ensures TouchAll(tolds[..n], fuel).Some?
    {
      NarrowPrefix(tolds, n);
      assert forall told :: told in tolds[..n] ==> told in tolds;
      NarrowHolding(tolds[..n], fuel);
    }
  }

  /** How many lines open a directory. */
  function Openings(tolds: seq<Told>): nat {
    if tolds == [] then 0 else (if tolds[0].Opens? then 1 else 0) + Openings(tolds[1..])
  }

  lemma {:induction false} OpeningsConcat(a: seq<Told>, b: seq<Told>)
    ensures Openings(a + b) == Openings(a) + Openings(b)
    decreases |a|
  {
    if a == [] {
      assert a + b == b;
    } else {
      assert (a + b)[1..] == a[1..] + b;
      OpeningsConcat(a[1..], b);
    }
  }

  lemma {:induction false} OpenAtMost(st: Restored, tolds: seq<Told>)
    requires TakeAll(st, tolds).Some?
    ensures |TakeAll(st, tolds).value.open| <= |st.open| + Openings(tolds)
    decreases |tolds|
  {
    hide Take;
    if tolds != [] {
      TakenKeys(st, tolds[0]);
      var st' := Take(st, tolds[0]).value;
      Basics.SubsetSize(st'.open.Keys, st.open.Keys + if tolds[0].Opens? then {tolds[0].id as int} else {});
      OpenAtMost(st', tolds[1..]);
    }
  }

  lemma {:induction false} FewOpenings(tolds: seq<Told>)
    requires Openings(tolds) <= 2
    ensures Narrow(tolds)
  {
    forall n | 0 <= n <= |tolds| && TakeAll(START, tolds[..n]).Some?
      ensures |TakeAll(START, tolds[..n]).value.open| <= 2
    {
      assert tolds == tolds[..n] + tolds[n..];
      OpeningsConcat(tolds[..n], tolds[n..]);
      OpenAtMost(START, tolds[..n]);
    }
  }

  lemma {:induction false} NoOpenings(lines: seq<Line>)
    requires forall line :: line in lines ==> !line.act.Plain? || line.EntryLine?
    ensures Openings(Meanings(lines)) == 0
    decreases |lines|
  {
    if lines != [] {
      assert Meanings(lines)[1..] == Meanings(lines[1..]);
      NoOpenings(lines[1..]);
    }
  }

  /** How many directories a tree has, itself included. */
  function DirCount(d: Dir): nat
    decreases d, 1
  {
    1 + DirCountOf(d.dirs)
  }

  function DirCountOf(ds: seq<Dir>): nat
    decreases ds, 0
  {
    if ds == [] then 0 else DirCount(ds[0]) + DirCountOf(ds[1..])
  }

  lemma {:induction false} OpeningsOfLines(a: seq<Line>, b: seq<Line>)
    ensures Openings(Meanings(a + b)) == Openings(Meanings(a)) + Openings(Meanings(b))
  {
    MeaningsConcat(a, b);
    OpeningsConcat(Meanings(a), Meanings(b));
  }

  lemma {:induction false} OpeningsOpen(ds: seq<Dir>, path: Path)
    ensures Openings(Meanings(OpenLines(Plain, ds, path))) <= |ds|
    decreases |ds|
  {
    if ds != [] {
      OpeningsOfLines([PathLine(Plain, ds[0].id, path + [ds[0].name])], OpenLines(Plain, ds[1..], path));
      OpeningsOpen(ds[1..], path);
    }
  }

  lemma {:induction false} EntriesOpenNothing(pid: nat, ds: seq<Dir>, fs: seq<File>)
    ensures forall line :: line in CloseLines(Plain, pid, ds) ==> line.EntryLine?
    ensures forall line :: line in FileLines(Plain, pid, fs) ==> line.EntryLine?
    decreases |ds| + |fs|
  {
    if ds != [] {
      EntriesOpenNothing(pid, ds[1..], fs);
    }
    if fs != [] {
      EntriesOpenNothing(pid, ds, fs[1..]);
    }
  }

  lemma {:induction false} OpeningsBody(d: Dir, path: Path)
    ensures Openings(Meanings(Body(Plain, d, path))) <= DirCountOf(d.dirs)
    decreases d, 1
  {
    hide OpenLines, FileLines, Bodies, CloseLines, Openings, Meanings;
    var o, f := OpenLines(Plain, d.dirs, path), FileLines(Plain, d.id, d.files);
    var b, c := Bodies(Plain, d.dirs, path), CloseLines(Plain, d.id, d.dirs);
    OpeningsOfLines(o + f + b, c);
    OpeningsOfLines(o + f, b);
    OpeningsOfLines(o, f);
    OpeningsOpen(d.dirs, path);
    EntriesOpenNothing(d.id, d.dirs, d.files);
    NoOpenings(f);
    NoOpenings(c);
    OpeningsBodies(d.dirs, path);
  }

  lemma {:induction false} OpeningsBodies(ds: seq<Dir>, path: Path)
    ensures Openings(Meanings(Bodies(Plain, ds, path))) + |ds| <= DirCountOf(ds)
    decreases ds, 0
  {
    hide Openings, Body;
    if ds == [] {
      assert Meanings([]) == [];
      assert Openings([]) == 0 by {
        NoOpenings([]);
      }
    } else {
      OpeningsOfLines(Body(Plain, ds[0], path + [ds[0].name]), Bodies(Plain, ds[1..], path));
      OpeningsBody(ds[0], path + [ds[0].name]);
      OpeningsBodies(ds[1..], path);
    }
  }

  /** The save of a share with at most one subdirectory is read whatever the fuel. */
  lemma {:induction false} SmallSaveNeverJams(head: seq<Told>, patch: seq<Line>, t: Dir, fuel: nat)
    requires head == [] || head == [Skipped]
    requires IsPatch(patch) && DirCount(t) <= 2
    ensures !Jams(head + Meanings(patch + Print(t)), fuel)
  {
    hide Body, Meaning, Jams, Narrow;
    var first, last := [PathLine(Plain, t.id, [])], [DirLine(Plain, 0, t)];
    var tolds := Meanings(patch + Print(t));
    OpeningsOfLines(patch, Print(t));
    NoOpenings(patch);
    OpeningsOfLines(first + Body(Plain, t, []), last);
    OpeningsOfLines(first, Body(Plain, t, []));
    OneOpening(first);
    NoOpenings(last);
    OpeningsBody(t, []);
    OpeningsConcat(head, tolds);
    assert Openings(head) == 0;
    FewOpenings(head + tolds);
    MeaningsPositive(patch + Print(t));
    NarrowNeverJams(head + tolds, fuel);
  }

  lemma OneOpening(lines: seq<Line>)
    requires |lines| == 1
    ensures Openings(Meanings(lines)) <= 1
  {
    assert Meanings(lines)[1..] == [];
  }

  lemma MeaningsPositive(lines: seq<Line>)
    ensures forall told :: told in Meanings(lines) && told.Opens? ==> told.id > 0
  {
  }
}
