/** Which beginnings of a save the reader takes for a whole one. */
module Cuts {
  import opened Wrappers
  import opened Trees
  import opened Image
  import opened Text
  import opened Restore
  import Basics

  // ---------------------------------------------------------------- lines that link a directory

  /** No line among these links the directory to its parent. */
  ghost predicate Unlinked(lines: seq<Line>, id: int) {
    forall line :: line in lines && line.EntryLine? && line.act.Plain? ==> line.dir != id
  }

  lemma {:induction false} OpensUnlinked(ds: seq<Dir>, path: Path, id: int)
    ensures Unlinked(OpenLines(Plain, ds, path), id)
    ensures |OpenLines(Plain, ds, path)| == |ds|
    ensures forall i :: 0 <= i < |ds|
                        ==> OpenLines(Plain, ds, path)[i] == PathLine(Plain, ds[i].id, path + [ds[i].name])
    decreases |ds|
  {
    if ds != [] {
      OpensUnlinked(ds[1..], path, id);
    }
  }

  lemma {:induction false} FilesUnlinked(pid: nat, fs: seq<File>, id: int)
    requires id > 0
    ensures Unlinked(FileLines(Plain, pid, fs), id)
    decreases |fs|
  {
    if fs != [] {
      FilesUnlinked(pid, fs[1..], id);
    }
  }

  lemma {:induction false} ClosesUnlinked(pid: nat, ds: seq<Dir>, id: int)
    requires id !in Tops(ds)
    ensures Unlinked(CloseLines(Plain, pid, ds), id)
    decreases |ds|
  {
    if ds != [] {
      TopsStep(ds);
      ClosesUnlinked(pid, ds[1..], id);
    }
  }

  lemma {:induction false} BodyUnlinked(d: Dir, path: Path, id: int)
    requires id > 0 && id !in IdsOf(d.dirs)
    ensures Unlinked(Body(Plain, d, path), id)
    decreases d, 1
  {
    OpensUnlinked(d.dirs, path, id);
    FilesUnlinked(d.id, d.files, id);
    TopsAndBelow(d.dirs);
    BodiesUnlinked(d.dirs, path, id);
    TopsAmongIds(d.dirs);
    ClosesUnlinked(d.id, d.dirs, id);
  }

  lemma {:induction false} BodiesUnlinked(ds: seq<Dir>, path: Path, id: int)
    requires id > 0 && id !in BelowOf(ds)
    ensures Unlinked(Bodies(Plain, ds, path), id)
    decreases ds, 0
  {
    if ds != [] {
      BodyUnlinked(ds[0], path + [ds[0].name], id);
      BodiesUnlinked(ds[1..], path, id);
    }
  }

  /** No line among these opens the directory. */
  ghost predicate Unopened(lines: seq<Line>, id: int) {
    forall line :: line in lines && line.PathLine? && line.act.Plain? ==> line.id != id
  }

  lemma {:induction false} EntriesUnopened(ds: seq<Dir>, fs: seq<File>, pid: nat, path: Path, id: int)
    requires id !in Tops(ds)
    ensures Unopened(OpenLines(Plain, ds, path), id) && Unopened(FileLines(Plain, pid, fs), id)
    ensures Unopened(CloseLines(Plain, pid, ds), id)
    decreases |ds| + |fs|
  {
    if ds != [] {
      TopsStep(ds);
      EntriesUnopened(ds[1..], fs, pid, path, id);
    }
    if fs != [] {
      EntriesUnopened(ds, fs[1..], pid, path, id);
    }
  }

  lemma {:induction false} BodyUnopened(d: Dir, path: Path, id: int)
    requires id !in IdsOf(d.dirs)
    ensures Unopened(Body(Plain, d, path), id)
    decreases d, 1
  {
    TopsAndBelow(d.dirs);
    EntriesUnopened(d.dirs, d.files, d.id, path, id);
    BodiesUnopened(d.dirs, path, id);
  }

  lemma {:induction false} BodiesUnopened(ds: seq<Dir>, path: Path, id: int)
    requires id !in BelowOf(ds)
    ensures Unopened(Bodies(Plain, ds, path), id)
    decreases ds, 0
  {
    if ds != [] {
      BodyUnopened(ds[0], path + [ds[0].name], id);
      BodiesUnopened(ds[1..], path, id);
    }
  }

  // ---------------------------------------------------------------- a directory that keeps waiting

  /** A directory opened among the first lines and not linked among them waits. */
  lemma {:induction false} OpenedWaits(lines: seq<Line>, i: nat, id: nat, path: Path)
    requires i < |lines| && lines[i] == PathLine(Plain, id, path) && id > 0 && Unlinked(lines, id)
    ensures Waits(Meanings(lines), id)
  {
    var tolds := Meanings(lines);
    assert tolds[i] == Opens(id);
    forall j | i < j < |tolds|
      ensures !Links(tolds[j], id)
    {
      assert lines[j] in lines && tolds[j] == Meaning(lines[j]);
    }
  }

  /** With another directory than the root waiting, the lines are refused. */
  lemma {:induction false} RefusedWhileWaiting(tolds: seq<Told>, id: int)
    requires Waits(tolds, id) && id != 1
    ensures ReadTolds(tolds) == None
  {
    TableHoldsWaiting(tolds);
    var r := TakeAll(START, tolds);
    if r.Some? && 1 in r.value.open {
      var both := {1, id};
      assert both <= r.value.open.Keys;
      Basics.SubsetSize(both, r.value.open.Keys);
    }
  }

  // ---------------------------------------------------------------- the cuts

  /** All lines but the last two, in a share with subdirectories: the last one of them is not linked. */
  lemma {:induction false} LastUnlinked(patch: seq<Line>, t: Dir)
    requires IsPatch(patch) && PositiveIds(t) && UniqueIds(t) && t.dirs != []
    ensures var lines, last := patch + Print(t), t.dirs[|t.dirs| - 1];
            |lines| >= 2 && last.id > 0 && Unlinked(lines[..|lines| - 2], last.id)
  {
    var m := |t.dirs| - 1;
    var last, before := t.dirs[m], t.dirs[..m];
    assert t.dirs == before + [last];
    LastApart(t.dirs);
    OpensUnlinked(t.dirs, [], last.id);
    FilesUnlinked(t.id, t.files, last.id);
    BodiesUnlinked(t.dirs, [], last.id);
    ClosesUnlinked(t.id, before, last.id);
    CloseLinesSnoc(Plain, t.id, before, last);
    var first := PathLine(Plain, t.id, []);
    var head := patch + ([first] + (OpenLines(Plain, t.dirs, []) + FileLines(Plain, t.id, t.files)
                                    + Bodies(Plain, t.dirs, [])
                                    + CloseLines(Plain, t.id, before)));
    var lines := patch + Print(t);
    assert lines == head + [DirLine(Plain, t.id, last), DirLine(Plain, 0, t)];
    assert lines[..|lines| - 2] == head;
  }

  lemma {:induction false} LastApart(ds: seq<Dir>)
    requires UniqueIdsOf(ds) && ds != []
    ensures var m := |ds| - 1; ds[m].id !in Tops(ds[..m]) && ds[m].id !in BelowOf(ds) && ds[m].id in Tops(ds)
    decreases |ds|
  {
    var m := |ds| - 1;
    TopsOf(ds[m], ds);
    BelowApart(ds);
    if m > 0 {
      LastApart(ds[1..]);
      TopsAmongIds(ds[1..]);
      assert ds[1..][m - 1] == ds[m];
      assert ds[..m][1..] == ds[1..][..m - 1] && ds[..m][0] == ds[0];
      TopsStep(ds[..m]);
      assert ds[0].id in Ids(ds[0]);
    } else {
      assert ds[..m] == [];
      NoTops();
    }
  }

  lemma {:induction false} PatchRefused(patch: seq<Line>, k: nat)
    requires IsPatch(patch) && k <= |patch|
    ensures ReadTolds(Meanings(patch[..k])) == None
  {
    PatchTaken(patch[..k], START);
  }

  /** A cut among the opening lines of the subdirectories leaves the first of them waiting. */
  lemma {:induction false} EarlyRefused(patch: seq<Line>, ds: seq<Dir>, j: nat)
    requires IsPatch(patch) && ds != [] && 0 < j <= |OpenLines(Plain, ds, [])| && ds[0].id > 1
    ensures ReadTolds(Meanings(patch + [PathLine(Plain, 1, [])] + OpenLines(Plain, ds, [])[..j])) == None
  {
    hide Meanings, ReadTolds, OpenLines;
    var opens, c := OpenLines(Plain, ds, []), ds[0];
    OpensUnlinked(ds, [], c.id);
    var part := opens[..j];
    assert forall line :: line in part ==> line in opens;
    var cut := patch + [PathLine(Plain, 1, [])] + part;
    assert cut[|patch| + 1] == opens[0];
    OpenedWaits(cut, |patch| + 1, c.id, [c.name]);
    RefusedWhileWaiting(Meanings(cut), c.id);
  }

  /** A later cut inside the print leaves the last one waiting. */
  lemma {:induction false} LateRefused(patch: seq<Line>, t: Dir, k: nat)
    requires IsPatch(patch) && PositiveIds(t) && UniqueIds(t) && t.id == 1 && t.dirs != []
    requires |patch| + |t.dirs| < k && k + 1 < |patch + Print(t)|
    ensures ReadTolds(Meanings((patch + Print(t))[..k])) == None
  {
    hide Meanings, ReadTolds, OpenLines;
    var lines, m := patch + Print(t), |t.dirs| - 1;
    var c := t.dirs[m];
    LastUnlinked(patch, t);
    TopsOf(c, t.dirs);
    TopsAmongIds(t.dirs);
    OpensUnlinked(t.dirs, [], 0);
    var opens := OpenLines(Plain, t.dirs, []);
    assert opens[m] == lines[|patch| + 1 + m];
    var cut := lines[..k];
    assert cut == lines[..|lines| - 2][..k];
    assert forall line :: line in cut ==> line in lines[..|lines| - 2];
    OpenedWaits(cut, |patch| + 1 + m, c.id, [c.name]);
    RefusedWhileWaiting(Meanings(cut), c.id);
  }

  /** A cut inside the body of a share with subdirectories leaves one of them waiting. */
  lemma {:induction false} InsideRefused(patch: seq<Line>, t: Dir, k: nat)
    requires IsPatch(patch) && PositiveIds(t) && UniqueIds(t) && t.id == 1 && t.dirs != []
    requires |patch| + 1 < k && k + 1 < |patch + Print(t)|
    ensures ReadTolds(Meanings((patch + Print(t))[..k])) == None
  {
    hide Meanings, ReadTolds, OpenLines;
    var lines, n := patch + Print(t), |patch|;
    if k <= n + 1 + |t.dirs| {
      TopsOf(t.dirs[0], t.dirs);
      TopsAmongIds(t.dirs);
      OpensUnlinked(t.dirs, [], 0);
      assert lines[..k] == patch + [PathLine(Plain, 1, [])] + OpenLines(Plain, t.dirs, [])[..k - n - 1];
      EarlyRefused(patch, t.dirs, k - n - 1);
    } else {
      LateRefused(patch, t, k);
    }
  }

  lemma {:induction false} FileLinesPart(pid: nat, fs: seq<File>, j: nat)
    requires j <= |fs|
    ensures |FileLines(Plain, pid, fs)| == |fs| && FileLines(Plain, pid, fs)[..j] == FileLines(Plain, pid, fs[..j])
    decreases |fs|
  {
    if fs != [] {
      FileLinesPart(pid, fs[1..], if j == 0 then 0 else j - 1);
      if j > 0 {
        assert fs[..j][1..] == fs[1..][..j - 1];
      }
    }
  }

  /** In a share without subdirectories any number of its files will do. */
  lemma {:induction false} FlatAccepted(patch: seq<Line>, t: Dir, k: nat)
    requires IsPatch(patch) && t.id == 1 && t.dirs == []
    requires |patch| < k < |patch + Print(t)|
    ensures k - |patch| - 1 <= |t.files|
    ensures var r := ReadTolds(Meanings((patch + Print(t))[..k]));
            r.Some? && r.value.root == Blank(1).(files := t.files[..k - |patch| - 1])
  {
    var first, files, j := PathLine(Plain, 1, []), FileLines(Plain, 1, t.files), k - |patch| - 1;
    FileLinesPart(1, t.files, |t.files|);
    assert Body(Plain, t, []) == files;
    var lines := patch + ([first] + files + [DirLine(Plain, 0, t)]);
    assert patch + Print(t) == lines;
    FileLinesPart(1, t.files, j);
    var part := FileLines(Plain, 1, t.files[..j]);
    assert lines[..k] == patch + ([first] + part);
    MeaningsConcat(patch, [first] + part);
    PatchTaken(patch, START);
    TakeConcat(START, Meanings(patch), Meanings([first] + part));
    MeaningsCons(first, part);
    var st := Restored(map[1 := Blank(1)], 1);
    assert Take(START, Meaning(first)) == Some(st);
    FilesTaken(t.files[..j], 1, st);
    assert [] + t.files[..j] == t.files[..j];
    assert st.open[1 := Blank(1).(files := t.files[..j])] == map[1 := Blank(1).(files := t.files[..j])];
  }

  /** A cut right after the root's opening line leaves an empty share. */
  lemma {:induction false} FirstAccepted(patch: seq<Line>, t: Dir)
    requires IsPatch(patch) && t.id == 1
    ensures var r := ReadTolds(Meanings((patch + Print(t))[..|patch| + 1]));
            r.Some? && r.value.root == Blank(1)
  {
    var first := PathLine(Plain, 1, []);
    assert (patch + Print(t))[..|patch| + 1] == patch + [first];
    MeaningsConcat(patch, [first]);
    PatchTaken(patch, START);
    TakeConcat(START, Meanings(patch), Meanings([first]));
    assert Meanings([first]) == [Meaning(first)];
    TakeOne(START, Meaning(first));
    assert Take(START, Meaning(first)) == Some(Restored(map[1 := Blank(1)], 1));
  }

  /** Without the last line the root has not got its name. */
  lemma {:induction false} CutNameless(patch: seq<Line>, t: Dir, k: nat)
    requires IsPatch(patch) && UniqueIds(t) && t.id == 1 && |patch| < k < |patch + Print(t)|
    ensures !RootNamed(Meanings((patch + Print(t))[..k]))
  {
    hide Body;
    var first, body := PathLine(Plain, 1, []), Body(Plain, t, []);
    var part := body[..k - |patch| - 1];
    assert (patch + Print(t))[..k] == (patch + [first]) + part;
    MeaningsConcat(patch + [first], part);
    MeaningsConcat(patch, [first]);
    assert Meanings([first]) == [Meaning(first)];
    RootNamedNext(Meanings(patch), Meaning(first));
    BodyUnlinked(t, [], 1);
    BodyUnopened(t, [], 1);
    forall told | told in Meanings(part)
      ensures !(told.Opens? && told.id == 1) && !(told.Entry? && told.dir == 1)
    {
      var i :| 0 <= i < |part| && Meanings(part)[i] == told;
      assert body[i] == part[i] && part[i] in body && told == Meaning(part[i]);
    }
    RootNamedConcat(Meanings(patch + [first]), Meanings(part));
  }

  /** The root that an accepted beginning gives, `k` lines into the print. */
  function RootOf(t: Dir, k: int): Dir {
    if k >= |Print(t)| then t
    else if k + 1 == |Print(t)| then Filled(t)
    else if t.dirs == [] && 0 < k <= |t.files| + 1 then Blank(1).(files := t.files[..k - 1])
    else Blank(1)
  }

  lemma NamedIs(lines: seq<Line>)
    ensures var r := ReadTolds(Meanings(lines)); r.Some? ==> r.value.named == RootNamed(Meanings(lines))
  {
  }

  /** Of all beginnings of a save, the reader accepts exactly these: the whole of it; all but its last
      line, as the tree with an unnamed root of size 0; the patch and the first line of the print, as an
      empty share; and, if the share has no subdirectories, everything in between, as a share with that
      many of its files. Only with the last line has the root got its name. */
  lemma {:induction false} AcceptedCuts(patch: seq<Line>, t: Dir, k: nat)
    requires IsPatch(patch) && PositiveIds(t) && UniqueIds(t) && t.id == 1 && k <= |patch + Print(t)|
    ensures var r, n, m := ReadTolds(Meanings((patch + Print(t))[..k])), |patch|, |patch + Print(t)|;
            && (r.Some? <==> k == n + 1 || k + 1 >= m || (t.dirs == [] && k > n))
            && (r.Some? ==> r.value.root == RootOf(t, k - n) && (r.value.named <==> k == m))
  {
    hide ReadTolds, Meanings, Body, Filled;
    var lines, n := patch + Print(t), |patch|;
    assert |lines| >= n + 2;
    if n < k < |lines| {
      CutNameless(patch, t, k);
      NamedIs(lines[..k]);
    }
    if k <= n {
      assert lines[..k] == patch[..k];
      PatchRefused(patch, k);
    } else if k == |lines| {
      assert lines[..k] == lines;
      ReadsPrint(patch, t);
    } else if k + 1 == |lines| {
      assert lines[..k] == patch + ([PathLine(Plain, 1, [])] + Body(Plain, t, []));
      ShortSaveAccepted(patch, t);
    } else if t.dirs == [] {
      FlatAccepted(patch, t, k);
    } else if k == n + 1 {
      FirstAccepted(patch, t);
    } else {
      InsideRefused(patch, t, k);
    }
  }
}
