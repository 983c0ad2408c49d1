/** The reader of save files: a loop over characters that keeps open directories in a cuckoo table. */
module DtRead {
  import opened Wrappers
  import opened Trees
  import opened Text
  import opened Restore
  import opened Displacement
  import opened Jamming
  import C = Cuckoo
  import Md5

  /** How a line ends: read, refused, or the program stopped, by its assertion on files or inside the
      table (see Cuckoo.Outcome). */
  datatype Answer = Read | Failed | Stopped | Halted

  class Reader {
    var cu: C.Table<Dir>
    var maxid: nat
    /** Whether the name of the directory with id 1 is set. */
    var named: bool

    ghost predicate Valid()
      reads this, cu, cu.table1, cu.table2
    {
      cu.Valid()
    }

    ghost function State(): Restored
      reads this, cu
    {
      Restored(cu.content, maxid)
    }

    twostate predicate Grown()
      reads this, cu
    {
      cu == old(cu) && cu.Reallocated()
    }

    constructor ()
      ensures Valid() && State() == START && !named && cu.Places() == EmptyLayout(0, FIRST_SEED)
      ensures fresh(cu) && fresh(cu.table1) && fresh(cu.table2)
    {
      cu := new C.Table<Dir>(0);
      maxid, named := 0, false;
    }

    /** A `0` line. */
    method Open(id: nat, fuel: nat) returns (a: Answer)
      requires Valid() && id > 0
      modifies this`maxid, this`named, cu, cu.table1, cu.table2
      ensures Valid() && Grown()
      ensures a == Read ==> Take(old(State()), Opens(id)) == Some(State()) && named == NamedBy(Opens(id), old(named))
      ensures a == Failed ==> Take(old(State()), Opens(id)) == None
      ensures a != Stopped && Formed(old(cu.Places()))
      ensures a == Read || a == Halted ==>
                && Take(old(State()), Opens(id)).Some?
                && Touch(old(cu.Places()), Opens(id), fuel) == if a == Read then Some(cu.Places()) else None
    {
      hide C.Table.Valid, Inserted;
      var r := cu.Insert(id, Blank(id), fuel);
      if r != C.Done {
        return if r == C.Rejected then Failed else Halted;
      }
      if id == 1 {
        named := false;
      }
      if id > maxid {
        maxid := id;
      }
      a := Read;
    }

    /** A `1` line. */
    method Fill(told: Told, fuel: nat) returns (a: Answer)
      requires Valid() && told.Entry? && 0 !in cu.content
      modifies this`maxid, this`named, cu, cu.table1, cu.table2
      ensures Valid() && Grown()
      ensures a == Read ==> Take(old(State()), told) == Some(State()) && named == NamedBy(told, old(named))
      ensures a == Failed || a == Stopped ==> Take(old(State()), told) == None && (a == Stopped <==> Orphan(told))
      ensures Formed(old(cu.Places()))
      ensures a == Read || a == Halted ==>
                && Take(old(State()), told).Some?
                && Touch(old(cu.Places()), told, fuel) == if a == Read then Some(cu.Places()) else None
    {
      hide C.Table.Valid, Deleted;
      cu.IsFormed();
      var Entry(pid, fid, size, id, items, name) := told;
      var drp := None;
      if pid != 0 {
        drp := cu.Lookup(pid);
        if drp == None {
          return Failed;
        }
      }
      if id == 0 {
        if pid == 0 {
          return Stopped;
        }
        var p := drp.value;
        cu.Replace(pid, p.(files := p.files + [File(name, fid, size)]));
        a := Read;
      } else {
        a := FillDir(told, drp, fuel);
      }
    }

    /** The entry of a directory: the dentry is filled in and, unless it is the root, linked. */
    method FillDir(told: Told, drp: Option<Dir>, fuel: nat) returns (a: Answer)
      requires Valid() && told.Entry? && 0 !in cu.content && told.dir != 0
      requires if told.pid == 0 then drp == None else told.pid in cu.content && drp == Some(cu.content[told.pid])
      modifies this`maxid, this`named, cu, cu.table1, cu.table2
      ensures Valid() && Grown()
      ensures a == Read ==> Take(old(State()), told) == Some(State()) && named == NamedBy(told, old(named))
      ensures a == Failed ==> Take(old(State()), told) == None
      ensures a != Stopped && Formed(old(cu.Places()))
      ensures a == Read || a == Halted ==>
                && Take(old(State()), told).Some?
                && Touch(old(cu.Places()), told, fuel) == if a == Read then Some(cu.Places()) else None
    {
      hide C.Table.Valid, Deleted;
      cu.IsFormed();
      var Entry(pid, fid, size, id, items, name) := told;
      var dr := cu.Lookup(id);
      if dr == None {
        return Failed;
      }
      var d := dr.value.(name := name, fid := fid, size := size, items := items);
      named := id == 1 || named;
      if pid == 0 {
        cu.Replace(id, d);
      } else {
        var p := drp.value;
        cu.Replace(pid, p.(dirs := p.dirs + [d]));
        assert pid in cu.content;
        var ok := cu.Delete(id, fuel);
        if !ok {
          return Halted;
        }
      }
      a := Read;
    }

    /** dtread_readline */
    method ReadLine(line: string, fuel: nat) returns (a: Answer)
      requires Valid() && 0 !in cu.content
      modifies this`maxid, this`named, cu, cu.table1, cu.table2
      ensures Valid() && Grown()
      ensures a == Read ==> Take(old(State()), Tell(line)) == Some(State()) && 0 !in cu.content
      ensures a == Read ==> named == NamedBy(Tell(line), old(named))
      ensures a == Failed || a == Stopped
              ==> Take(old(State()), Tell(line)) == None && (a == Stopped <==> Orphan(Tell(line)))
      ensures Formed(old(cu.Places()))
      ensures a == Read || a == Halted ==>
                && Take(old(State()), Tell(line)).Some?
                && Touch(old(cu.Places()), Tell(line), fuel) == if a == Read then Some(cu.Places()) else None
    {
      hide Tell, C.Table.Valid, Inserted, Deleted;
      cu.IsFormed();
      var told := Tell(line);
      TellsPositive(line);
      if told.Opens? {
        a := Open(told.id, fuel);
      } else if told.Entry? {
        a := Fill(told, fuel);
      } else {
        a := if told.Skipped? then Read else Failed;
      }
    }
  }

  // ---------------------------------------------------------------- the file

  lemma {:induction false} UnlinesSnoc(lines: seq<string>, s: string)
    ensures Unlines(lines + [s]) == Unlines(lines) + s + "\n"
    decreases |lines|
  {
    if lines == [] {
      assert lines + [s] == [s] && [s][1..] == [];
    } else {
      assert (lines + [s])[1..] == lines[1..] + [s];
      UnlinesSnoc(lines[1..], s);
    }
  }

  /** The lines in front of a text are its first lines. */
  lemma {:induction false} LinesInFront(lines: seq<string>, t: string)
    requires forall s :: s in lines ==> '\n' !in s
    ensures LinesOf(Unlines(lines) + t) == lines + LinesOf(t)
    decreases |lines|
  {
    hide LinesOf;
    if lines == [] {
      assert Unlines(lines) + t == t && lines + LinesOf(t) == LinesOf(t);
    } else {
      assert lines[0] in lines && lines == [lines[0]] + lines[1..];
      var rest := Unlines(lines[1..]) + t;
      assert Unlines(lines) + t == lines[0] + "\n" + rest;
      LineInFront(lines[0], rest);
      LinesInFront(lines[1..], t);
      assert [lines[0]] + (lines[1..] + LinesOf(t)) == ([lines[0]] + lines[1..]) + LinesOf(t);
    }
  }

  lemma {:induction false} LineInFront(s: string, rest: string)
    requires '\n' !in s
    ensures LinesOf(s + "\n" + rest) == [s] + LinesOf(rest)
  {
    var text := s + "\n" + rest;
    assert text[|s|] == '\n';
    FirstLineIs(s, rest);
    assert text[|s| + 1..] == rest;
  }

  lemma {:induction false} TellsSnoc(st: Restored, lines: seq<string>, s: string)
    requires TakeAll(START, Tells(lines)) == Some(st)
    ensures TakeAll(START, Tells(lines + [s])) == Take(st, Tell(s))
    ensures Stops(START, Tells(lines + [s])) <==> Take(st, Tell(s)).None? && Orphan(Tell(s))
    ensures RootNamed(Tells(lines + [s])) == NamedBy(Tell(s), RootNamed(Tells(lines)))
  {
    assert Tells(lines + [s]) == Tells(lines) + [Tell(s)];
    TakeConcat(START, Tells(lines), [Tell(s)]);
    TakeOne(st, Tell(s));
    StopsConcat(START, Tells(lines), [Tell(s)]);
    StopsOne(st, Tell(s));
    RootNamedNext(Tells(lines), Tell(s));
  }

  /** The last of these lines is not taken; `stopped` if it ends the program. */
  ghost predicate StuckAt(lines: seq<string>, stopped: bool) {
    && (forall s :: s in lines ==> '\n' !in s)
    && TakeAll(START, Tells(lines)) == None && Stops(START, Tells(lines)) == stopped
  }

  lemma {:induction false} StuckForGood(lines: seq<string>, t: string, stopped: bool)
    requires StuckAt(lines, stopped)
    ensures ReadText(Unlines(lines) + t) == None && StopsText(Unlines(lines) + t) == stopped
  {
    hide LinesOf, Unlines, TakeAll, Tell, Stops;
    LinesInFront(lines, t);
    assert Tells(lines + LinesOf(t)) == Tells(lines) + Tells(LinesOf(t));
    TakeConcat(START, Tells(lines), Tells(LinesOf(t)));
    StopsConcat(START, Tells(lines), Tells(LinesOf(t)));
  }

  /** The lines read so far, in the table. */
  ghost predicate Kept(reader: Reader, lines: seq<string>, fuel: nat)
    reads reader, reader.cu, reader.cu.table1, reader.cu.table2
  {
    && (forall s :: s in lines ==> '\n' !in s)
    && reader.Valid() && 0 !in reader.cu.content && TakeAll(START, Tells(lines)) == Some(reader.State())
    && reader.named == RootNamed(Tells(lines)) && TouchAll(Tells(lines), fuel) == Some(reader.cu.Places())
  }

  /** The last of these lines goes in; nothing comes back from the table. */
  ghost predicate JammedAt(lines: seq<string>, fuel: nat) {
    && (forall s :: s in lines ==> '\n' !in s)
    && TakeAll(START, Tells(lines)).Some? && TouchAll(Tells(lines), fuel).None?
  }

  lemma {:induction false} JammedForGood(lines: seq<string>, t: string, fuel: nat)
    requires JammedAt(lines, fuel)
    ensures JamsText(Unlines(lines) + t, fuel)
  {
    hide LinesOf, Unlines, TakeAll, Tell, TouchAll, Jams;
    LinesInFront(lines, t);
    assert Tells(lines + LinesOf(t)) == Tells(lines) + Tells(LinesOf(t));
    JamsBefore(Tells(lines), Tells(LinesOf(t)), fuel);
  }

  /** A file that fails at a line does not get stuck at another. */
  lemma {:induction false} NotJammed(lines: seq<string>, bs: string, t: string, fuel: nat)
    requires TouchAll(Tells(lines), fuel).Some? && (forall s :: s in lines + [bs] ==> '\n' !in s)
    requires TakeAll(START, Tells(lines + [bs])).None?
    ensures !JamsText(Unlines(lines + [bs]) + t, fuel)
  {
    hide LinesOf, Unlines, TakeAll, Tell, TouchAll, Jams;
    LinesInFront(lines + [bs], t);
    var more := [Tell(bs)] + Tells(LinesOf(t));
    assert Tells(lines + [bs]) == Tells(lines) + [more[0]];
    assert Tells(lines + [bs] + LinesOf(t)) == Tells(lines) + more;
    JamsNever(Tells(lines), more, fuel);
  }

  /** The lines read so far, in the digest. */
  ghost predicate Fed(md5: Md5.Context, lines: seq<string>)
    reads md5, md5.block
  {
    md5.Valid() && md5.fed == Md5.Bytes(Unlines(lines))
  }

  /** The digest takes a line and its newline, one after the other. */
  method Feed(md5: Md5.Context, bs: string, ghost lines: seq<string>)
    requires Fed(md5, lines)
    modifies md5, md5.block
    ensures Fed(md5, lines + [bs]) && md5.block == old(md5.block)
  {
    hide Md5.Context.Valid;
    md5.Update(Md5.Bytes(bs));
    md5.Update(Md5.Bytes("\n"));
    Md5.BytesConcat(Unlines(lines), bs);
    Md5.BytesConcat(Unlines(lines) + bs, "\n");
    UnlinesSnoc(lines, bs);
  }

  method Keep(reader: Reader, bs: string, ghost lines: seq<string>, fuel: nat) returns (a: Answer)
    requires Kept(reader, lines, fuel) && '\n' !in bs
    modifies reader`maxid, reader`named, reader.cu, reader.cu.table1, reader.cu.table2
    ensures reader.Grown()
    ensures a == Read ==> Kept(reader, lines + [bs], fuel)
    ensures a == Failed || a == Stopped ==> StuckAt(lines + [bs], a == Stopped) && TouchAll(Tells(lines), fuel).Some?
    ensures a == Halted ==> JammedAt(lines + [bs], fuel)
  {
    hide Take, Tell, C.Table.Valid, NamedBy, Orphan, Touch;
    TellsSnoc(reader.State(), lines, bs);
    TouchNext(Tells(lines), Tell(bs), fuel);
    assert Tells(lines + [bs]) == Tells(lines) + [Tell(bs)];
    a := reader.ReadLine(bs, fuel);
  }

  method NextLine(reader: Reader, md5: Md5.Context, bs: string, ghost lines: seq<string>, fuel: nat) returns (a: Answer)
    requires Kept(reader, lines, fuel) && Fed(md5, lines) && Apart(reader, md5) && '\n' !in bs
    modifies reader`maxid, reader`named, reader.cu, reader.cu.table1, reader.cu.table2, md5, md5.block
    ensures reader.Grown() && md5.block == old(md5.block) && Apart(reader, md5)
    ensures a == Read ==> Kept(reader, lines + [bs], fuel) && Fed(md5, lines + [bs])
    ensures a == Failed || a == Stopped ==> StuckAt(lines + [bs], a == Stopped) && TouchAll(Tells(lines), fuel).Some?
    ensures a == Halted ==> JammedAt(lines + [bs], fuel)
  {
    hide Kept, Fed, StuckAt, JammedAt, TouchAll;
    Feed(md5, bs, lines);
    a := Keep(reader, bs, lines, fuel);
  }

  /** What a line that is not read means for the whole file. */
  lemma {:induction false} Ends(a: Answer, lines: seq<string>, bs: string, t: string, fuel: nat)
    requires a != Read
    requires a == Failed || a == Stopped ==> StuckAt(lines + [bs], a == Stopped) && TouchAll(Tells(lines), fuel).Some?
    requires a == Halted ==> JammedAt(lines + [bs], fuel)
    ensures var text := Unlines(lines + [bs]) + t;
            && (a == Failed || a == Stopped ==> ReadText(text) == None && (a == Stopped <==> StopsText(text)))
            && (a == Halted <==> JamsText(text, fuel))
  {
    hide JammedAt, TouchAll, JamsText, ReadText, StopsText, Tell;
    if a == Halted {
      JammedForGood(lines + [bs], t, fuel);
    } else {
      StuckForGood(lines + [bs], t, a == Stopped);
      NotJammed(lines, bs, t, fuel);
    }
  }

  /** dtread_readfile: the tree that the lines of the file describe, with its largest id, and the
      digest of exactly those lines. */
  method ReadFile(text: string, fuel: nat) returns (a: Answer, tree: Tree, digest: Md5.Hash)
    ensures a == Read ==> ReadText(text) == Some(tree) && digest == Md5.Digest(Md5.Bytes(Unlines(LinesOf(text))))
    ensures a == Failed || a == Stopped ==> ReadText(text) == None && (a == Stopped <==> StopsText(text))
    ensures a == Halted <==> JamsText(text, fuel)
  {
    hide Kept, Fed, StuckAt, JammedAt, JamsText, ReadText, StopsText, Md5.Digest;
    tree, digest := Tree(Blank(0), 0, false), [];
    var reader := NewReader(fuel);
    var md5 := NewContext();
    var bs := "";
    ghost var lines: seq<string> := [];
    var i := 0;
    while i < |text|
      invariant forall s :: s in lines ==> '\n' !in s
      invariant i <= |text| && text[..i] == Unlines(lines) + bs && '\n' !in bs
      invariant Kept(reader, lines, fuel) && Fed(md5, lines) && Apart(reader, md5)
      invariant fresh(reader) && fresh(reader.cu) && fresh(reader.cu.table1) && fresh(reader.cu.table2)
      invariant fresh(md5) && fresh(md5.block)
    {
      var c := text[i];
      if c == '\n' {
        a := NextLine(reader, md5, bs, lines, fuel);
        UnlinesSnoc(lines, bs);
        if a != Read {
          assert text == Unlines(lines + [bs]) + text[i + 1..];
          Ends(a, lines, bs, text[i + 1..], fuel);
          return;
        }
        lines := lines + [bs];
        bs := "";
      } else {
        bs := bs + [c];
      }
      i := i + 1;
    }
    assert text == Unlines(lines) + bs;
    digest := Finish(md5, lines, bs);
    a, tree := Root(reader, lines, bs, fuel);
  }

  ghost predicate Apart(reader: Reader, md5: Md5.Context)
    reads reader, reader.cu, md5
  {
    var a: set<object> := {reader, reader.cu, reader.cu.table1, reader.cu.table2};
    var b: set<object> := {md5, md5.block};
    a !! b
  }

  method NewReader(ghost fuel: nat) returns (reader: Reader)
    ensures Kept(reader, [], fuel)
    ensures fresh(reader) && fresh(reader.cu) && fresh(reader.cu.table1) && fresh(reader.cu.table2)
  {
    reader := new Reader();
  }

  method NewContext() returns (md5: Md5.Context)
    ensures Fed(md5, []) && fresh(md5) && fresh(md5.block)
  {
    md5 := new Md5.Context();
  }

  /** The end of dtread_readfile: the root is what must be left in the table. Characters after the
      last newline count for nothing. */
  method Root(reader: Reader, ghost lines: seq<string>, ghost rest: string, fuel: nat) returns (a: Answer, tree: Tree)
    requires Kept(reader, lines, fuel) && '\n' !in rest
    modifies reader.cu, reader.cu.table1, reader.cu.table2
    ensures !JamsText(Unlines(lines) + rest, fuel)
    ensures a == Read ==> ReadText(Unlines(lines) + rest) == Some(tree)
    ensures a == Failed ==> ReadText(Unlines(lines) + rest) == None && !StopsText(Unlines(lines) + rest)
    ensures a != Halted && a != Stopped
  {
    hide Take, Tell, TakeAll, RootNamed, TouchAll, Jams;
    tree := Tree(Blank(0), 0, false);
    LinesInFront(lines, rest);
    assert lines + LinesOf(rest) == lines;
    StopsConcat(START, Tells(lines), []);
    JamsNever(Tells(lines), [], fuel);
    assert Tells(lines) + [] == Tells(lines);
    if reader.cu.items != 1 {
      return Failed, tree;
    }
    var dr := reader.cu.Lookup(1);
    if dr == None {
      return Failed, tree;
    }
    tree := Tree(dr.value, reader.maxid, reader.named);
    var _ := reader.cu.Delete(1, fuel);
    a := Read;
  }

  method Finish(md5: Md5.Context, ghost lines: seq<string>, ghost rest: string) returns (digest: Md5.Hash)
    requires Fed(md5, lines) && '\n' !in rest && forall s :: s in lines ==> '\n' !in s
    modifies md5, md5.block
    ensures digest == Md5.Digest(Md5.Bytes(Unlines(LinesOf(Unlines(lines) + rest))))
  {
    hide Md5.Context.Valid, Md5.Digest, Md5.Padding;
    LinesInFront(lines, rest);
    assert lines + LinesOf(rest) == lines;
    ghost var message := md5.fed;
    md5.Finish();
    digest := md5.Value(message);
  }
}
