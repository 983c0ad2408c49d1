/** What comes out when the scanner prints a line about a tree that was read from a save: the root of
    that tree has whatever name the save gives it, or none at all. */
module Printing {
  import opened Wrappers
  import opened Trees

  /** What printf makes of a name that is a null pointer. */
  const NULL_NAME := "(null)"

  /** dt_printpath on a directory of the old tree, from the names below the root: it climbs as long as
      the parent's name is not empty. With a root that has no name, looking at the first character of
      that name is an access through a null pointer. */
  function PathShown(path: Path, root: Option<string>): Option<Path>
    requires path != []
    decreases |path|
  {
    var n := |path| - 1;
    if n == 0 then
      if root.None? then None else Some(if root.value == "" then path else [root.value] + path)
    else if path[n - 1] == "" then Some([path[n]])
    else
      var up := PathShown(path[..n], root);
      if up.None? then None else Some(up.value + [path[n]])
  }

  /** The path of an old directory starts at the old root. The line of an old root that has not got its
      own line has no type either, so that it looks like the line of a file. Every other line is about
      the new tree, whose root has the empty name. None if the program dies. */
  function LineShown(line: Line, root: Option<string>): Option<Line> {
    if line.PathLine? && line.act.Del? && line.path != [] then
      var p := PathShown(line.path, root);
      if p.None? then None else Some(line.(path := p.value))
    else if root.None? && line.EntryLine? && line.act.Mod? && line.pid == 0 then
      Some(EntryLine(Mod, 0, line.fid, line.size, 0, 0, NULL_NAME))
    else Some(line)
  }

  /** The lines that come out, up to the one at which the program dies. */
  function LinesShown(lines: seq<Line>, root: Option<string>): seq<Line>
    decreases |lines|
  {
    if lines == [] || LineShown(lines[0], root).None? then []
    else [LineShown(lines[0], root).value] + LinesShown(lines[1..], root)
  }

  predicate Dies(lines: seq<Line>, root: Option<string>) {
    exists i :: 0 <= i < |lines| && LineShown(lines[i], root).None?
  }

  /** A line about a directory that is gone. */
  predicate IsDrop(line: Line) {
    line.PathLine? && line.act.Del?
  }

  ghost predicate NoDrops(lines: seq<Line>) {
    forall line :: line in lines ==> !IsDrop(line)
  }

  ghost predicate Solid(path: Path) {
    forall i :: 0 <= i < |path| ==> path[i] != ""
  }

  /** With a root that has no name, no path of a directory below named ones can be printed. */
  lemma {:induction false} NoWayUp(path: Path)
    requires path != [] && Solid(path[..|path| - 1])
    ensures PathShown(path, None) == None
    decreases |path|
  {
    var n := |path| - 1;
    if n > 0 {
      var up := path[..n];
      NoWayUp(up);
    }
  }

  lemma {:induction false} NoDropsLive(lines: seq<Line>, root: Option<string>)
    requires NoDrops(lines)
    ensures !Dies(lines, root)
  {
    forall i | 0 <= i < |lines|
      ensures LineShown(lines[i], root).Some?
    {
      assert lines[i] in lines;
    }
  }

  /** With a root of the empty name, the lines are those that were asked for, as long as no directory
      that is gone has lost its name. */
  lemma {:induction false} ShownAsAsked(lines: seq<Line>)
    requires forall line :: line in lines && IsDrop(line) ==> line.path != [] && Solid(line.path)
    ensures LinesShown(lines, Some("")) == lines && !Dies(lines, Some(""))
    decreases |lines|
  {
    if lines != [] {
      assert lines[0] in lines;
      if IsDrop(lines[0]) {
        PathAsIs(lines[0].path);
      }
      ShownAsAsked(lines[1..]);
      assert forall i :: 1 <= i < |lines| ==> lines[i] == lines[1..][i - 1];
    }
  }

  lemma {:induction false} PathAsIs(path: Path)
    requires path != [] && Solid(path)
    ensures PathShown(path, Some("")) == Some(path)
    decreases |path|
  {
    var n := |path| - 1;
    if n > 0 {
      PathAsIs(path[..n]);
      assert path[..n] + [path[n]] == path;
    }
  }

  lemma {:induction false} ShownMarked(lines: seq<Line>, root: Option<string>)
    requires IsPatch(lines)
    ensures IsPatch(LinesShown(lines, root))
    decreases |lines|
  {
    if lines != [] {
      assert lines[0] in lines;
      ShownMarked(lines[1..], root);
    }
  }

  /** Whatever was asked for before the line at which the program dies comes out. */
  lemma {:induction false} ShownUpTo(lines: seq<Line>, k: nat, root: Option<string>)
    requires k < |lines| && NoDrops(lines[..k]) && LineShown(lines[k], root) == None
    ensures LinesShown(lines, root) == LinesShown(lines[..k], root) && Dies(lines, root)
    decreases k
  {
    if k > 0 {
      assert lines[..k][0] == lines[0] && lines[..k][1..] == lines[1..][..k - 1];
      assert lines[0] in lines[..k];
      assert forall line :: line in lines[1..][..k - 1] ==> line in lines[..k];
      ShownUpTo(lines[1..], k - 1, root);
    }
  }

  /** A root that has a name, be it the empty one, is never fatal. */
  lemma {:induction false} NamedLives(lines: seq<Line>, root: Option<string>)
    requires root.Some?
    ensures !Dies(lines, root)
  {
    forall i | 0 <= i < |lines|
      ensures LineShown(lines[i], root).Some?
    {
      if IsDrop(lines[i]) && lines[i].path != [] {
        NamedPath(lines[i].path, root);
      }
    }
  }

  lemma {:induction false} NamedPath(path: Path, root: Option<string>)
    requires root.Some? && path != []
    ensures PathShown(path, root).Some?
    decreases |path|
  {
    if |path| > 1 {
      NamedPath(path[..|path| - 1], root);
    }
  }

  lemma {:induction false} ShownConcat(a: seq<Line>, b: seq<Line>, root: Option<string>)
    requires !Dies(a, root)
    ensures LinesShown(a + b, root) == LinesShown(a, root) + LinesShown(b, root)
    decreases |a|
  {
    hide LineShown;
    if a == [] {
      assert a + b == b;
    } else {
      assert (a + b)[1..] == a[1..] + b && (a + b)[0] == a[0];
      assert LineShown(a[0], root).Some?;
      assert forall i :: 0 <= i < |a| - 1 ==> a[1..][i] == a[i + 1];
      ShownConcat(a[1..], b, root);
    }
  }

  /** The lines of a print are about the new tree. */
  lemma {:induction false} ShownPlain(lines: seq<Line>, root: Option<string>)
    requires forall line :: line in lines ==> line.act.Plain?
    ensures LinesShown(lines, root) == lines
    decreases |lines|
  {
    if lines != [] {
      assert lines[0] in lines;
      ShownPlain(lines[1..], root);
    }
  }
}
