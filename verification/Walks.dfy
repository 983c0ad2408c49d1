/** The walk of a share in the scanner's own form: a loop over a current directory, driving a walker
    step by step and printing as it goes. It refines the recursive scan. */
module Walks {
  import opened Names
  import opened Wrappers
  import opened Trees
  import opened Scan
  import opened Cycles
  import Md5

  // ---------------------------------------------------------------- the walker

  /** What readdir returns: one entry, in whatever order the share has them. */
  datatype Item = Item(name: string, size: nat, isDir: bool)

  function ItemsOfFiles(files: seq<Plain>): seq<Item> {
    if files == [] then [] else [Item(files[0].name, files[0].size, false)] + ItemsOfFiles(files[1..])
  }

  /** What a walker is asked to do, with the directory it is done in or the directory meant. */
  datatype Event = Reads(path: Path) | Enters(path: Path) | Refuses(path: Path) | Leaves(path: Path)

  function Find(subs: seq<Sub>, name: string): Option<Sub> {
    if subs == [] then None else if subs[0].name == name then Some(subs[0]) else Find(subs[1..], name)
  }

  function LinkItems(links: seq<Link>): seq<Item> {
    if links == [] then [] else [Item(links[0].name, 0, true)] + LinkItems(links[1..])
  }

  function FindLink(links: seq<Link>, name: string): Option<Link> {
    if links == [] then None else if links[0].name == name then Some(links[0]) else FindLink(links[1..], name)
  }

  /** The node shown of a folder below the given levels. */
  ghost predicate ShownAs(fs: Filesystem, hashes: seq<Md5.Hash>, id: int, levels: seq<Level>, n: Node) {
    Digests(fs, hashes) && Walked(levels) && Known(levels, hashes) && n == Enter(fs, id, levels, hashes)
  }

  /** The way from the root to a folder: what is shown of each directory on it, below the levels above it. */
  ghost predicate Position(fs: Filesystem, hashes: seq<Md5.Hash>, ids: seq<int>, cwd: Path, levels: seq<Level>,
                           here: Node, above: seq<Node>) {
    && SortedListings(fs) && Digests(fs, hashes)
    && |ids| == |cwd| + 1 && |above| == |cwd| && |cwd| <= |levels| <= |cwd| + 1
    && (forall i :: 0 <= i < |above| ==> Step(fs, hashes, ids, levels, above, i))
    && ShownAs(fs, hashes, ids[|cwd|], levels[..|cwd|], here)
    && (|levels| > |cwd| && here.subs != [] ==> levels[|cwd|] == LevelOf(FolderAt(fs, ids[|cwd|])))
  }

  ghost predicate Step(fs: Filesystem, hashes: seq<Md5.Hash>, ids: seq<int>, levels: seq<Level>, above: seq<Node>,
                       i: nat)
    requires i < |above| && i < |ids| && i < |levels|
  {
    ShownAs(fs, hashes, ids[i], levels[..i], above[i]) && levels[i] == LevelOf(FolderAt(fs, ids[i]))
  }

  lemma {:induction false} PositionRead(fs: Filesystem, hashes: seq<Md5.Hash>, ids: seq<int>, cwd: Path,
                                        levels: seq<Level>, here: Node, above: seq<Node>, level: Level)
    requires Position(fs, hashes, ids, cwd, levels, here, above) && |levels| == |cwd|
    requires here.subs != [] ==> level == LevelOf(FolderAt(fs, ids[|cwd|]))
    ensures Position(fs, hashes, ids, cwd, levels + [level], here, above)
  {
    hide ShownAs, LevelOf;
    var levels' := levels + [level];
    assert forall i :: 0 <= i <= |cwd| ==> levels'[..i] == levels[..i];
    forall i | 0 <= i < |above|
      ensures Step(fs, hashes, ids, levels', above, i)
    {
      assert Step(fs, hashes, ids, levels, above, i);
    }
  }

  lemma {:induction false} PositionDown(fs: Filesystem, hashes: seq<Md5.Hash>, ids: seq<int>, cwd: Path,
                                        levels: seq<Level>, here: Node, above: seq<Node>, name: string)
    requires Position(fs, hashes, ids, cwd, levels, here, above) && |levels| == |cwd| + 1 && Find(here.subs, name).Some?
    ensures var link, sub := FindLink(FolderAt(fs, ids[|cwd|]).links, name), Find(here.subs, name).value;
            && link.Some? && link.value.entered == sub.entered && Proper(sub.node)
            && Position(fs, hashes, ids + [link.value.target], cwd + [name], levels, sub.node, above + [here])
  {
    hide ShownAs, LevelOf, Proper;
    var n := |cwd|;
    ShownLink(fs, hashes, ids[n], levels[..n], here, name);
    assert levels == levels[..n] + [LevelOf(FolderAt(fs, ids[n]))];
    var ids', above' := ids + [FindLink(FolderAt(fs, ids[n]).links, name).value.target], above + [here];
    forall i | 0 <= i < |above'|
      ensures Step(fs, hashes, ids', levels, above', i)
    {
      if i < n {
        assert Step(fs, hashes, ids, levels, above, i);
      }
    }
    assert levels[..n + 1] == levels;
  }

  lemma {:induction false} PositionUp(fs: Filesystem, hashes: seq<Md5.Hash>, ids: seq<int>, cwd: Path,
                                      levels: seq<Level>, here: Node, above: seq<Node>)
    requires Position(fs, hashes, ids, cwd, levels, here, above) && cwd != []
    ensures var m := |cwd| - 1; Position(fs, hashes, ids[..m + 1], cwd[..m], levels[..m + 1], above[m], above[..m])
  {
    hide ShownAs, LevelOf;
    var m := |cwd| - 1;
    assert Step(fs, hashes, ids, levels, above, m);
    assert forall i :: 0 <= i <= m ==> levels[..m + 1][..i] == levels[..i];
    var ids', levels', above' := ids[..m + 1], levels[..m + 1], above[..m];
    forall i | 0 <= i < |above'|
      ensures Step(fs, hashes, ids', levels', above', i)
    {
      assert Step(fs, hashes, ids, levels, above, i);
    }
  }

  /** A walker of a share that does not change, in which links may lead back up: the folders from the
      root to the current one, and everything it was asked for. `levels` is what the program keeps in
      the dentries on that way, the digest and the count of each listing that was read. As the walk
      sees it, the share is a tree: `here` is the current directory in it, `above` are those on the way. */
  class Walker {
    const fs: Filesystem
    var ids: seq<int>
    var cwd: Path
    var log: seq<Event>
    var levels: seq<Level>
    ghost const hashes: seq<Md5.Hash>
    ghost var here: Node
    ghost var above: seq<Node>

    ghost predicate Valid()
      reads this
    {
      Position(fs, hashes, ids, cwd, levels, here, above) && forall i :: 0 <= i < |levels| ==> Reads(cwd[..i]) in log
    }

    /** The current directory was read, and not left since. */
    predicate Listed()
      reads this
    {
      |levels| == |cwd| + 1 && Reads(cwd) in log
    }

    /** The current directory was entered and not read since. */
    predicate Unread()
      reads this
    {
      |levels| == |cwd|
    }

    constructor (fs: Filesystem, root: int, ghost hashes: seq<Md5.Hash>)
      requires SortedListings(fs) && Digests(fs, hashes)
      ensures Valid() && Unread() && Proper(here) && here == Enter(fs, root, [], hashes)
      ensures cwd == [] && above == [] && log == []
    {
      this.fs, this.hashes := fs, hashes;
      ids, cwd, log, levels := [root], [], [], [];
      here, above := Enter(fs, root, [], hashes), [];
      EnterProper(fs, root, [], hashes);
    }

    /** All readdir calls for one directory, up to the one that returns nothing. */
    method ReadDir() returns (items: seq<Item>)
      requires Valid() && Unread()
      modifies this`log
      ensures Valid() && |ids| > |cwd|
      ensures multiset(items) == multiset(LinkItems(FolderAt(fs, ids[|cwd|]).links)
                                 + ItemsOfFiles(FolderAt(fs, ids[|cwd|]).files))
      ensures log == old(log) + [Reads(cwd)]
    {
      log := log + [Reads(cwd)];
      var folder := FolderAt(fs, ids[|cwd|]);
      items := LinkItems(folder.links) + ItemsOfFiles(folder.files);
    }

    /** The dentry of the current directory gets the digest and the count of its listing. */
    method Keep(level: Level)
      requires Valid() && Unread() && Reads(cwd) in log
      requires here.subs != [] ==> level == LevelOf(FolderAt(fs, ids[|cwd|]))
      modifies this`levels
      ensures Valid() && Listed()
    {
      hide Position;
      PositionRead(fs, hashes, ids, cwd, levels, here, above, level);
      PositionSizes(fs, hashes, ids, cwd, levels, here, above);
      levels := levels + [level];
      assert cwd[..|cwd|] == cwd;
    }

    /** go(DT_GO_CHILD): only where the listing was read, and for a name in it. */
    method GoChild(name: string) returns (ok: bool)
      requires Valid() && Listed() && Find(here.subs, name).Some?
      modifies this
      ensures Valid()
      ensures var sub := Find(old(here).subs, name).value;
              && ok == sub.entered
              && if ok then Unread() && Proper(here) && here == sub.node && above == old(above) + [old(here)]
                            && cwd == old(cwd) + [name] && log == old(log) + [Enters(cwd)]
                 else Listed() && here == old(here) && above == old(above) && cwd == old(cwd)
                      && log == old(log) + [Refuses(cwd + [name])]
    {
      hide Position, Proper;
      PositionSizes(fs, hashes, ids, cwd, levels, here, above);
      PositionDown(fs, hashes, ids, cwd, levels, here, above, name);
      var link := FindLink(FolderAt(fs, ids[|cwd|]).links, name).value;
      ok := link.entered;
      if ok {
        assert forall i :: 0 <= i < |levels| ==> (cwd + [name])[..i] == cwd[..i];
        ids, above := ids + [link.target], above + [here];
        here := Find(here.subs, name).value.node;
        cwd := cwd + [name];
        log := log + [Enters(cwd)];
      } else {
        log := log + [Refuses(cwd + [name])];
      }
    }

    /** go(DT_GO_PARENT): never at the root of the share. */
    method GoParent()
      requires Valid() && cwd != []
      modifies this
      ensures Valid() && Listed()
      ensures here == old(above)[|old(above)| - 1] && above == old(above)[..|old(above)| - 1]
      ensures cwd == old(cwd)[..|old(cwd)| - 1] && log == old(log) + [Leaves(old(cwd))]
    {
      hide Position;
      PositionSizes(fs, hashes, ids, cwd, levels, here, above);
      PositionUp(fs, hashes, ids, cwd, levels, here, above);
      var m := |cwd| - 1;
      assert forall i :: 0 <= i <= m ==> cwd[..m][..i] == cwd[..i];
      log := log + [Leaves(cwd)];
      levels, ids, cwd := levels[..m + 1], ids[..m + 1], cwd[..m];
      here, above := above[m], above[..m];
    }
  }

  lemma PositionSizes(fs: Filesystem, hashes: seq<Md5.Hash>, ids: seq<int>, cwd: Path, levels: seq<Level>, here: Node,
                      above: seq<Node>)
    requires Position(fs, hashes, ids, cwd, levels, here, above)
    ensures |ids| == |cwd| + 1 && |above| == |cwd| && |cwd| <= |levels| <= |cwd| + 1
  {
  }

  /** A name found in what is shown is the name of a link, which leads to what is shown under it. */
  lemma {:induction false} ShownLink(fs: Filesystem, hashes: seq<Md5.Hash>, id: int, levels: seq<Level>, n: Node,
                                     name: string)
    requires ShownAs(fs, hashes, id, levels, n) && SortedListings(fs) && Find(n.subs, name).Some?
    ensures var folder := FolderAt(fs, id);
            var link, sub := FindLink(folder.links, name), Find(n.subs, name).value;
            && link.Some? && link.value.entered == sub.entered && Proper(sub.node)
            && ShownAs(fs, hashes, link.value.target, levels + [LevelOf(folder)], sub.node)
  {
    hide LevelOf, Proper;
    var folder := FolderAt(fs, id);
    assert n.subs != [];
    EnterPasses(fs, id, levels, hashes);
    FindShown(fs, folder.links, levels + [LevelOf(folder)], hashes, name);
  }

  lemma {:induction false} FindShown(fs: Filesystem, links: seq<Link>, levels: seq<Level>, hashes: seq<Md5.Hash>,
                                     name: string)
    requires Digests(fs, hashes) && SortedListings(fs) && Walked(levels) && Known(levels, hashes)
    ensures var link, sub := FindLink(links, name), Find(EnterLinks(fs, links, levels, hashes), name);
            && (link.Some? <==> sub.Some?)
            && (link.Some? ==> sub.value.entered == link.value.entered && Proper(sub.value.node)
                               && sub.value.node == Enter(fs, link.value.target, levels, hashes))
    decreases |links|
  {
    hide Enter, Digests, SortedListings, Walked, Known, Proper;
    if links != [] {
      var subs := EnterLinks(fs, links, levels, hashes);
      assert subs[1..] == EnterLinks(fs, links[1..], levels, hashes);
      EnterProper(fs, links[0].target, levels, hashes);
      FindShown(fs, links[1..], levels, hashes, name);
    }
  }

  lemma {:induction false} FindAt(subs: seq<Sub>, k: nat)
    requires k < |subs| && Sorted(SubNames(subs))
    ensures Find(subs, subs[k].name) == Some(subs[k])
    decreases |subs|
  {
    var names := SubNames(subs);
    if k > 0 {
      assert Less(names[0], names[k]);
      Trichotomy(names[0], names[k]);
      assert forall i :: 0 <= i < |subs| - 1 ==> SubNames(subs[1..])[i] == names[i + 1];
      FindAt(subs[1..], k - 1);
    }
  }

  // ---------------------------------------------------------------- dt_list_sort

  function Insert(p: Plain, s: seq<Plain>): seq<Plain> {
    if s == [] || !Less(s[0].name, p.name) then [p] + s else [s[0]] + Insert(p, s[1..])
  }

  /** What qsort has to deliver. */
  function SortByName(s: seq<Plain>): seq<Plain> {
    if s == [] then [] else Insert(s[0], SortByName(s[1..]))
  }

  ghost predicate Ordered(s: seq<Plain>) {
    forall i, j :: 0 <= i < j < |s| ==> !Less(s[j].name, s[i].name)
  }

  lemma {:induction false} InsertAdds(p: Plain, s: seq<Plain>)
    ensures multiset(Insert(p, s)) == multiset{p} + multiset(s)
    decreases |s|
  {
    if s != [] && Less(s[0].name, p.name) {
      InsertAdds(p, s[1..]);
      assert s == [s[0]] + s[1..];
    }
  }

  lemma {:induction false} InsertOrdered(p: Plain, s: seq<Plain>)
    requires Ordered(s)
    ensures Ordered(Insert(p, s))
    decreases |s|
  {
    hide Compare;
    if s == [] || !Less(s[0].name, p.name) {
      forall j | 0 <= j < |s|
        ensures !Less(s[j].name, p.name)
      {
        NotBelow(s, j, p);
      }
      PutFirst(p, s);
    } else {
      var rest := Insert(p, s[1..]);
      InsertOrdered(p, s[1..]);
      InsertAdds(p, s[1..]);
      Trichotomy(s[0].name, p.name);
      forall j | 0 <= j < |rest|
        ensures !Less(rest[j].name, s[0].name)
      {
        assert rest[j] in multiset(rest);
        if rest[j] != p {
          assert rest[j] in s[1..];
          var k :| 0 <= k < |s[1..]| && s[1..][k] == rest[j];
          assert s[k + 1] == rest[j];
        }
      }
      PutFirst(s[0], rest);
    }
  }

  lemma {:induction false} PutFirst(p: Plain, s: seq<Plain>)
    requires Ordered(s) && forall j :: 0 <= j < |s| ==> !Less(s[j].name, p.name)
    ensures Ordered([p] + s)
  {
    hide Less;
  }

  lemma {:induction false} NotBelow(s: seq<Plain>, j: nat, p: Plain)
    requires Ordered(s) && j < |s| && !Less(s[0].name, p.name)
    ensures !Less(s[j].name, p.name)
  {
    if j > 0 && Less(s[j].name, p.name) {
      Trichotomy(s[0].name, p.name);
      Trichotomy(s[0].name, s[j].name);
      if s[0].name != p.name {
        LessTransitive(s[j].name, p.name, s[0].name);
      }
    }
  }

  lemma {:induction false} SortOrdered(s: seq<Plain>)
    ensures Ordered(SortByName(s)) && multiset(SortByName(s)) == multiset(s)
    decreases |s|
  {
    if s != [] {
      SortOrdered(s[1..]);
      InsertOrdered(s[0], SortByName(s[1..]));
      InsertAdds(s[0], SortByName(s[1..]));
      assert s == [s[0]] + s[1..];
    }
  }

  /** Entries with distinct names have one sorted order only. */
  lemma {:induction false} OrderedUnique(a: seq<Plain>, b: seq<Plain>)
    requires Ordered(a) && Sorted(PlainNames(b)) && multiset(a) == multiset(b)
    ensures a == b
    decreases |a|
  {
    assert |a| == |multiset(a)| == |multiset(b)| == |b|;
    if a != [] {
      FirstsAgree(a, b);
      MultisetTail(a);
      MultisetTail(b);
      PlainNamesTail(b);
      OrderedUnique(a[1..], b[1..]);
      assert a == [a[0]] + a[1..] && b == [b[0]] + b[1..];
    }
  }

  lemma {:induction false} FirstsAgree(a: seq<Plain>, b: seq<Plain>)
    requires Ordered(a) && Sorted(PlainNames(b)) && multiset(a) == multiset(b) && a != [] && b != []
    ensures a[0] == b[0]
  {
    assert a[0] in multiset(b) && b[0] in multiset(a);
    var i :| 0 <= i < |b| && b[i] == a[0];
    var j :| 0 <= j < |a| && a[j] == b[0];
    Trichotomy(a[0].name, a[0].name);
    assert !Less(a[j].name, a[0].name);
    FirstLeast(b, i);
  }

  lemma {:induction false} FirstLeast(b: seq<Plain>, i: nat)
    requires Sorted(PlainNames(b)) && i < |b|
    ensures i == 0 || Less(b[0].name, b[i].name)
  {
    if i > 0 {
      assert Less(PlainNames(b)[0], PlainNames(b)[i]);
    }
  }

  lemma {:induction false} PlainNamesTail(b: seq<Plain>)
    requires Sorted(PlainNames(b)) && b != []
    ensures Sorted(PlainNames(b[1..]))
  {
    assert forall k :: 0 <= k < |b| - 1 ==> PlainNames(b[1..])[k] == PlainNames(b)[k + 1];
  }

  lemma {:induction false} MultisetTail(s: seq<Plain>)
    requires s != []
    ensures multiset(s[1..]) == multiset(s) - multiset{s[0]}
  {
    assert s == [s[0]] + s[1..];
  }

  /** Subdirectories as a listing leaves them: numbered, with nothing in them yet. */
  function Blanks(subs: seq<Sub>, id: nat, fid: nat): seq<Dir> {
    if subs == [] then [] else [Listed(subs[0].name, id, fid, [], [])] + Blanks(subs[1..], id + 1, fid + 1)
  }

  lemma {:induction false} BlanksAt(subs: seq<Sub>, id: nat, fid: nat)
    ensures |Blanks(subs, id, fid)| == |subs|
    ensures forall i :: 0 <= i < |subs| ==> Blanks(subs, id, fid)[i] == Listed(subs[i].name, id + i, fid + i, [], [])
    decreases |subs|
  {
    if subs != [] {
      BlanksAt(subs[1..], id + 1, fid + 1);
    }
  }

  /** dt_list_sort on directories: sorted by name, positions from 0 on, ids from `id` on (or 0 when
      the ids are decided later). Of several directories with one name only one is kept. */
  method ListSortDirs(raw: seq<Plain>, id: Option<nat>) returns (dirs: seq<Dir>)
    ensures Sorted(DirNames(dirs)) && forall name :: name in DirNames(dirs) <==> name in PlainNames(raw)
    ensures forall i, j :: 0 <= i < j < |dirs| ==> Earlier(dirs[i].name, dirs[j].name)
    ensures forall k :: 0 <= k < |dirs|
                        ==> dirs[k] == Listed(dirs[k].name, if id.Some? then id.value + k else 0, k, [], [])
  {
    SortOrdered(raw);
    var da := SortByName(raw);
    SameNames(da, raw);
    dirs := [];
    var i := 0;
    while i < |da|
      invariant i <= |da| && (dirs == [] <==> i == 0) && Sorted(DirNames(dirs))
      invariant i > 0 ==> dirs[|dirs| - 1].name == da[i - 1].name
      invariant forall name :: name in DirNames(dirs) <==> name in PlainNames(da[..i])
      invariant forall k :: 0 <= k < |dirs|
                            ==> dirs[k] == Listed(dirs[k].name, if id.Some? then id.value + k else 0, k, [], [])
    {
      NamesSnoc(da, i);
      if dirs == [] || dirs[|dirs| - 1].name != da[i].name {
        var d := Listed(da[i].name, if id.Some? then id.value + |dirs| else 0, |dirs|, [], []);
        if dirs != [] {
          Trichotomy(da[i - 1].name, da[i].name);
        }
        SortedSnoc(dirs, d);
        dirs := dirs + [d];
      } else {
        var k := |dirs| - 1;
        assert DirNames(dirs)[k] == da[i].name;
      }
      i := i + 1;
    }
    assert da[..i] == da;
    SortedEarlier(dirs);
  }

  lemma {:induction false} SortedEarlier(dirs: seq<Dir>)
    requires Sorted(DirNames(dirs))
    ensures forall i, j :: 0 <= i < j < |dirs| ==> Earlier(dirs[i].name, dirs[j].name)
  {
    forall i, j | 0 <= i < j < |dirs|
      ensures Earlier(dirs[i].name, dirs[j].name)
    {
      assert Less(DirNames(dirs)[i], DirNames(dirs)[j]);
      LessIsEarlier(dirs[i].name, dirs[j].name);
    }
  }

  lemma {:induction false} SortedSnoc(dirs: seq<Dir>, d: Dir)
    requires Sorted(DirNames(dirs)) && (dirs != [] ==> Less(dirs[|dirs| - 1].name, d.name))
    ensures Sorted(DirNames(dirs + [d])) && DirNames(dirs + [d]) == DirNames(dirs) + [d.name]
  {
    var names, n := DirNames(dirs), |dirs|;
    assert DirNames(dirs + [d]) == names + [d.name];
    forall i | 0 <= i < n
      ensures Less(names[i], d.name)
    {
      if i < n - 1 {
        assert Less(names[i], names[n - 1]);
        LessTransitive(names[i], names[n - 1], d.name);
      }
    }
  }

  lemma NamesSnoc(ps: seq<Plain>, i: nat)
    requires i < |ps|
    ensures PlainNames(ps[..i + 1]) == PlainNames(ps[..i]) + [ps[i].name]
  {
  }

  lemma {:induction false} SameNames(a: seq<Plain>, b: seq<Plain>)
    requires multiset(a) == multiset(b)
    ensures forall name :: name in PlainNames(a) <==> name in PlainNames(b)
  {
    NamesOver(a, b);
    NamesOver(b, a);
  }

  lemma {:induction false} NamesOver(a: seq<Plain>, b: seq<Plain>)
    requires multiset(a) == multiset(b)
    ensures forall name :: name in PlainNames(a) ==> name in PlainNames(b)
  {
    forall name | name in PlainNames(a)
      ensures name in PlainNames(b)
    {
      var i :| 0 <= i < |a| && PlainNames(a)[i] == name;
      assert a[i] in multiset(a);
      assert a[i] in b;
      var j :| 0 <= j < |b| && b[j] == a[i];
      assert PlainNames(b)[j] == name;
    }
  }

  /** There is one way to sort a set of names. */
  lemma {:induction false} SortedOnce(a: seq<string>, b: seq<string>)
    requires Sorted(a) && Sorted(b) && forall name :: name in a <==> name in b
    ensures a == b
    decreases |a|
  {
    if b != [] {
      assert b[0] in a;
    }
    if a != [] {
      assert a[0] in b;
      Least(a, b);
      Least(b, a);
      Trichotomy(a[0], b[0]);
      forall name
        ensures name in a[1..] <==> name in b[1..]
      {
        NotFirst(a, name);
        NotFirst(b, name);
      }
      SortedOnce(a[1..], b[1..]);
    }
  }

  lemma {:induction false} Least(a: seq<string>, b: seq<string>)
    requires Sorted(a) && a != [] && b != [] && forall name :: name in b ==> name in a
    ensures a[0] == b[0] || Less(a[0], b[0])
  {
    assert b[0] in a;
  }

  lemma {:induction false} NotFirst(a: seq<string>, name: string)
    requires Sorted(a) && a != []
    ensures name in a[1..] <==> name in a && name != a[0]
  {
    Trichotomy(name, name);
    forall i | 0 <= i < |a| && a[i] == name && name != a[0]
      ensures name in a[1..]
    {
      assert a[1..][i - 1] == name;
    }
  }

  /** dt_list_sort on files, whose positions follow those of the directories. Files of one name stay
      beside each other, in some order. */
  method ListSortFiles(raw: seq<Plain>, s: nat) returns (files: seq<File>, ghost da: seq<Plain>)
    ensures multiset(da) == multiset(raw) && Ordered(da) && files == Numbering(da, s)
    ensures |files| == |raw| == |da| && forall k :: 0 <= k < |files| ==> files[k] == File(da[k].name, s + k, da[k].size)
    ensures forall i, j :: 0 <= i < j < |files| ==> !Earlier(files[j].name, files[i].name)
  {
    SortOrdered(raw);
    var sorted := SortByName(raw);
    da := sorted;
    assert |da| == |multiset(da)| == |raw|;
    NumberingShape(da, s);
    forall i, j | 0 <= i < j < |da|
      ensures !Earlier(da[j].name, da[i].name)
    {
      LessIsEarlier(da[j].name, da[i].name);
    }
    files := [];
    var i := 0;
    while i < |sorted|
      invariant i == |files| <= |sorted|
      invariant forall k :: 0 <= k < i ==> files[k] == File(sorted[k].name, s + k, sorted[k].size)
    {
      files := files + [File(sorted[i].name, s + i, sorted[i].size)];
      i := i + 1;
    }
  }
}
