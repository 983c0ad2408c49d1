/** dt_readdir: the listing of the current directory, sorted, numbered, and checked against those above. */
module Readdir {
  import opened Names
  import opened Wrappers
  import opened Trees
  import opened Scan
  import opened Cycles
  import opened Walks
  import Md5

  // ---------------------------------------------------------------- the entries by kind

  function DirsAmong(items: seq<Item>): seq<Plain> {
    if items == [] then []
    else (if items[0].isDir then [Plain.Plain(items[0].name, items[0].size)] else []) + DirsAmong(items[1..])
  }

  function FilesAmong(items: seq<Item>): seq<Plain> {
    if items == [] then []
    else (if items[0].isDir then [] else [Plain.Plain(items[0].name, items[0].size)]) + FilesAmong(items[1..])
  }

  lemma {:induction false} DirsCount(items: seq<Item>, p: Plain)
    ensures multiset(DirsAmong(items))[p] == multiset(items)[Item(p.name, p.size, true)]
    decreases |items|
  {
    if items != [] {
      DirsCount(items[1..], p);
      assert items == [items[0]] + items[1..];
    }
  }

  lemma {:induction false} FilesCount(items: seq<Item>, p: Plain)
    ensures multiset(FilesAmong(items))[p] == multiset(items)[Item(p.name, p.size, false)]
    decreases |items|
  {
    if items != [] {
      FilesCount(items[1..], p);
      assert items == [items[0]] + items[1..];
    }
  }

  lemma {:induction false} AmongSame(a: seq<Item>, b: seq<Item>)
    requires multiset(a) == multiset(b)
    ensures multiset(DirsAmong(a)) == multiset(DirsAmong(b)) && multiset(FilesAmong(a)) == multiset(FilesAmong(b))
  {
    forall p: Plain
      ensures multiset(DirsAmong(a))[p] == multiset(DirsAmong(b))[p]
              && multiset(FilesAmong(a))[p] == multiset(FilesAmong(b))[p]
    {
      DirsCount(a, p);
      DirsCount(b, p);
      FilesCount(a, p);
      FilesCount(b, p);
    }
  }

  lemma {:induction false} DirsConcat(a: seq<Item>, b: seq<Item>)
    ensures DirsAmong(a + b) == DirsAmong(a) + DirsAmong(b)
    decreases |a|
  {
    if a == [] {
      assert a + b == b;
    } else {
      DirsConcat(a[1..], b);
      assert (a + b)[1..] == a[1..] + b && (a + b)[0] == a[0];
    }
  }

  lemma {:induction false} FilesConcat(a: seq<Item>, b: seq<Item>)
    ensures FilesAmong(a + b) == FilesAmong(a) + FilesAmong(b)
    decreases |a|
  {
    if a == [] {
      assert a + b == b;
    } else {
      FilesConcat(a[1..], b);
      assert (a + b)[1..] == a[1..] + b && (a + b)[0] == a[0];
    }
  }

  lemma {:induction false} AmongLinks(links: seq<Link>)
    ensures DirsAmong(LinkItems(links)) == LinkPlains(links) && FilesAmong(LinkItems(links)) == []
    decreases |links|
  {
    if links != [] {
      AmongLinks(links[1..]);
      assert LinkItems(links)[1..] == LinkItems(links[1..]);
    }
  }

  lemma {:induction false} AmongFiles(files: seq<Plain>)
    ensures DirsAmong(ItemsOfFiles(files)) == [] && FilesAmong(ItemsOfFiles(files)) == files
    decreases |files|
  {
    if files != [] {
      AmongFiles(files[1..]);
    }
  }

  lemma {:induction false} AmongListing(items: seq<Item>, folder: Folder)
    requires multiset(items) == multiset(LinkItems(folder.links) + ItemsOfFiles(folder.files))
    ensures multiset(DirsAmong(items)) == multiset(LinkPlains(folder.links))
            && multiset(FilesAmong(items)) == multiset(folder.files)
  {
    AmongSame(items, LinkItems(folder.links) + ItemsOfFiles(folder.files));
    DirsConcat(LinkItems(folder.links), ItemsOfFiles(folder.files));
    FilesConcat(LinkItems(folder.links), ItemsOfFiles(folder.files));
    AmongLinks(folder.links);
    AmongFiles(folder.files);
    assert LinkPlains(folder.links) + [] == LinkPlains(folder.links) && [] + folder.files == folder.files;
  }

  lemma {:induction false} AmongOne(item: Item)
    ensures DirsAmong([item]) == if item.isDir then [Plain.Plain(item.name, item.size)] else []
    ensures DirsAmong([]) == [] && FilesAmong([]) == []
    ensures FilesAmong([item]) == if item.isDir then [] else [Plain.Plain(item.name, item.size)]
  {
    assert [item][1..] == [];
  }

  lemma ProperSorted(n: Node)
    requires Proper(n)
    ensures Sorted(SubNames(n.subs)) && Sorted(PlainNames(n.files))
  {
  }

  /** dt_readdir, up to the sorting: the entries of the current directory, in whatever order they come,
      end up sorted by name and numbered, directories before files. */
  method ReadSorted(wk: Walker, id: Option<nat>) returns (dirs: seq<Dir>, files: seq<File>)
    requires wk.Valid() && wk.Unread()
    modifies wk`log
    ensures wk.Valid() && wk.log == old(wk.log) + [Reads(wk.cwd)] && |wk.ids| > |wk.cwd|
    ensures var folder := FolderAt(wk.fs, wk.ids[|wk.cwd|]);
            && SortedListing(dirs, LinkPlains(folder.links), id) && files == Numbering(folder.files, |dirs|)
  {
    hide DirsAmong, FilesAmong, Sorted, Ordered, LinkPlains;
    ghost var folder := FolderAt(wk.fs, wk.ids[|wk.cwd|]);
    FolderSorted(wk.fs, wk.ids[|wk.cwd|]);
    hide Walker.Valid;
    var items := wk.ReadDir();
    var ds, fs := Split(items);
    AmongListing(items, folder);
    dirs := ListSortDirs(ds, id);
    ghost var da;
    files, da := ListSortFiles(fs, |ds|);
    ListingsSorted(ds, fs, dirs, da, folder, id);
  }

  /** Entries of distinct names are sorted into the order that the folder lists them in. */
  lemma {:induction false} ListingsSorted(ds: seq<Plain>, fs: seq<Plain>, dirs: seq<Dir>, da: seq<Plain>,
                                          folder: Folder, id: Option<nat>)
    requires multiset(ds) == multiset(LinkPlains(folder.links)) && multiset(da) == multiset(folder.files)
    requires Ordered(da) && Sorted(PlainNames(LinkPlains(folder.links))) && Sorted(PlainNames(folder.files))
    requires Sorted(DirNames(dirs)) && forall name :: name in DirNames(dirs) <==> name in PlainNames(ds)
    requires forall k :: 0 <= k < |dirs|
                         ==> dirs[k] == Listed(dirs[k].name, if id.Some? then id.value + k else 0, k, [], [])
    ensures SortedListing(dirs, LinkPlains(folder.links), id) && da == folder.files && |ds| == |dirs|
  {
    hide Sorted, Ordered;
    var plains := LinkPlains(folder.links);
    SameNames(ds, plains);
    SortedOnce(DirNames(dirs), PlainNames(plains));
    LinkPlainsAt(folder.links);
    assert |ds| == |multiset(ds)| == |multiset(plains)| == |plains|;
    assert |dirs| == |DirNames(dirs)| == |plains|;
    forall k | 0 <= k < |dirs|
      ensures dirs[k].name == plains[k].name
    {
      assert DirNames(dirs)[k] == PlainNames(plains)[k];
    }
    OrderedUnique(da, folder.files);
  }

  /** The loop over readdir: each entry goes to the list of its kind. */
  method Split(items: seq<Item>) returns (ds: seq<Plain>, fs: seq<Plain>)
    ensures ds == DirsAmong(items) && fs == FilesAmong(items)
  {
    hide DirsAmong, FilesAmong;
    ds, fs := [], [];
    var i := 0;
    AmongOne(Item("", 0, true));
    assert items[..0] == [];
    while i < |items|
      invariant i <= |items| && ds == DirsAmong(items[..i]) && fs == FilesAmong(items[..i])
    {
      DirsConcat(items[..i], [items[i]]);
      FilesConcat(items[..i], [items[i]]);
      AmongOne(items[i]);
      assert items[..i + 1] == items[..i] + [items[i]];
      if items[i].isDir {
        ds := ds + [Plain.Plain(items[i].name, items[i].size)];
      } else {
        fs := fs + [Plain.Plain(items[i].name, items[i].size)];
      }
      i := i + 1;
    }
    assert items[..i] == items;
  }

  ghost predicate SortedListing(dirs: seq<Dir>, plains: seq<Plain>, id: Option<nat>) {
    && |dirs| == |plains|
    && forall k :: 0 <= k < |dirs| ==>
                     && plains[k].size == 0
                     && dirs[k] == Listed(plains[k].name, if id.Some? then id.value + k else 0, k, [], [])
  }

  lemma {:induction false} LinkPlainsAt(links: seq<Link>)
    ensures |LinkPlains(links)| == |links| && PlainNames(LinkPlains(links)) == LinkNames(links)
    ensures forall k :: 0 <= k < |links| ==> LinkPlains(links)[k] == Plain.Plain(links[k].name, 0)
    decreases |links|
  {
    if links != [] {
      LinkPlainsAt(links[1..]);
    }
  }

  lemma {:induction false} FolderSorted(fs: Filesystem, id: int)
    requires SortedListings(fs)
    ensures var folder := FolderAt(fs, id);
            && Sorted(PlainNames(LinkPlains(folder.links))) && Sorted(PlainNames(folder.files))
            && forall k :: 0 <= k < |LinkPlains(folder.links)| ==> LinkPlains(folder.links)[k].size == 0
  {
    LinkPlainsAt(FolderAt(fs, id).links);
  }

  // ---------------------------------------------------------------- the digest of a listing

  function DirPlains(dirs: seq<Dir>): seq<Plain> {
    seq(|dirs|, i requires 0 <= i < |dirs| => Plain.Plain(dirs[i].name, dirs[i].size))
  }

  function FilePlains(files: seq<File>): seq<Plain> {
    seq(|files|, i requires 0 <= i < |files| => Plain.Plain(files[i].name, files[i].size))
  }

  /** dt_umd5_update: name and closing zero, then the size. */
  method FeedEntry(ctx: Md5.Context, p: Plain)
    requires ctx.Valid()
    modifies ctx, ctx.block
    ensures ctx.Valid() && ctx.block == old(ctx.block) && ctx.fed == old(ctx.fed) + EntryBytes(p)
  {
    hide Md5.Context.Valid;
    ctx.Update(Md5.Bytes(p.name) + [0]);
    ctx.Update(Md5.InMemory(p.size, 8));
  }

  /** dt_list_call1 with dt_umd5_update */
  method FeedEntries(ctx: Md5.Context, ps: seq<Plain>)
    requires ctx.Valid()
    modifies ctx, ctx.block
    ensures ctx.Valid() && ctx.block == old(ctx.block) && ctx.fed == old(ctx.fed) + EntriesBytes(ps)
  {
    hide Md5.Context.Valid, EntryBytes;
    var i := 0;
    assert ps[..0] == [];
    while i < |ps|
      invariant i <= |ps| && ctx.Valid() && ctx.block == old(ctx.block)
      invariant ctx.fed == old(ctx.fed) + EntriesBytes(ps[..i])
    {
      FeedEntry(ctx, ps[i]);
      EntriesNext(ps, i);
      i := i + 1;
    }
    assert ps[..i] == ps;
  }

  lemma {:induction false} EntriesNext(ps: seq<Plain>, i: nat)
    requires i < |ps|
    ensures EntriesBytes(ps[..i + 1]) == EntriesBytes(ps[..i]) + EntryBytes(ps[i])
  {
    assert ps[..i + 1][..i] == ps[..i];
  }

  /** The first half of dt_recursive_link: the digest of the sorted listing. */
  method ListingHash(dirs: seq<Dir>, files: seq<File>) returns (hash: Md5.Hash)
    ensures hash == Md5.Digest(EntriesBytes(DirPlains(dirs)) + EntriesBytes(FilePlains(files)))
  {
    hide Md5.Context.Valid, Md5.Digest;
    var ctx := new Md5.Context();
    FeedEntries(ctx, DirPlains(dirs));
    FeedEntries(ctx, FilePlains(files));
    ghost var message := ctx.fed;
    assert [] + EntriesBytes(DirPlains(dirs)) == EntriesBytes(DirPlains(dirs));
    ctx.Finish();
    hash := ctx.Value(message);
  }

  /** What the walk sees of a directory: its listing, or nothing if that repeats the listings above. */
  lemma {:induction false} ShownHere(fs: Filesystem, hashes: seq<Md5.Hash>, id: int, levels: seq<Level>, n: Node)
    requires ShownAs(fs, hashes, id, levels, n)
    ensures var folder := FolderAt(fs, id);
            if LevelOf(folder).items == 0 || Recursive(levels + [LevelOf(folder)]) then n == Node([], [])
            else
              && id in fs && n.files == folder.files && |n.subs| == |folder.links|
              && forall k :: 0 <= k < |n.subs| ==> n.subs[k].name == folder.links[k].name
  {
    hide LevelOf, Recursive;
    var folder := FolderAt(fs, id);
    if LevelOf(folder).items != 0 && !Recursive(levels + [LevelOf(folder)]) {
      EnterPasses(fs, id, levels, hashes);
      EnterLinksShow(fs, folder.links, levels + [LevelOf(folder)], hashes);
    }
  }

  /** The recursion check at the end of dt_readdir: a directory that looks like a link to one above it
      loses its listing. */
  method CheckLink(wk: Walker, dirs: seq<Dir>, files: seq<File>, ghost id: Option<nat>) returns (found: bool)
    requires wk.Valid() && wk.Unread() && Reads(wk.cwd) in wk.log && |wk.ids| > |wk.cwd|
    requires var folder := FolderAt(wk.fs, wk.ids[|wk.cwd|]);
             SortedListing(dirs, LinkPlains(folder.links), id) && files == Numbering(folder.files, |dirs|)
    modifies wk`levels
    ensures wk.Valid() && wk.Listed()
    ensures var n := wk.here;
            if found then n == Node([], [])
            else
              && files == Numbering(n.files, |dirs|) && |dirs| == |n.subs|
              && forall k :: 0 <= k < |dirs|
                             ==> dirs[k] == Listed(n.subs[k].name, if id.Some? then id.value + k else 0, k, [], [])
  {
    hide Walker.Valid, LevelOf, Recursive, SortedListing, EntriesBytes, LinkPlains, DirPlains, FilePlains, FolderAt,
      Numbering, Md5.Digest;
    var hash := ListingHash(dirs, files);
    ListingShown(wk, dirs, files, id, hash);
    found := RecursiveLink(wk.levels + [Level(hash, |dirs| + |files|)]);
    wk.Keep(Level(hash, if found then 0 else |dirs| + |files|));
  }

  lemma {:induction false} HereShown(wk: Walker)
    requires wk.Valid() && wk.Unread()
    ensures |wk.ids| > |wk.cwd| && ShownAs(wk.fs, wk.hashes, wk.ids[|wk.cwd|], wk.levels, wk.here)
  {
    hide ShownAs;
    assert wk.levels[..|wk.cwd|] == wk.levels;
  }

  /** What the listing has to do with what is shown of the directory. */
  lemma {:induction false} ListingShown(wk: Walker, dirs: seq<Dir>, files: seq<File>, id: Option<nat>, hash: Md5.Hash)
    requires wk.Valid() && wk.Unread()
    requires var folder := FolderAt(wk.fs, wk.ids[|wk.cwd|]);
             SortedListing(dirs, LinkPlains(folder.links), id) && files == Numbering(folder.files, |dirs|)
    requires hash == Md5.Digest(EntriesBytes(DirPlains(dirs)) + EntriesBytes(FilePlains(files)))
    ensures var level, n := Level(hash, |dirs| + |files|), wk.here;
            && level == LevelOf(FolderAt(wk.fs, wk.ids[|wk.cwd|]))
            && if Recursive(wk.levels + [level]) then n == Node([], [])
               else
                 && files == Numbering(n.files, |dirs|) && |dirs| == |n.subs|
                 && forall k :: 0 <= k < |dirs|
                                ==> dirs[k] == Listed(n.subs[k].name, if id.Some? then id.value + k else 0, k, [], [])
  {
    hide Walker.Valid, LevelOf, Recursive, ShownAs, SortedListing, EntriesBytes, DirPlains, FilePlains, Md5.Digest;
    hide FolderAt, Numbering, LinkPlains;
    HereShown(wk);
    ShownHere(wk.fs, wk.hashes, wk.ids[|wk.cwd|], wk.levels, wk.here);
    LevelIs(FolderAt(wk.fs, wk.ids[|wk.cwd|]), dirs, files, id, hash);
  }

  /** dt_readdir: the listing sorted and numbered, or, when the directory looks like a link to one above
      it, nothing. That is what the walk sees of the directory. */
  method ReadDir(wk: Walker, id: Option<nat>) returns (dirs: seq<Dir>, files: seq<File>)
    requires wk.Valid() && wk.Unread()
    modifies wk`log, wk`levels
    ensures wk.Valid() && wk.Listed() && wk.log == old(wk.log) + [Reads(wk.cwd)]
    ensures |dirs| == |wk.here.subs|
    ensures id.Some? ==> dirs == Blanks(wk.here.subs, id.value, 0)
    ensures id.None? ==> forall i :: 0 <= i < |dirs| ==> dirs[i] == Listed(wk.here.subs[i].name, 0, i, [], [])
    ensures files == Numbering(wk.here.files, |wk.here.subs|)
  {
    hide Walker.Valid;
    dirs, files := ReadSorted(wk, id);
    var found := CheckLink(wk, dirs, files, id);
    if found {
      dirs, files := [], [];
    }
    if id.Some? {
      BlanksAre(dirs, wk.here.subs, id.value);
    }
  }

  lemma {:induction false} BlanksAre(dirs: seq<Dir>, subs: seq<Sub>, id: nat)
    requires |dirs| == |subs| && forall k :: 0 <= k < |dirs| ==> dirs[k] == Listed(subs[k].name, id + k, k, [], [])
    ensures dirs == Blanks(subs, id, 0)
  {
    BlanksAt(subs, id, 0);
  }

  lemma {:induction false} LevelIs(folder: Folder, dirs: seq<Dir>, files: seq<File>, id: Option<nat>, hash: Md5.Hash)
    requires SortedListing(dirs, LinkPlains(folder.links), id) && files == Numbering(folder.files, |dirs|)
    requires hash == Md5.Digest(EntriesBytes(DirPlains(dirs)) + EntriesBytes(FilePlains(files)))
    ensures Level(hash, |dirs| + |files|) == LevelOf(folder)
    ensures |dirs| == |folder.links| && |files| == |folder.files|
    ensures forall k :: 0 <= k < |dirs|
                        ==> dirs[k] == Listed(folder.links[k].name, if id.Some? then id.value + k else 0, k, [], [])
  {
    hide Md5.Digest;
    LinkPlainsAt(folder.links);
    NumberingShape(folder.files, |dirs|);
    assert DirPlains(dirs) == LinkPlains(folder.links);
    assert FilePlains(files) == folder.files;
  }
}
