/** Filesystems in which links lead back up: the recursion check of a scan bounds the depth of the
    walk, so that the walk ends and sees a finite tree. */
module Cycles {
  import opened Names
  import opened Scan
  import Md5
  import Basics

  /** Matching items that make the walk assume a recursive link. */
  const THRESHOLD := 5

  /** A directory on the way from the root to the current one: the digest of its listing, and the
      number of its entries. */
  datatype Level = Level(hash: Md5.Hash, items: nat)

  /** Comparing listings upwards from positions `i` and `j`, with `m` items matched so far. */
  predicate Matches(levels: seq<Level>, i: int, j: int, m: nat)
    requires j < i < |levels|
    decreases if j < 0 then 0 else j + 1
  {
    j >= 0 && levels[i].hash == levels[j].hash
    && (m + levels[i].items >= THRESHOLD || Matches(levels, i - 1, j - 1, m + levels[i].items))
  }

  predicate LinksTo(levels: seq<Level>, j: int)
    requires j < |levels| - 1
  {
    Matches(levels, |levels| - 1, j, 0)
  }

  /** The last directory looks like a link to one above it. */
  ghost predicate Recursive(levels: seq<Level>) {
    exists j :: 0 <= j < |levels| - 1 && LinksTo(levels, j)
  }

  /** dt_recursive_link: two nested walks up the parents. */
  method RecursiveLink(levels: seq<Level>) returns (found: bool)
    requires levels != []
    ensures found <==> Recursive(levels)
  {
    var dp := |levels| - 2;
    while dp >= 0
      invariant -1 <= dp <= |levels| - 2
      invariant forall j :: dp < j < |levels| - 1 ==> !LinksTo(levels, j)
    {
      var ds, dps := |levels| - 1, dp;
      var m: nat := 0;
      while dps >= 0 && levels[ds].hash == levels[dps].hash
        invariant -1 <= dps < ds < |levels| && ds - dps == |levels| - 1 - dp
        invariant LinksTo(levels, dp) == Matches(levels, ds, dps, m)
        decreases dps
      {
        m := m + levels[ds].items;
        if m >= THRESHOLD {
          return true;
        }
        ds, dps := ds - 1, dps - 1;
      }
      dp := dp - 1;
    }
    found := false;
  }

  // ---------------------------------------------------------------- what counts as a link upwards

  function ItemsOf(levels: seq<Level>): nat {
    if levels == [] then 0 else levels[0].items + ItemsOf(levels[1..])
  }

  lemma {:induction false} ItemsOfSums(level: Level, a: seq<Level>, b: seq<Level>)
    ensures ItemsOf([]) == 0 && ItemsOf([level]) == level.items && ItemsOf(a + b) == ItemsOf(a) + ItemsOf(b)
    decreases |a|
  {
    assert [level][1..] == [];
    if a == [] {
      assert a + b == b;
    } else {
      assert (a + b)[1..] == a[1..] + b && (a + b)[0] == a[0];
      ItemsOfSums(level, a[1..], b);
    }
  }

  function HashesOf(levels: seq<Level>): seq<Md5.Hash> {
    seq(|levels|, i requires 0 <= i < |levels| => levels[i].hash)
  }

  /** The `n` listings that end at `i` are the `n` listings that end at `j`, one by one. */
  ghost predicate SameRun(levels: seq<Level>, i: int, j: int, n: int)
    requires 0 <= n <= j + 1 && j <= i < |levels|
  {
    HashesOf(levels)[i + 1 - n..i + 1] == HashesOf(levels)[j + 1 - n..j + 1]
  }

  /** The last `n` listings are those that end at `j`, above, and have five entries or more among them. */
  ghost predicate Repeats(levels: seq<Level>, j: int, n: int) {
    && 0 <= j < |levels| - 1 && 1 <= n <= j + 1
    && SameRun(levels, |levels| - 1, j, n) && ItemsOf(levels[|levels| - n..]) >= 5
  }

  /** A directory is taken for a link upwards exactly if it ends such a repetition. */
  lemma {:induction false} RecursiveIsRepeats(levels: seq<Level>)
    requires levels != []
    ensures Recursive(levels) <==> exists j, n :: Repeats(levels, j, n)
  {
    hide SameRun, ItemsOf, Matches;
    var last := |levels| - 1;
    if Recursive(levels) {
      var j :| 0 <= j < last && LinksTo(levels, j);
      var n := MatchesSpan(levels, last, j, 0);
      assert levels[last + 1 - n..last + 1] == levels[|levels| - n..];
      assert Repeats(levels, j, n);
    }
    if exists j, n :: Repeats(levels, j, n) {
      var j, n :| Repeats(levels, j, n);
      assert levels[last + 1 - n..last + 1] == levels[|levels| - n..];
      SpanMatches(levels, last, j, 0, n);
      assert LinksTo(levels, j);
    }
  }

  /** One listing more at the lower end. */
  lemma {:induction false} SameRunNext(levels: seq<Level>, i: int, j: int, n: int)
    requires 1 <= n <= j + 1 && j < i < |levels|
    ensures SameRun(levels, i, j, n) <==>
            levels[i].hash == levels[j].hash && (n == 1 || SameRun(levels, i - 1, j - 1, n - 1))
    ensures ItemsOf(levels[i + 1 - n..i + 1]) == ItemsOf(levels[i + 1 - n..i]) + levels[i].items
    ensures n == 1 ==> ItemsOf(levels[i + 1 - n..i]) == 0
  {
    var h := HashesOf(levels);
    assert h[i + 1 - n..i + 1] == h[i + 1 - n..i] + [h[i]] && h[j + 1 - n..j + 1] == h[j + 1 - n..j] + [h[j]];
    Basics.SnocEqual(h[i + 1 - n..i], h[i], h[j + 1 - n..j], h[j]);
    assert n == 1 ==> h[i + 1 - n..i] == [] == h[j + 1 - n..j];
    assert levels[i + 1 - n..i + 1] == levels[i + 1 - n..i] + [levels[i]];
    ItemsOfSums(levels[i], levels[i + 1 - n..i], [levels[i]]);
    assert n == 1 ==> levels[i + 1 - n..i] == [];
  }

  lemma {:induction false} MatchesSpan(levels: seq<Level>, i: int, j: int, m: nat) returns (n: nat)
    requires j < i < |levels| && Matches(levels, i, j, m)
    ensures 1 <= n <= j + 1 && SameRun(levels, i, j, n) && m + ItemsOf(levels[i + 1 - n..i + 1]) >= 5
    decreases j + 1
  {
    hide SameRun, ItemsOf;
    if m + levels[i].items >= THRESHOLD {
      n := 1;
    } else {
      n := MatchesSpan(levels, i - 1, j - 1, m + levels[i].items);
      n := n + 1;
      assert i - 1 + 1 - (n - 1) == i + 1 - n && i - 1 + 1 == i;
    }
    SameRunNext(levels, i, j, n);
  }

  lemma {:induction false} SpanMatches(levels: seq<Level>, i: int, j: int, m: nat, n: int)
    requires 0 <= j < i < |levels| && 1 <= n <= j + 1
    requires SameRun(levels, i, j, n) && m + ItemsOf(levels[i + 1 - n..i + 1]) >= 5
    ensures Matches(levels, i, j, m)
    decreases n
  {
    hide SameRun, ItemsOf;
    SameRunNext(levels, i, j, n);
    if m + levels[i].items < THRESHOLD {
      assert i - 1 + 1 - (n - 1) == i + 1 - n && i - 1 + 1 == i;
      SpanMatches(levels, i - 1, j - 1, m + levels[i].items, n - 1);
    }
  }

  // ---------------------------------------------------------------- how deep a walk can get

  function UpTo(levels: seq<Level>, k: nat): seq<Level>
    requires k < |levels|
  {
    levels[..k + 1]
  }

  /** A way down on which every directory is non-empty and passed the check. */
  ghost predicate Walked(levels: seq<Level>) {
    && (forall k :: 0 <= k < |levels| ==> levels[k].items >= 1)
    && (forall k :: 0 <= k < |levels| ==> !Recursive(UpTo(levels, k)))
  }

  predicate SameAbove(levels: seq<Level>, a: int, b: int, d: int)
    requires 0 <= d <= a < |levels| && d <= b < |levels|
  {
    levels[a - d].hash == levels[b - d].hash
  }

  /** Five listings in a row that were met before, in the same order, would have been noticed. */
  lemma {:induction false} WindowsDiffer(levels: seq<Level>, a: nat, b: nat)
    requires Walked(levels) && THRESHOLD <= a + 1 && a < b < |levels|
    ensures exists d :: 0 <= d < THRESHOLD && !SameAbove(levels, a, b, d)
  {
    if forall d :: 0 <= d < THRESHOLD ==> SameAbove(levels, a, b, d) {
      var part := UpTo(levels, b);
      MatchRun(levels, b, a, 0, 0);
      MatchesPart(levels, part, b, a, 0);
      assert LinksTo(part, a);
    }
  }

  lemma {:induction false} MatchesPart(levels: seq<Level>, part: seq<Level>, i: int, j: int, m: nat)
    requires j < i < |part| <= |levels| && part == levels[..|part|]
    ensures Matches(levels, i, j, m) == Matches(part, i, j, m)
    decreases if j < 0 then 0 else j + 1
  {
    if j >= 0 {
      MatchesPart(levels, part, i - 1, j - 1, m + levels[i].items);
    }
  }

  lemma {:induction false} MatchRun(levels: seq<Level>, b: nat, a: nat, d: nat, m: nat)
    requires THRESHOLD <= a + 1 && a < b < |levels| && d < THRESHOLD && m >= d
    requires forall k :: 0 <= k < |levels| ==> levels[k].items >= 1
    requires forall e :: d <= e < THRESHOLD ==> SameAbove(levels, a, b, e)
    ensures Matches(levels, b - d, a - d, m)
    decreases THRESHOLD - d
  {
    assert SameAbove(levels, a, b, d);
    if m + levels[b - d].items < THRESHOLD {
      MatchRun(levels, b, a, d + 1, m + levels[b - d].items);
    }
  }

  // ---------------------------------------------------------------- counting windows

  function Place(h: Md5.Hash, hashes: seq<Md5.Hash>): (i: nat)
    requires h in hashes
    ensures i < |hashes| && hashes[i] == h
  {
    if hashes[0] == h then 0 else 1 + Place(h, hashes[1..])
  }

  /** The five listings that end at position `k`, read as a number in base |hashes|. */
  function Code(levels: seq<Level>, hashes: seq<Md5.Hash>, k: int, d: nat): nat
    requires d <= k + 1 && k < |levels| && forall i :: 0 <= i < |levels| ==> levels[i].hash in hashes
  {
    if d == 0 then 0 else Code(levels, hashes, k - 1, d - 1) * |hashes| + Place(levels[k].hash, hashes)
  }

  function Pow(q: nat, d: nat): nat {
    if d == 0 then 1 else Pow(q, d - 1) * q
  }

  lemma {:induction false} CodeBound(levels: seq<Level>, hashes: seq<Md5.Hash>, k: int, d: nat)
    requires d <= k + 1 && k < |levels| && forall i :: 0 <= i < |levels| ==> levels[i].hash in hashes
    ensures Code(levels, hashes, k, d) < Pow(|hashes|, d)
    decreases d
  {
    if d > 0 {
      CodeBound(levels, hashes, k - 1, d - 1);
      var x, p, q := Code(levels, hashes, k - 1, d - 1), Pow(|hashes|, d - 1), |hashes|;
      Basics.MulMonotone(x + 1, p, q);
      DigitBound(x, Place(levels[k].hash, hashes), q);
    }
  }

  lemma DigitBound(x: nat, r: nat, q: nat)
    requires r < q
    ensures x * q + r < (x + 1) * q
  {
  }

  lemma {:induction false} DigitsUnique(x: nat, r: nat, y: nat, s: nat, q: nat)
    requires r < q && s < q && x * q + r == y * q + s
    ensures x == y && r == s
  {
    if x < y {
      Basics.MulMonotone(x + 1, y, q);
    } else if y < x {
      Basics.MulMonotone(y + 1, x, q);
    }
  }

  lemma {:induction false} CodeUnique(levels: seq<Level>, hashes: seq<Md5.Hash>, a: int, b: int, d: nat)
    requires d <= a + 1 && a < |levels| && d <= b + 1 && b < |levels|
    requires forall i :: 0 <= i < |levels| ==> levels[i].hash in hashes
    requires Code(levels, hashes, a, d) == Code(levels, hashes, b, d)
    ensures forall e :: 0 <= e < d ==> SameAbove(levels, a, b, e)
    decreases d
  {
    if d > 0 {
      DigitsUnique(Code(levels, hashes, a - 1, d - 1), Place(levels[a].hash, hashes),
                   Code(levels, hashes, b - 1, d - 1), Place(levels[b].hash, hashes), |hashes|);
      CodeUnique(levels, hashes, a - 1, b - 1, d - 1);
      forall e | 0 <= e < d
        ensures SameAbove(levels, a, b, e)
      {
        if e > 0 {
          assert SameAbove(levels, a - 1, b - 1, e - 1);
        }
      }
    }
  }

  /** Different numbers below a bound are no more than the bound. */
  lemma {:induction false} Pigeonhole(s: seq<int>, n: nat)
    requires forall i :: 0 <= i < |s| ==> 0 <= s[i] < n
    requires forall i, j :: 0 <= i < j < |s| ==> s[i] != s[j]
    ensures |s| <= n
    decreases n
  {
    if s != [] {
      assert s[0] < n;
      if k :| 0 <= k < |s| && s[k] == n - 1 {
        Pigeonhole(s[..k] + s[k + 1..], n - 1);
      } else {
        Pigeonhole(s, n - 1);
      }
    }
  }

  lemma {:induction false} CodesDiffer(levels: seq<Level>, hashes: seq<Md5.Hash>, a: nat, b: nat)
    requires Walked(levels) && forall i :: 0 <= i < |levels| ==> levels[i].hash in hashes
    requires THRESHOLD <= a + 1 && a < b < |levels|
    ensures Code(levels, hashes, a, THRESHOLD) != Code(levels, hashes, b, THRESHOLD)
  {
    if Code(levels, hashes, a, THRESHOLD) == Code(levels, hashes, b, THRESHOLD) {
      CodeUnique(levels, hashes, a, b, THRESHOLD);
      WindowsDiffer(levels, a, b);
    }
  }

  /** On any way down through a filesystem whose listings have at most q different digests, fewer than
      q^5 + 5 directories are non-empty and pass the check. */
  lemma {:induction false} DepthBound(levels: seq<Level>, hashes: seq<Md5.Hash>)
    requires Walked(levels) && forall i :: 0 <= i < |levels| ==> levels[i].hash in hashes
    ensures |levels| < Pow(|hashes|, THRESHOLD) + THRESHOLD
  {
    hide Code, Pow, Walked;
    var w := THRESHOLD - 1;
    var n := |levels| - w;
    if n > 0 {
      var codes := seq(n, i requires 0 <= i < n => Code(levels, hashes, i + w, THRESHOLD));
      forall i | 0 <= i < n
        ensures 0 <= codes[i] < Pow(|hashes|, THRESHOLD)
      {
        CodeBound(levels, hashes, i + w, THRESHOLD);
      }
      forall i, j | 0 <= i < j < n
        ensures codes[i] != codes[j]
      {
        CodesDiffer(levels, hashes, i + w, j + w);
      }
      Pigeonhole(codes, Pow(|hashes|, THRESHOLD));
    }
  }

  // ---------------------------------------------------------------- the tree that a walk sees

  /** A directory of a filesystem that may lead back to itself: its subdirectories are other
      directories, by number. */
  datatype Folder = Folder(links: seq<Link>, files: seq<Plain>)
  datatype Link = Link(name: string, target: int, entered: bool)

  type Filesystem = map<int, Folder>

  /** What a listing shows; a directory that cannot be read shows nothing. */
  function FolderAt(fs: Filesystem, id: int): Folder {
    if id in fs then fs[id] else Folder([], [])
  }

  /** What dt_umd5_update feeds of an entry: its name with the closing zero, and its size. */
  function EntryBytes(p: Plain): seq<Md5.Byte> {
    Md5.Bytes(p.name) + [0] + Md5.InMemory(p.size, 8)
  }

  function EntriesBytes(ps: seq<Plain>): seq<Md5.Byte> {
    if ps == [] then [] else EntriesBytes(ps[..|ps| - 1]) + EntryBytes(ps[|ps| - 1])
  }

  /** Subdirectories are listed with size 0. */
  function LinkPlains(links: seq<Link>): seq<Plain> {
    if links == [] then [] else [Plain.Plain(links[0].name, 0)] + LinkPlains(links[1..])
  }

  function LevelOf(folder: Folder): Level {
    Level(Md5.Digest(EntriesBytes(LinkPlains(folder.links)) + EntriesBytes(folder.files)),
          |folder.links| + |folder.files|)
  }

  /** The different digests of a filesystem. */
  ghost predicate Digests(fs: Filesystem, hashes: seq<Md5.Hash>) {
    forall id :: id in fs ==> LevelOf(fs[id]).hash in hashes
  }

  ghost predicate Known(levels: seq<Level>, hashes: seq<Md5.Hash>) {
    forall i :: 0 <= i < |levels| ==> levels[i].hash in hashes
  }

  lemma {:induction false} WalkedOn(levels: seq<Level>, next: Level)
    requires Walked(levels) && next.items >= 1 && !Recursive(levels + [next])
    ensures Walked(levels + [next])
  {
    var longer := levels + [next];
    forall k | 0 <= k < |longer|
      ensures !Recursive(UpTo(longer, k))
    {
      if k < |levels| {
        assert UpTo(longer, k) == UpTo(levels, k);
      } else {
        assert UpTo(longer, k) == longer;
      }
    }
  }

  /** How much deeper than `above` a walk can get. */
  function Room(above: seq<Level>, hashes: seq<Md5.Hash>): int {
    Pow(|hashes|, THRESHOLD) + THRESHOLD - |above|
  }

  /** What a walk shows of a directory entered below `above`: nothing if it cannot be read or looks
      like a link upwards. That this is a finite tree is the termination of the walk. */
  ghost function Enter(fs: Filesystem, id: int, above: seq<Level>, hashes: seq<Md5.Hash>): Node
    requires Digests(fs, hashes) && Walked(above) && Known(above, hashes)
    decreases Room(above, hashes), 1, 0
  {
    hide Pow, Recursive;
    DepthBound(above, hashes);
    var folder := FolderAt(fs, id);
    var levels := above + [LevelOf(folder)];
    if LevelOf(folder).items == 0 || Recursive(levels) then Node([], [])
    else
      WalkedOn(above, LevelOf(folder));
      DepthBound(levels, hashes);
      Node(EnterLinks(fs, folder.links, levels, hashes), folder.files)
  }

  ghost function EnterLinks(fs: Filesystem, links: seq<Link>, above: seq<Level>, hashes: seq<Md5.Hash>): seq<Sub>
    requires Digests(fs, hashes) && Walked(above) && Known(above, hashes)
    decreases Room(above, hashes), 2, |links|
  {
    if links == [] then []
    else
      [Sub(links[0].name, links[0].entered, Enter(fs, links[0].target, above, hashes))]
      + EnterLinks(fs, links[1..], above, hashes)
  }

  lemma {:induction false} EnterLinksShow(fs: Filesystem, links: seq<Link>, above: seq<Level>, hashes: seq<Md5.Hash>)
    requires Digests(fs, hashes) && Walked(above) && Known(above, hashes)
    ensures var subs := EnterLinks(fs, links, above, hashes);
            && |subs| == |links|
            && forall i :: 0 <= i < |links| ==> subs[i].name == links[i].name && subs[i].entered == links[i].entered
    decreases |links|
  {
    hide Enter, Pow, LevelOf;
    if links != [] {
      EnterLinksShow(fs, links[1..], above, hashes);
      assert forall i :: 1 <= i < |links| ==> links[i] == links[1..][i - 1];
    }
  }

  function LinkNames(links: seq<Link>): seq<string> {
    seq(|links|, i requires 0 <= i < |links| => links[i].name)
  }

  /** Listings as the sort leaves them. */
  ghost predicate SortedListings(fs: Filesystem) {
    forall id :: id in fs ==>
                   && Sorted(LinkNames(fs[id].links)) && Sorted(PlainNames(fs[id].files))
                   && (forall i :: 0 <= i < |fs[id].links| ==> GoodName(fs[id].links[i].name))
                   && (forall i :: 0 <= i < |fs[id].files| ==> GoodName(fs[id].files[i].name))
  }

  /** What is shown of a directory that can be read and passes the check. */
  lemma {:induction false} EnterPasses(fs: Filesystem, id: int, above: seq<Level>, hashes: seq<Md5.Hash>)
    requires Digests(fs, hashes) && Walked(above) && Known(above, hashes)
    requires LevelOf(FolderAt(fs, id)).items != 0 && !Recursive(above + [LevelOf(FolderAt(fs, id))])
    ensures id in fs
    ensures var levels := above + [LevelOf(fs[id])];
            && Walked(levels) && Known(levels, hashes)
            && Enter(fs, id, above, hashes) == Node(EnterLinks(fs, fs[id].links, levels, hashes), fs[id].files)
  {
    WalkedOn(above, LevelOf(FolderAt(fs, id)));
  }

  /** A walk of any filesystem, cyclic or not, sees a tree that a scan can be made of. */
  lemma {:induction false} EnterProper(fs: Filesystem, id: int, above: seq<Level>, hashes: seq<Md5.Hash>)
    requires Digests(fs, hashes) && Walked(above) && Known(above, hashes) && SortedListings(fs)
    ensures Proper(Enter(fs, id, above, hashes))
    decreases Room(above, hashes), 1, 0
  {
    hide LevelOf;
    DepthBound(above, hashes);
    var folder := FolderAt(fs, id);
    if LevelOf(folder).items != 0 && !Recursive(above + [LevelOf(folder)]) {
      var levels := above + [LevelOf(folder)];
      EnterPasses(fs, id, above, hashes);
      DepthBound(levels, hashes);
      var subs := EnterLinks(fs, folder.links, levels, hashes);
      EnterLinksProper(fs, folder.links, levels, hashes);
      EnterLinksShow(fs, folder.links, levels, hashes);
      assert SubNames(subs) == LinkNames(folder.links);
      assert forall i :: 0 <= i < |subs| ==> subs[i] in subs;
    }
  }

  lemma {:induction false} EnterLinksProper(fs: Filesystem, links: seq<Link>, above: seq<Level>, hashes: seq<Md5.Hash>)
    requires Digests(fs, hashes) && Walked(above) && Known(above, hashes) && SortedListings(fs)
    ensures forall sub :: sub in EnterLinks(fs, links, above, hashes) ==> Proper(sub.node)
    decreases Room(above, hashes), 2, |links|
  {
    if links != [] {
      EnterProper(fs, links[0].target, above, hashes);
      EnterLinksProper(fs, links[1..], above, hashes);
    }
  }

  /** The tree shows the folder and everything it leads to, and no listing on any way down ends a
      repetition of listings above it. */
  ghost predicate Unrepeated(fs: Filesystem, id: int, n: Node, above: seq<Level>)
    decreases n
  {
    var folder := FolderAt(fs, id);
    var levels := above + [LevelOf(folder)];
    && n.files == folder.files && |n.subs| == |folder.links|
    && (forall j, k :: !Repeats(levels, j, k))
    && (forall i :: 0 <= i < |n.subs| ==>
                      && n.subs[i].name == folder.links[i].name && n.subs[i].entered == folder.links[i].entered
                      && Unrepeated(fs, folder.links[i].target, n.subs[i].node, levels))
  }

  /** Then nothing of it is lost: an ordinary directory is not taken for a link. */
  lemma {:induction false} ShownWhole(fs: Filesystem, id: int, n: Node, above: seq<Level>, hashes: seq<Md5.Hash>)
    requires Digests(fs, hashes) && Walked(above) && Known(above, hashes) && Unrepeated(fs, id, n, above)
    ensures Enter(fs, id, above, hashes) == n
    decreases n, 1, 0
  {
    hide LevelOf, Repeats, Recursive;
    var folder := FolderAt(fs, id);
    var levels := above + [LevelOf(folder)];
    RecursiveIsRepeats(levels);
    ItemsAre(folder);
    if LevelOf(folder).items != 0 {
      EnterPasses(fs, id, above, hashes);
      LinksShownWhole(fs, folder.links, n.subs, levels, hashes, n);
    }
  }

  lemma ItemsAre(folder: Folder)
    ensures LevelOf(folder).items == |folder.links| + |folder.files|
  {
  }

  lemma {:induction false} LinksShownWhole(fs: Filesystem, links: seq<Link>, subs: seq<Sub>, levels: seq<Level>,
                                           hashes: seq<Md5.Hash>, n: Node)
    requires Digests(fs, hashes) && Walked(levels) && Known(levels, hashes) && |subs| == |links|
    requires forall i :: 0 <= i < |subs| ==>
                           && subs[i].name == links[i].name && subs[i].entered == links[i].entered && subs[i] in n.subs
                           && Unrepeated(fs, links[i].target, subs[i].node, levels)
    ensures EnterLinks(fs, links, levels, hashes) == subs
    decreases n, 0, |links|
  {
    hide Unrepeated, Walked, Enter;
    if links != [] {
      var sub := subs[0];
      assert sub.node < sub;
      ShownWhole(fs, links[0].target, sub.node, levels, hashes);
      LinksShownWhole(fs, links[1..], subs[1..], levels, hashes, n);
      assert sub == Sub(links[0].name, links[0].entered, sub.node) && subs == [sub] + subs[1..];
    }
  }

  // ---------------------------------------------------------------- how deep the tree is

  /** The most directories that lie on a way down of entered ones. */
  function Deep(n: Node): nat
    decreases n, 1
  {
    1 + DeepBelow(n.subs)
  }

  function DeepBelow(subs: seq<Sub>): nat
    decreases subs, 0
  {
    if subs == [] then 0
    else
      assert subs[0].node < subs[0];
      var first, rest := if subs[0].entered then Deep(subs[0].node) else 0, DeepBelow(subs[1..]);
      if first < rest then rest else first
  }

  /** The walk enters at most q^5 + 5 directories on any way down, whatever leads where. */
  lemma {:induction false} EnterDepth(fs: Filesystem, id: int, above: seq<Level>, hashes: seq<Md5.Hash>)
    requires Digests(fs, hashes) && Walked(above) && Known(above, hashes)
    ensures Deep(Enter(fs, id, above, hashes)) <= Room(above, hashes)
    decreases Room(above, hashes), 1, 0
  {
    hide LevelOf, Pow;
    DepthBound(above, hashes);
    var folder := FolderAt(fs, id);
    if LevelOf(folder).items != 0 && !Recursive(above + [LevelOf(folder)]) {
      var levels := above + [LevelOf(folder)];
      EnterPasses(fs, id, above, hashes);
      DepthBound(levels, hashes);
      EnterLinksDepth(fs, folder.links, levels, hashes);
    }
  }

  lemma {:induction false} EnterLinksDepth(fs: Filesystem, links: seq<Link>, above: seq<Level>, hashes: seq<Md5.Hash>)
    requires Digests(fs, hashes) && Walked(above) && Known(above, hashes)
    ensures DeepBelow(EnterLinks(fs, links, above, hashes)) <= Room(above, hashes)
    decreases Room(above, hashes), 2, |links|
  {
    hide Pow;
    DepthBound(above, hashes);
    if links != [] {
      EnterDepth(fs, links[0].target, above, hashes);
      EnterLinksDepth(fs, links[1..], above, hashes);
      var subs := EnterLinks(fs, links, above, hashes);
      assert subs[1..] == EnterLinks(fs, links[1..], above, hashes);
    }
  }
}
