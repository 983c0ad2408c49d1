/** Trees of the same shape are the same tree under other directory ids. */
module Renaming {
  import opened Trees
  import opened Scan
  import opened Diff
  import opened Reprint
  import opened Rescan

  /** The directory ids of one tree, with those of another at the same places. */
  function Pairs(a: Dir, b: Dir): map<int, int>
    decreases a, 1
  {
    PairsOf(a.dirs, b.dirs)[a.id := b.id]
  }

  function PairsOf(a: seq<Dir>, b: seq<Dir>): map<int, int>
    decreases a, 0
  {
    if a == [] || b == [] then map[] else Pairs(a[0], b[0]) + PairsOf(a[1..], b[1..])
  }

  function Rename(d: Dir, m: map<int, int>): Dir
    decreases d, 1
  {
    d.(id := if d.id in m && m[d.id] >= 0 then m[d.id] else 0, dirs := RenameAll(d.dirs, m))
  }

  function RenameAll(ds: seq<Dir>, m: map<int, int>): seq<Dir>
    decreases ds, 0
  {
    if ds == [] then [] else [Rename(ds[0], m)] + RenameAll(ds[1..], m)
  }

  function Range(m: map<int, int>): set<int> {
    set x | x in m :: m[x]
  }

  ghost predicate Injective(m: map<int, int>) {
    forall x, y :: x in m && y in m && m[x] == m[y] ==> x == y
  }

  ghost predicate Extends(big: map<int, int>, small: map<int, int>) {
    forall x :: x in small ==> x in big && big[x] == small[x]
  }

  lemma {:induction false} PairsLead(a: Dir, b: Dir)
    requires Erase(a) == Erase(b) && UniqueIds(a) && UniqueIds(b)
    ensures Pairs(a, b).Keys == Ids(a) && Range(Pairs(a, b)) == Ids(b) && Injective(Pairs(a, b))
    decreases a, 1
  {
    PairsOfLead(a.dirs, b.dirs);
    var m, p := Pairs(a, b), PairsOf(a.dirs, b.dirs);
    assert a.id !in p && b.id !in Range(p);
    ValuesPut(p, a.id, b.id);
  }

  lemma {:induction false} ValuesPut(p: map<int, int>, k: int, v: int)
    requires Injective(p) && k !in p && v !in Range(p)
    ensures Range(p[k := v]) == Range(p) + {v} && Injective(p[k := v])
  {
    var m := p[k := v];
    assert m[k] == v && forall x :: x in p ==> m[x] == p[x] && p[x] in Range(p) && p[x] == m[x];
    assert forall x :: x in m ==> x == k || x in p;
  }

  lemma {:induction false} ValuesUnion(p: map<int, int>, q: map<int, int>)
    requires Injective(p) && Injective(q) && p.Keys !! q.Keys && Range(p) !! Range(q)
    ensures Range(p + q) == Range(p) + Range(q) && Injective(p + q)
  {
    var m := p + q;
    assert forall x :: x in p ==> m[x] == p[x] && p[x] in Range(p);
    assert forall x :: x in q ==> m[x] == q[x] && q[x] in Range(q);
    assert forall x :: x in m ==> x in p || x in q;
  }

  lemma {:induction false} PairsOfLead(a: seq<Dir>, b: seq<Dir>)
    requires EraseAll(a) == EraseAll(b) && UniqueIdsOf(a) && UniqueIdsOf(b)
    ensures PairsOf(a, b).Keys == IdsOf(a) && Range(PairsOf(a, b)) == IdsOf(b) && Injective(PairsOf(a, b))
    decreases a, 0
  {
    EraseSizes(a);
    EraseSizes(b);
    if a != [] {
      assert EraseAll(a)[0] == Erase(a[0]) && EraseAll(b)[0] == Erase(b[0]);
      assert EraseAll(a)[1..] == EraseAll(a[1..]) && EraseAll(b)[1..] == EraseAll(b[1..]);
      PairsLead(a[0], b[0]);
      PairsOfLead(a[1..], b[1..]);
      ValuesUnion(Pairs(a[0], b[0]), PairsOf(a[1..], b[1..]));
    }
  }

  lemma {:induction false} Renames(a: Dir, b: Dir, m: map<int, int>)
    requires Erase(a) == Erase(b) && UniqueIds(a) && Extends(m, Pairs(a, b)) && Pairs(a, b).Keys == Ids(a)
    ensures Rename(a, m) == b
    decreases a, 1
  {
    assert m[a.id] == b.id;
    PairsOfKeys(a.dirs, b.dirs);
    assert Extends(m, PairsOf(a.dirs, b.dirs));
    RenamesAll(a.dirs, b.dirs, m);
  }

  lemma {:induction false} PairsKeys(a: Dir, b: Dir)
    requires Erase(a) == Erase(b)
    ensures Pairs(a, b).Keys == Ids(a)
    decreases a, 1
  {
    PairsOfKeys(a.dirs, b.dirs);
  }

  lemma {:induction false} PairsOfKeys(a: seq<Dir>, b: seq<Dir>)
    requires EraseAll(a) == EraseAll(b)
    ensures PairsOf(a, b).Keys == IdsOf(a)
    decreases a, 0
  {
    EraseSizes(a);
    EraseSizes(b);
    if a != [] {
      assert EraseAll(a)[0] == Erase(a[0]) && EraseAll(b)[0] == Erase(b[0]);
      assert EraseAll(a)[1..] == EraseAll(a[1..]) && EraseAll(b)[1..] == EraseAll(b[1..]);
      PairsKeys(a[0], b[0]);
      PairsOfKeys(a[1..], b[1..]);
    }
  }

  lemma {:induction false} RenamesAll(a: seq<Dir>, b: seq<Dir>, m: map<int, int>)
    requires EraseAll(a) == EraseAll(b) && UniqueIdsOf(a) && Extends(m, PairsOf(a, b))
    ensures RenameAll(a, m) == b
    decreases a, 0
  {
    EraseSizes(a);
    EraseSizes(b);
    if a != [] {
      assert EraseAll(a)[0] == Erase(a[0]) && EraseAll(b)[0] == Erase(b[0]);
      assert EraseAll(a)[1..] == EraseAll(a[1..]) && EraseAll(b)[1..] == EraseAll(b[1..]);
      PairsKeys(a[0], b[0]);
      PairsOfKeys(a[1..], b[1..]);
      Renames(a[0], b[0], m);
      RenamesAll(a[1..], b[1..], m);
    }
  }

  /** The tree printed after a patch is the tree that a fresh scan prints, with its directory ids
      renamed one to one. */
  lemma {:induction false} ReprintRenamesScan(was: Dir, n: Node, maxid: nat)
    requires UniqueIds(was) && was.id == 1 && was.name == ""
             && (forall x :: x in Ids(was) ==> 0 < x <= maxid) && Proper(n)
    ensures var fresh', now := FullScan(n), DiffScan(was, n, maxid).dir;
            var m := Pairs(fresh', now);
            && Rename(fresh', m) == now && Injective(m) && m.Keys == Ids(fresh') && Range(m) == Ids(now)
  {
    var fresh', now := FullScan(n), DiffScan(was, n, maxid).dir;
    ReprintIsScan(was, n, maxid);
    DiffGood(was, n, maxid);
    FullScanCanonical(n);
    PairsLead(fresh', now);
    Renames(fresh', now, Pairs(fresh', now));
  }
}
