/** What an insertion into a cuckoo table does with the keys, and when it comes to an end. */
module Displacement {
  import opened Wrappers
  import opened Places
  import Basics

  /** The keys of a table and what decides their places. What an insertion does, and whether it ends, does
      not depend on the data. */
  datatype Layout = Layout(k1: seq<nat>, k2: seq<nat>, seed: nat, hash1: nat, hash2: nat, log: nat, items: nat)

  predicate Formed(at: Layout) {
    at.log < MAX_LOG && |at.k1| == |at.k2| == Pow2(at.log)
  }

  function HashingOf(at: Layout): Hashing {
    Hashing(at.hash1, at.hash2, at.log)
  }

  function NextSeed(seed: nat): nat {
    (seed * 1103515245 + 12345) % 0x8000_0000
  }

  /** An empty table whose multipliers come from a seed. */
  function EmptyLayout(log: nat, seed: nat): Layout {
    var none := seq(Pow2(log), _ => 0);
    Layout(none, none, NextSeed(NextSeed(seed)), (seed * 2 + 1) % WORD, NextSeed(seed) * 2 + 1, log, 0)
  }

  const FIRST_SEED := 0x9a319039

  /** A key on its way: the tables, and the key that has come out of them, or 0. */
  datatype Put = Put(at: Layout, out: nat)

  function Settled1(at: Layout, key: nat): (p: Put)
    requires Formed(at)
    ensures Formed(p.at) && HashingOf(p.at) == HashingOf(at)
  {
    var i := Place1(key, HashingOf(at));
    Put(at.(k1 := at.k1[i := key], items := if at.k1[i] == 0 then at.items + 1 else at.items), at.k1[i])
  }

  function Settled2(at: Layout, key: nat): (p: Put)
    requires Formed(at)
    ensures Formed(p.at) && HashingOf(p.at) == HashingOf(at)
  {
    var i := Place2(key, HashingOf(at));
    Put(at.(k2 := at.k2[i := key], items := if at.k2[i] == 0 then at.items + 1 else at.items), at.k2[i])
  }

  /** At most `n` times: the key goes to its place in the first table, what was there to its place in the
      second, and on with what was there. */
  function Rounds(at: Layout, key: nat, n: nat): (p: Put)
    requires Formed(at)
    ensures Formed(p.at) && HashingOf(p.at) == HashingOf(at)
    decreases n
  {
    if n == 0 || key == 0 then Put(at, key)
    else
      var p := Settled1(at, key);
      if p.out == 0 then p
      else
        var q := Settled2(p.at, p.out);
        Rounds(q.at, q.out, n - 1)
  }

  /** Whether an insertion makes the table grow first. */
  predicate Grows(at: Layout) {
    Pow2(at.log) - 1 <= at.items
  }

  function Transfer(k1: seq<nat>, k2: seq<nat>, i: nat, to: Layout, fuel: nat): (r: Option<Layout>)
    requires |k1| == |k2| && i <= |k1| && Formed(to)
    ensures r.Some? ==> Formed(r.value)
    decreases fuel, 2, |k1| - i
  {
    if i == |k1| then Some(to)
    else
      var one := if k1[i] == 0 then Some(to) else TransferKey(k1[i], to, fuel);
      if one.None? then None
      else
        var both := if k2[i] == 0 then one else TransferKey(k2[i], one.value, fuel);
        if both.None? then None else Transfer(k1, k2, i + 1, both.value, fuel)
  }

  lemma TransferNext(k1: seq<nat>, k2: seq<nat>, i: nat, to: Layout, fuel: nat)
    requires |k1| == |k2| && i < |k1| && Formed(to)
    ensures var one := if k1[i] == 0 then Some(to) else TransferKey(k1[i], to, fuel);
            if one.None? then Transfer(k1, k2, i, to, fuel) == None
            else
              var both := if k2[i] == 0 then one else TransferKey(k2[i], one.value, fuel);
              Transfer(k1, k2, i, to, fuel)
              == if both.None? then None else Transfer(k1, k2, i + 1, both.value, fuel)
  {
  }

  lemma TransferDone(k1: seq<nat>, k2: seq<nat>, to: Layout, fuel: nat)
    requires |k1| == |k2| && Formed(to)
    ensures Transfer(k1, k2, |k1|, to, fuel) == Some(to)
  {
  }

  function TransferKey(key: nat, to: Layout, fuel: nat): (r: Option<Layout>)
    requires Formed(to)
    ensures r.Some? ==> Formed(r.value)
    decreases fuel, 2, 0
  {
    if Grows(to) then None else Inserted(to, key, fuel)
  }

  function Rehashed(at: Layout, log: nat, fuel: nat): (r: Option<Layout>)
    requires Formed(at) && log < MAX_LOG
    ensures r.Some? ==> Formed(r.value)
    decreases fuel, 3
  {
    Transfer(at.k1, at.k2, 0, EmptyLayout(log, at.seed), fuel)
  }

  /** Where the keys are after an insertion; None if the program stops because the table gets too large,
      or if more than `fuel` rehashes in a row leave a key over. */
  function Inserted(at: Layout, key: nat, fuel: nat): (r: Option<Layout>)
    requires Formed(at)
    ensures r.Some? ==> Formed(r.value)
    decreases fuel, if Grows(at) then 4 else 1
  {
    if !Grows(at) then Placed(at, key, fuel)
    else if at.log + 1 >= MAX_LOG then None
    else
      var grown := Rehashed(at, at.log + 1, fuel);
      if grown.None? then None else Placed(grown.value, key, fuel)
  }

  function Placed(at: Layout, key: nat, fuel: nat): (r: Option<Layout>)
    requires Formed(at)
    ensures r.Some? ==> Formed(r.value)
    decreases fuel, 0
  {
    var p := Rounds(at, key, at.log * 3);
    if p.out == 0 then Some(p.at)
    else if fuel == 0 then None
    else
      var again := Rehashed(p.at, p.at.log, fuel - 1);
      if again.None? then None else Inserted(again.value, p.out, fuel - 1)
  }

  function Cleared(at: Layout, key: nat): (r: Layout)
    requires Formed(at)
    ensures Formed(r) && r.log == at.log
  {
    var i, j := Place1(key, HashingOf(at)), Place2(key, HashingOf(at));
    var one := if at.k1[i] == key then at.(k1 := at.k1[i := 0], items := Less1(at.items)) else at;
    if one.k2[j] == key then one.(k2 := one.k2[j := 0], items := Less1(one.items)) else one
  }

  function Less1(n: nat): nat {
    if n == 0 then 0 else n - 1
  }

  /** Where the keys are after a deletion; None if more than `fuel` rehashes in a row leave a key over. */
  function Deleted(at: Layout, key: nat, fuel: nat): (r: Option<Layout>)
    requires Formed(at)
    ensures r.Some? ==> Formed(r.value)
  {
    var left := Cleared(at, key);
    if left.log == 0 || left.items >= Pow2(left.log - 1) then Some(left) else Rehashed(left, left.log - 1, fuel)
  }

  // ---------------------------------------------------------------- when a key is left over

  /** A key takes its place in one of two tables; what was there comes out. */
  ghost predicate Displaces(x1: seq<nat>, x2: seq<nat>, key: nat, first: bool, y1: seq<nat>, y2: seq<nat>, out: nat,
                            h: Hashing)
    requires h.log < MAX_LOG && |x1| == |x2| == Pow2(h.log)
  {
    if first then out == x1[Place1(key, h)] && y1 == x1[Place1(key, h) := key] && y2 == x2
    else out == x2[Place2(key, h)] && y2 == x2[Place2(key, h) := key] && y1 == x1
  }

  /** A walk of displacements, in the first table and in the second in turn, that meets no free place. */
  ghost predicate Chain(k1s: seq<seq<nat>>, k2s: seq<seq<nat>>, keys: seq<nat>, h: Hashing, steps: nat)
    requires h.log < MAX_LOG
  {
    && |k1s| == |k2s| == |keys| == steps + 1
    && (forall i :: 0 <= i <= steps ==> |k1s[i]| == |k2s[i]| == Pow2(h.log) && keys[i] != 0)
    && (forall i :: 0 <= i < steps ==>
                      Displaces(k1s[i], k2s[i], keys[i], i % 2 == 0, k1s[i + 1], k2s[i + 1], keys[i + 1], h))
  }

  ghost predicate Wanders(at: Layout, key: nat, steps: nat)
    requires Formed(at)
  {
    exists k1s, k2s, keys :: Chain(k1s, k2s, keys, HashingOf(at), steps)
                             && k1s[0] == at.k1 && k2s[0] == at.k2 && keys[0] == key
  }

  lemma SettledDisplaces(at: Layout, key: nat, y1: seq<nat>, y2: seq<nat>, out: nat)
    requires Formed(at)
    ensures Displaces(at.k1, at.k2, key, true, y1, y2, out, HashingOf(at))
       <==> var p := Settled1(at, key); p.at.k1 == y1 && p.at.k2 == y2 && p.out == out
    ensures Displaces(at.k1, at.k2, key, false, y1, y2, out, HashingOf(at))
       <==> var p := Settled2(at, key); p.at.k1 == y1 && p.at.k2 == y2 && p.out == out
  {
  }

  lemma {:induction false} WandersOn(at: Layout, key: nat, steps: nat)
    requires Formed(at) && key != 0
    ensures var p := Settled1(at, key);
            var q := Settled2(p.at, p.out);
            Wanders(at, key, steps + 2) <==> p.out != 0 && q.out != 0 && Wanders(q.at, q.out, steps)
  {
    hide Displaces, Settled1, Settled2;
    var h := HashingOf(at);
    var p := Settled1(at, key);
    var q := Settled2(p.at, p.out);
    if Wanders(at, key, steps + 2) {
      var k1s, k2s, keys :| Chain(k1s, k2s, keys, h, steps + 2)
                            && k1s[0] == at.k1 && k2s[0] == at.k2 && keys[0] == key;
      assert Displaces(k1s[0], k2s[0], keys[0], 0 % 2 == 0, k1s[0 + 1], k2s[0 + 1], keys[0 + 1], h);
      assert Displaces(k1s[1], k2s[1], keys[1], 1 % 2 == 0, k1s[1 + 1], k2s[1 + 1], keys[1 + 1], h);
      SettledDisplaces(at, key, k1s[1], k2s[1], keys[1]);
      SettledDisplaces(p.at, p.out, k1s[2], k2s[2], keys[2]);
      ShorterChain(k1s, k2s, keys, h, steps);
    }
    if p.out != 0 && q.out != 0 && Wanders(q.at, q.out, steps) {
      var k1s, k2s, keys :| Chain(k1s, k2s, keys, h, steps)
                            && k1s[0] == q.at.k1 && k2s[0] == q.at.k2 && keys[0] == q.out;
      SettledDisplaces(at, key, p.at.k1, p.at.k2, p.out);
      SettledDisplaces(p.at, p.out, q.at.k1, q.at.k2, q.out);
      LongerChain(at.k1, at.k2, key, p.out, p.at.k1, p.at.k2, k1s, k2s, keys, h, steps);
    }
  }

  lemma {:induction false} ShorterChain(k1s: seq<seq<nat>>, k2s: seq<seq<nat>>, keys: seq<nat>, h: Hashing, steps: nat)
    requires h.log < MAX_LOG && Chain(k1s, k2s, keys, h, steps + 2)
    ensures Chain(k1s[2..], k2s[2..], keys[2..], h, steps)
  {
    hide Displaces, Place1, Place2, Pow2;
  }

  lemma {:induction false} LongerChain(x1: seq<nat>, x2: seq<nat>, a: nat, b: nat, y1: seq<nat>, y2: seq<nat>,
                                       k1s: seq<seq<nat>>, k2s: seq<seq<nat>>, keys: seq<nat>, h: Hashing, steps: nat)
    requires h.log < MAX_LOG && Chain(k1s, k2s, keys, h, steps) && |x1| == |x2| == |y1| == |y2| == Pow2(h.log)
    requires a != 0 && b != 0 && Displaces(x1, x2, a, true, y1, y2, b, h)
    requires Displaces(y1, y2, b, false, k1s[0], k2s[0], keys[0], h)
    ensures Chain([x1, y1] + k1s, [x2, y2] + k2s, [a, b] + keys, h, steps + 2)
  {
    hide Displaces, Place1, Place2, Pow2;
    var l1s, l2s, all := [x1, y1] + k1s, [x2, y2] + k2s, [a, b] + keys;
    assert l1s[2..] == k1s && l2s[2..] == k2s && all[2..] == keys;
    forall i | 0 <= i < steps + 2
      ensures Displaces(l1s[i], l2s[i], all[i], i % 2 == 0, l1s[i + 1], l2s[i + 1], all[i + 1], h)
    {
      if i >= 2 {
        var j := i - 2;
        assert Displaces(k1s[j], k2s[j], keys[j], j % 2 == 0, k1s[j + 1], k2s[j + 1], keys[j + 1], h);
      }
    }
  }

  /** A key is left over exactly if the walk of displacements meets no free place in all its rounds. */
  lemma {:induction false} LeftOver(at: Layout, key: nat, n: nat)
    requires Formed(at) && key != 0
    ensures Rounds(at, key, n).out != 0 <==> Wanders(at, key, 2 * n)
    decreases n
  {
    hide Chain;
    if n == 0 {
      StandsStill(at, key);
    } else {
      WandersOn(at, key, 2 * (n - 1));
      var p := Settled1(at, key);
      if p.out != 0 {
        var q := Settled2(p.at, p.out);
        if q.out != 0 {
          LeftOver(q.at, q.out, n - 1);
        }
      }
    }
  }

  lemma {:induction false} StandsStill(at: Layout, key: nat)
    requires Formed(at) && key != 0
    ensures Wanders(at, key, 0)
  {
    assert Chain([at.k1], [at.k2], [key], HashingOf(at), 0);
  }

  /** A key whose place in the first table is free is put there, and nothing else happens. */
  lemma {:induction false} InsertedFirst(at: Layout, key: nat, fuel: nat)
    requires Formed(at) && !Grows(at) && key != 0 && at.k1[Place1(key, HashingOf(at))] == 0
    ensures Inserted(at, key, fuel)
         == Some(at.(k1 := at.k1[Place1(key, HashingOf(at)) := key], items := at.items + 1))
  {
    assert at.log != 0;
    assert Rounds(at, key, at.log * 3) == Settled1(at, key);
  }

  /** If the one who has it finds its place in the second table free, it goes there. */
  lemma {:induction false} InsertedSecond(at: Layout, key: nat, fuel: nat)
    requires Formed(at) && !Grows(at) && key != 0
    requires var c := at.k1[Place1(key, HashingOf(at))]; c != 0 && at.k2[Place2(c, HashingOf(at))] == 0
    ensures var i := Place1(key, HashingOf(at));
            var j := Place2(at.k1[i], HashingOf(at));
            Inserted(at, key, fuel)
            == Some(at.(k1 := at.k1[i := key], k2 := at.k2[j := at.k1[i]], items := at.items + 1))
  {
    assert at.log != 0;
    var p := Settled1(at, key);
    var q := Settled2(p.at, p.out);
    assert Rounds(q.at, 0, at.log * 3 - 1) == q;
  }

  // ---------------------------------------------------------------- more fuel

  /** How many rehashes are allowed makes a difference only where they do not suffice. */
  lemma {:induction false} InsertedWithMore(at: Layout, key: nat, fuel: nat, more: nat)
    requires Formed(at) && fuel <= more && Inserted(at, key, fuel).Some?
    ensures Inserted(at, key, more) == Inserted(at, key, fuel)
    decreases fuel, if Grows(at) then 4 else 1
  {
    if !Grows(at) {
      PlacedWithMore(at, key, fuel, more);
    } else if at.log + 1 < MAX_LOG {
      RehashedWithMore(at, at.log + 1, fuel, more);
      PlacedWithMore(Rehashed(at, at.log + 1, fuel).value, key, fuel, more);
    }
  }

  lemma {:induction false} PlacedWithMore(at: Layout, key: nat, fuel: nat, more: nat)
    requires Formed(at) && fuel <= more && Placed(at, key, fuel).Some?
    ensures Placed(at, key, more) == Placed(at, key, fuel)
    decreases fuel, 0
  {
    var p := Rounds(at, key, at.log * 3);
    if p.out != 0 {
      RehashedWithMore(p.at, p.at.log, fuel - 1, more - 1);
      InsertedWithMore(Rehashed(p.at, p.at.log, fuel - 1).value, p.out, fuel - 1, more - 1);
    }
  }

  lemma {:induction false} RehashedWithMore(at: Layout, log: nat, fuel: nat, more: nat)
    requires Formed(at) && log < MAX_LOG && fuel <= more && Rehashed(at, log, fuel).Some?
    ensures Rehashed(at, log, more) == Rehashed(at, log, fuel)
    decreases fuel, 3
  {
    TransferWithMore(at.k1, at.k2, 0, EmptyLayout(log, at.seed), fuel, more);
  }

  lemma {:induction false} TransferWithMore(k1: seq<nat>, k2: seq<nat>, i: nat, to: Layout, fuel: nat, more: nat)
    requires |k1| == |k2| && i <= |k1| && Formed(to) && fuel <= more && Transfer(k1, k2, i, to, fuel).Some?
    ensures Transfer(k1, k2, i, to, more) == Transfer(k1, k2, i, to, fuel)
    decreases fuel, 2, |k1| - i
  {
    if i < |k1| {
      if k1[i] != 0 {
        InsertedWithMore(to, k1[i], fuel, more);
      }
      var one := if k1[i] == 0 then Some(to) else TransferKey(k1[i], to, fuel);
      if k2[i] != 0 {
        InsertedWithMore(one.value, k2[i], fuel, more);
      }
      var both := if k2[i] == 0 then one else TransferKey(k2[i], one.value, fuel);
      TransferWithMore(k1, k2, i + 1, both.value, fuel, more);
    }
  }

  lemma {:induction false} DeletedWithMore(at: Layout, key: nat, fuel: nat, more: nat)
    requires Formed(at) && fuel <= more && Deleted(at, key, fuel).Some?
    ensures Deleted(at, key, more) == Deleted(at, key, fuel)
  {
    var left := Cleared(at, key);
    if left.log != 0 && left.items < Pow2(left.log - 1) {
      RehashedWithMore(left, left.log - 1, fuel, more);
    }
  }

  // ---------------------------------------------------------------- tables of few keys

  /** These keys are there, each in its place of one of the tables, and nothing else. */
  ghost predicate Located(k1: seq<nat>, k2: seq<nat>, h: Hashing, keys: set<int>) {
    && h.log < MAX_LOG && |k1| == |k2| == Pow2(h.log)
    && (forall i :: 0 <= i < |k1| && k1[i] != 0 ==> k1[i] in keys && Place1(k1[i], h) == i)
    && (forall i :: 0 <= i < |k2| && k2[i] != 0 ==> k2[i] in keys && Place2(k2[i], h) == i)
    && (forall k :: k in keys ==> k > 0)
    && (forall k :: k in keys ==> (k1[Place1(k, h)] == k <==> k2[Place2(k, h)] != k))
  }

  ghost predicate Holding(at: Layout, keys: set<int>) {
    Located(at.k1, at.k2, HashingOf(at), keys) && at.items == |keys|
  }

  lemma EmptyHolding(log: nat, seed: nat)
    requires log < MAX_LOG
    ensures Holding(EmptyLayout(log, seed), {})
  {
  }

  lemma {:induction false} Located1(k1: seq<nat>, k2: seq<nat>, h: Hashing, keys: set<int>, key: nat)
    requires Located(k1, k2, h, keys) && key > 0 && key !in keys
    ensures var i := Place1(key, h);
            (k1[i] != 0 ==> k1[i] in keys) && Located(k1[i := key], k2, h, keys - {k1[i]} + {key})
  {
    hide Place1, Place2, Pow2;
  }

  lemma {:induction false} Located2(k1: seq<nat>, k2: seq<nat>, h: Hashing, keys: set<int>, key: nat)
    requires Located(k1, k2, h, keys) && key > 0 && key !in keys
    ensures var i := Place2(key, h);
            (k2[i] != 0 ==> k2[i] in keys) && Located(k1, k2[i := key], h, keys - {k2[i]} + {key})
  {
    hide Place1, Place2, Pow2;
  }

  /** The key that leaves makes room for the one that comes. */
  lemma {:induction false} Exchanged(keys: set<int>, out: nat, key: nat)
    requires key !in keys && 0 !in keys && (out != 0 ==> out in keys)
    ensures |keys - {out} + {key}| == if out == 0 then |keys| + 1 else |keys|
  {
    assert out == 0 ==> keys - {out} == keys;
  }

  lemma {:induction false} SettledHolding(at: Layout, keys: set<int>, key: nat)
    requires Holding(at, keys) && key > 0 && key !in keys
    ensures Formed(at)
    ensures var p := Settled1(at, key);
            (p.out != 0 ==> p.out in keys) && Holding(p.at, keys - {p.out} + {key})
    ensures var p := Settled2(at, key);
            (p.out != 0 ==> p.out in keys) && Holding(p.at, keys - {p.out} + {key})
  {
    hide Place1, Place2, Pow2;
    var h := HashingOf(at);
    Located1(at.k1, at.k2, h, keys, key);
    Located2(at.k1, at.k2, h, keys, key);
    Exchanged(keys, at.k1[Place1(key, h)], key);
    Exchanged(keys, at.k2[Place2(key, h)], key);
  }

  /** A key joins at most one other: there is a place for it. */
  lemma {:induction false} PlacedFew(at: Layout, keys: set<int>, key: nat, fuel: nat)
    requires Holding(at, keys) && |keys| <= 1 && key > 0 && key !in keys && at.log > 0
    ensures Formed(at) && Placed(at, key, fuel).Some?
    ensures Placed(at, key, fuel).value.log == at.log && Holding(Placed(at, key, fuel).value, keys + {key})
  {
    hide Place1, Place2, Pow2, Located, Rehashed, Inserted;
    SettledHolding(at, keys, key);
    var p := Settled1(at, key);
    if p.out == 0 {
      assert keys - {p.out} == keys by {
        PositiveKeys(at, keys);
      }
      assert Rounds(at, key, at.log * 3) == p;
    } else {
      PlacedBeside(at, keys, key, fuel);
    }
  }

  lemma {:induction false} PlacedBeside(at: Layout, keys: set<int>, key: nat, fuel: nat)
    requires Holding(at, keys) && |keys| <= 1 && key > 0 && key !in keys && at.log > 0 && Formed(at)
    requires var p := Settled1(at, key);
             p.out != 0 && p.out in keys && Holding(p.at, keys - {p.out} + {key})
    ensures Placed(at, key, fuel).Some?
    ensures Placed(at, key, fuel).value.log == at.log && Holding(Placed(at, key, fuel).value, keys + {key})
  {
    hide Settled1, Settled2, Located, Rehashed, Inserted, Holding;
    var p := Settled1(at, key);
    OnlyOne(keys, p.out);
    assert keys - {p.out} + {key} == {key};
    SettledHolding(p.at, {key}, p.out);
    var q := Settled2(p.at, p.out);
    SecondFree(at, key);
    assert {key} - {0} + {p.out} == keys + {key};
    assert Rounds(q.at, 0, at.log * 3 - 1) == q;
  }

  lemma PositiveKeys(at: Layout, keys: set<int>)
    requires Holding(at, keys)
    ensures Formed(at) && forall k :: k in keys ==> k > 0
  {
  }

  lemma {:induction false} OnlyOne(keys: set<int>, x: int)
    requires |keys| <= 1 && x in keys
    ensures keys == {x}
  {
    assert |keys - {x}| == 0;
  }

  /** With one entry, in the first table, all of the second table is free. */
  lemma {:induction false} SecondFree(at: Layout, key: nat)
    requires Formed(at) && key > 0 && Holding(Settled1(at, key).at, {key})
    ensures var p := Settled1(at, key); Settled2(p.at, p.out).out == 0
  {
    hide Place1, Place2, Pow2;
    var p := Settled1(at, key);
    var h := HashingOf(at);
    assert key in {key} && p.at.k1[Place1(key, h)] == key;
    var i, j := Place2(key, h), Place2(p.out, h);
    assert p.at.k2[i] != key && (p.at.k2[j] != 0 ==> j == i);
  }

  lemma {:induction false} TransferNothing(k1: seq<nat>, k2: seq<nat>, i: nat, to: Layout, fuel: nat)
    requires |k1| == |k2| && i <= |k1| && Formed(to)
    requires forall j :: i <= j < |k1| ==> k1[j] == 0 && k2[j] == 0
    ensures Transfer(k1, k2, i, to, fuel) == Some(to)
    decreases |k1| - i
  {
    if i < |k1| {
      TransferNothing(k1, k2, i + 1, to, fuel);
    }
  }

  /** The only entry is moved. */
  lemma {:induction false} TransferOne(k1: seq<nat>, k2: seq<nat>, i: nat, at: nat, key: nat, to: Layout, fuel: nat)
    requires |k1| == |k2| && i <= at < |k1| && Holding(to, {}) && to.log > 0 && key > 0
    requires forall j :: i <= j < |k1| && j != at ==> k1[j] == 0 && k2[j] == 0
    requires (k1[at] == key && k2[at] == 0) || (k1[at] == 0 && k2[at] == key)
    ensures Formed(to) && Transfer(k1, k2, i, to, fuel).Some?
    ensures var r := Transfer(k1, k2, i, to, fuel).value; r.log == to.log && Holding(r, {key})
    decreases at - i
  {
    hide Transfer, TransferKey, Located;
    PositiveKeys(to, {});
    TransferNext(k1, k2, i, to, fuel);
    if i < at {
      TransferOne(k1, k2, i + 1, at, key, to, fuel);
    } else {
      TransferFirst(key, to, fuel);
      TransferNothing(k1, k2, i + 1, TransferKey(key, to, fuel).value, fuel);
    }
  }

  lemma {:induction false} TransferFirst(key: nat, to: Layout, fuel: nat)
    requires Holding(to, {}) && to.log > 0 && key > 0
    ensures Formed(to) && TransferKey(key, to, fuel).Some?
    ensures var r := TransferKey(key, to, fuel).value; r.log == to.log && Holding(r, {key})
  {
    hide Located, Placed;
    PositiveKeys(to, {});
    PlacedFew(to, {}, key, fuel);
    assert !Grows(to);
    assert {} + {key} == {key};
  }

  /** A rehash of at most one entry succeeds. */
  lemma {:induction false} RehashedFew(at: Layout, keys: set<int>, log: nat, fuel: nat)
    requires Holding(at, keys) && |keys| <= 1 && log < MAX_LOG && (log > 0 || keys == {})
    ensures Formed(at) && Rehashed(at, log, fuel).Some?
    ensures var r := Rehashed(at, log, fuel).value; r.log == log && Holding(r, keys)
  {
    hide Transfer, Place1, Place2;
    PositiveKeys(at, keys);
    var to := EmptyLayout(log, at.seed);
    EmptyHolding(log, at.seed);
    if keys == {} {
      TransferNothing(at.k1, at.k2, 0, to, fuel);
    } else {
      var k := Basics.SomeOf(keys);
      OnlyOne(keys, k);
      var key: nat := k;
      var h := HashingOf(at);
      var place := if at.k1[Place1(key, h)] == key then Place1(key, h) else Place2(key, h);
      OneEntry(at, key, place);
      TransferOne(at.k1, at.k2, 0, place, key, to, fuel);
    }
  }

  lemma {:induction false} OneEntry(at: Layout, key: nat, place: nat)
    requires Holding(at, {key}) && Formed(at)
    requires var h := HashingOf(at);
             place == if at.k1[Place1(key, h)] == key then Place1(key, h) else Place2(key, h)
    ensures key > 0 && place < |at.k1|
    ensures forall j :: 0 <= j < |at.k1| && j != place ==> at.k1[j] == 0 && at.k2[j] == 0
    ensures (at.k1[place] == key && at.k2[place] == 0) || (at.k1[place] == 0 && at.k2[place] == key)
  {
    hide Place1, Place2, Pow2;
    assert key in {key};
  }

  /** Into a table of at most one entry every other key goes, whatever the multipliers are. */
  lemma {:induction false} InsertedFew(at: Layout, keys: set<int>, key: nat, fuel: nat)
    requires Holding(at, keys) && |keys| <= 1 && key > 0 && key !in keys && at.log + 1 < MAX_LOG
    ensures Formed(at) && Inserted(at, key, fuel).Some?
    ensures var r := Inserted(at, key, fuel).value;
            Holding(r, keys + {key}) && r.log == if Grows(at) then at.log + 1 else at.log
  {
    hide Place1, Place2, Located;
    PositiveKeys(at, keys);
    if Grows(at) {
      RehashedFew(at, keys, at.log + 1, fuel);
      PlacedFew(Rehashed(at, at.log + 1, fuel).value, keys, key, fuel);
    } else {
      PlacedFew(at, keys, key, fuel);
    }
  }

  lemma {:induction false} ClearedHolding(at: Layout, keys: set<int>, key: nat)
    requires Holding(at, keys) && key > 0
    ensures Formed(at) && Holding(Cleared(at, key), keys - {key})
  {
    hide Place1, Place2, Pow2;
    var h := HashingOf(at);
    if key in keys {
      assert |keys - {key}| == |keys| - 1;
    } else {
      assert keys - {key} == keys;
    }
  }

  /** A deletion that leaves at most one entry is carried out. */
  lemma {:induction false} DeletedFew(at: Layout, keys: set<int>, key: nat, fuel: nat)
    requires Holding(at, keys) && key > 0 && |keys - {key}| <= 1
    ensures Formed(at) && Deleted(at, key, fuel).Some?
    ensures var r := Deleted(at, key, fuel).value; Holding(r, keys - {key}) && r.log <= at.log
  {
    hide Place1, Place2, Located, Cleared, Rehashed;
    PositiveKeys(at, keys);
    ClearedHolding(at, keys, key);
    var left := Cleared(at, key);
    if left.log != 0 && left.items < Pow2(left.log - 1) {
      RehashedFew(left, keys - {key}, left.log - 1, fuel);
    }
  }
}
