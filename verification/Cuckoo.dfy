/** The cuckoo hash table: two tables, each key in its own place of one of them. It refines a map. */
module Cuckoo {
  import opened Wrappers
  import opened Places
  import opened Displacement
  import Basics

  /** A place of a table; key 0 marks it as free. */
  datatype Cell<T> = Cell(key: nat, data: T)

  // ---------------------------------------------------------------- what two tables hold

  ghost predicate Shaped<T>(t1: seq<Cell<T>>, t2: seq<Cell<T>>, h: Hashing) {
    h.log < MAX_LOG && |t1| == |t2| == Pow2(h.log)
  }

  /** Every key sits in its own place of exactly one table, with its data; nothing else is there. */
  ghost predicate Holds<T>(t1: seq<Cell<T>>, t2: seq<Cell<T>>, h: Hashing, m: map<int, T>) {
    && Shaped(t1, t2, h)
    && (forall i :: 0 <= i < |t1| && t1[i].key != 0 ==>
                      t1[i].key in m && m[t1[i].key] == t1[i].data && Place1(t1[i].key, h) == i)
    && (forall i :: 0 <= i < |t2| && t2[i].key != 0 ==>
                      t2[i].key in m && m[t2[i].key] == t2[i].data && Place2(t2[i].key, h) == i)
    && (forall k :: k in m ==> k > 0)
    && (forall k :: k in m ==> (t1[Place1(k, h)].key == k <==> t2[Place2(k, h)].key != k))
  }

  /** The key that has to leave when another takes its place. */
  function Without<T>(m: map<int, T>, cell: Cell<T>): map<int, T> {
    if cell.key == 0 then m else m - {cell.key}
  }

  lemma {:induction false} Put1<T>(t1: seq<Cell<T>>, t2: seq<Cell<T>>, h: Hashing, m: map<int, T>, c: Cell<T>)
    requires Holds(t1, t2, h, m) && c.key != 0 && c.key !in m
    ensures var i := Place1(c.key, h);
            && i < |t1|
            && Holds(t1[i := c], t2, h, Without(m, t1[i])[c.key := c.data])
            && (t1[i].key != 0 ==> t1[i].key in m && m[t1[i].key] == t1[i].data)
  {
    hide Place1, Place2, Pow2;
  }

  lemma {:induction false} Put2<T>(t1: seq<Cell<T>>, t2: seq<Cell<T>>, h: Hashing, m: map<int, T>, c: Cell<T>)
    requires Holds(t1, t2, h, m) && c.key != 0 && c.key !in m
    ensures var i := Place2(c.key, h);
            && i < |t2|
            && Holds(t1, t2[i := c], h, Without(m, t2[i])[c.key := c.data])
            && (t2[i].key != 0 ==> t2[i].key in m && m[t2[i].key] == t2[i].data)
  {
    hide Place1, Place2, Pow2;
  }

  /** Freeing the place of a key takes exactly that key away. */
  lemma {:induction false} Free1<T>(t1: seq<Cell<T>>, t2: seq<Cell<T>>, h: Hashing, m: map<int, T>, k: nat)
    requires Holds(t1, t2, h, m) && k != 0 && t1[Place1(k, h)].key == k
    ensures k in m && Holds(t1[Place1(k, h) := t1[Place1(k, h)].(key := 0)], t2, h, m - {k})
  {
  }

  lemma {:induction false} Free2<T>(t1: seq<Cell<T>>, t2: seq<Cell<T>>, h: Hashing, m: map<int, T>, k: nat)
    requires Holds(t1, t2, h, m) && k != 0 && t2[Place2(k, h)].key == k
    ensures k in m && Holds(t1, t2[Place2(k, h) := t2[Place2(k, h)].(key := 0)], h, m - {k})
  {
  }

  /** New data under the same key. */
  lemma Change1<T>(t1: seq<Cell<T>>, t2: seq<Cell<T>>, h: Hashing, m: map<int, T>, k: nat, v: T)
    requires Holds(t1, t2, h, m) && k != 0 && t1[Place1(k, h)].key == k
    ensures k in m && Holds(t1[Place1(k, h) := Cell(k, v)], t2, h, m[k := v])
  {
  }

  lemma Change2<T>(t1: seq<Cell<T>>, t2: seq<Cell<T>>, h: Hashing, m: map<int, T>, k: nat, v: T)
    requires Holds(t1, t2, h, m) && k != 0 && t2[Place2(k, h)].key == k
    ensures k in m && Holds(t1, t2[Place2(k, h) := Cell(k, v)], h, m[k := v])
  {
  }

  lemma Bounds<T>(t1: seq<Cell<T>>, t2: seq<Cell<T>>, h: Hashing, m: map<int, T>)
    requires Holds(t1, t2, h, m)
    ensures Shaped(t1, t2, h)
  {
  }

  /** What stands in an occupied place is an entry. */
  lemma Occupied<T>(t1: seq<Cell<T>>, t2: seq<Cell<T>>, h: Hashing, m: map<int, T>, i: nat)
    requires Holds(t1, t2, h, m) && i < |t1|
    ensures i < |t2|
    ensures t1[i].key != 0 ==> t1[i].key in m && m[t1[i].key] == t1[i].data
    ensures t2[i].key != 0 ==> t2[i].key in m && m[t2[i].key] == t2[i].data
  {
  }

  /** A key that is in neither of its places is not there. */
  lemma Absent<T>(t1: seq<Cell<T>>, t2: seq<Cell<T>>, h: Hashing, m: map<int, T>, k: nat)
    requires Holds(t1, t2, h, m)
    ensures Shaped(t1, t2, h)
    ensures k in m ==> t1[Place1(k, h)].key == k || t2[Place2(k, h)].key == k
  {
  }

  lemma EmptyHolds<T>(t1: seq<Cell<T>>, t2: seq<Cell<T>>, h: Hashing, h': Hashing)
    requires Holds(t1, t2, h, map[]) && h'.log == h.log
    ensures Holds(t1, t2, h', map[])
  {
  }

  lemma SizeWith<T>(m: map<int, T>, k: nat, v: T)
    requires k !in m
    ensures |m[k := v]| == |m| + 1
  {
  }

  lemma {:induction false} SizeWithout<T>(m: map<int, T>, k: nat)
    requires k in m
    ensures |m - {k}| == |m| - 1
  {
    assert (m - {k})[k := m[k]] == m;
  }

  // ---------------------------------------------------------------- sizes

  /** A table is never full, and its size is that of the entries, rounded up: `log` is the number of
      binary digits of `items`. */
  predicate Sized(log: nat, items: nat) {
    if items == 0 then log == 0 else log > 0 && Pow2(log - 1) <= items < Pow2(log)
  }

  function Digits(n: nat): nat {
    if n == 0 then 0 else 1 + Digits(n / 2)
  }

  lemma {:induction false} SizedIsDigits(log: nat, items: nat)
    ensures Sized(log, items) <==> log == Digits(items)
    decreases items
  {
    if items > 0 {
      if log > 0 {
        SizedIsDigits(log - 1, items / 2);
      }
      DigitsSized(items);
    }
  }

  lemma {:induction false} DigitsSized(items: nat)
    ensures Sized(Digits(items), items)
    decreases items
  {
    if items > 0 {
      DigitsSized(items / 2);
    }
  }

  // ---------------------------------------------------------------- moving from table to table

  /** The entries met when the first `i` places of the one table and `j` of the other are gone through. */
  ghost predicate Passed<T>(t1: seq<Cell<T>>, t2: seq<Cell<T>>, h: Hashing, i: nat, j: nat, k: nat)
    requires Shaped(t1, t2, h)
  {
    (t1[Place1(k, h)].key == k && Place1(k, h) < i) || (t2[Place2(k, h)].key == k && Place2(k, h) < j)
  }

  ghost function CarriedOver<T>(t1: seq<Cell<T>>, t2: seq<Cell<T>>, h: Hashing, m: map<int, T>, i: nat,
                                j: nat): map<int, T>
    requires Shaped(t1, t2, h)
  {
    map k: int | k in m && k > 0 && Passed(t1, t2, h, i, j, k) :: m[k]
  }

  lemma {:induction false} AllPassed<T>(t1: seq<Cell<T>>, t2: seq<Cell<T>>, h: Hashing, m: map<int, T>, k: int)
    requires Holds(t1, t2, h, m) && k in m
    ensures k > 0 && Passed(t1, t2, h, |t1|, |t2|, k)
  {
    assert k > 0;
    assert t1[Place1(k, h)].key == k || t2[Place2(k, h)].key == k;
  }

  lemma {:induction false} MovedEnds<T>(t1: seq<Cell<T>>, t2: seq<Cell<T>>, h: Hashing, m: map<int, T>)
    requires Holds(t1, t2, h, m)
    ensures CarriedOver(t1, t2, h, m, |t1|, |t2|) == m
  {
    var all := CarriedOver(t1, t2, h, m, |t1|, |t2|);
    forall k | k in m
      ensures k in all
    {
      AllPassed(t1, t2, h, m, k);
    }
    hide Holds, Passed;
    assert all.Keys == m.Keys;
  }

  lemma MovedNone<T>(t1: seq<Cell<T>>, t2: seq<Cell<T>>, h: Hashing, m: map<int, T>)
    requires Shaped(t1, t2, h)
    ensures CarriedOver(t1, t2, h, m, 0, 0) == map[]
  {
  }

  lemma MovedWithin<T>(t1: seq<Cell<T>>, t2: seq<Cell<T>>, h: Hashing, m: map<int, T>, i: nat, j: nat)
    requires Shaped(t1, t2, h)
    ensures CarriedOver(t1, t2, h, m, i, j).Keys <= m.Keys
  {
  }

  /** The next place of the first table, then of the second, adds its entry and nothing else. */
  lemma {:induction false} MovedNext1<T>(t1: seq<Cell<T>>, t2: seq<Cell<T>>, h: Hashing, m: map<int, T>, i: nat)
    requires Holds(t1, t2, h, m) && i < |t1|
    ensures var was, now := CarriedOver(t1, t2, h, m, i, i), CarriedOver(t1, t2, h, m, i + 1, i);
            if t1[i].key == 0 then now == was else t1[i].key in m && t1[i].key !in was
                                                   && now == was[t1[i].key := t1[i].data]
  {
    hide Index, Pow2;
    var was, now := CarriedOver(t1, t2, h, m, i, i), CarriedOver(t1, t2, h, m, i + 1, i);
    var x := t1[i].key;
    forall k | k in m && k != x
      ensures Passed(t1, t2, h, i + 1, i, k) <==> Passed(t1, t2, h, i, i, k)
    {
      assert Place1(k, h) == i ==> t1[Place1(k, h)].key != k;
    }
  }

  lemma {:induction false} MovedNext2<T>(t1: seq<Cell<T>>, t2: seq<Cell<T>>, h: Hashing, m: map<int, T>, i: nat)
    requires Holds(t1, t2, h, m) && i < |t1|
    ensures var was, now := CarriedOver(t1, t2, h, m, i + 1, i), CarriedOver(t1, t2, h, m, i + 1, i + 1);
            if t2[i].key == 0 then now == was else t2[i].key in m && t2[i].key !in was
                                                   && now == was[t2[i].key := t2[i].data]
  {
    hide Index, Pow2;
    var was, now := CarriedOver(t1, t2, h, m, i + 1, i), CarriedOver(t1, t2, h, m, i + 1, i + 1);
    var x := t2[i].key;
    forall k | k in m && k != x
      ensures Passed(t1, t2, h, i + 1, i + 1, k) <==> Passed(t1, t2, h, i + 1, i, k)
    {
      assert Place2(k, h) == i ==> t2[Place2(k, h)].key != k;
    }
  }

  lemma {:induction false} PartIsSmaller<T>(part: map<int, T>, m: map<int, T>, k: nat)
    requires k in m && k !in part && part.Keys <= m.Keys
    ensures |part| < |m|
  {
    Basics.SubsetSize(part.Keys, m.Keys - {k});
    assert |m.Keys - {k}| == |m.Keys| - 1;
  }

  lemma {:induction false} NotEmpty<T>(m: map<int, T>, log: nat)
    requires m != map[] && |m| < Pow2(log)
    ensures log > 0 && |m| > 0
  {
    assert |m| > 0;
  }

  function KeysOf<T>(cells: seq<Cell<T>>): seq<nat> {
    seq(|cells|, i requires 0 <= i < |cells| => cells[i].key)
  }

  lemma KeysOfAt<T>(cells: seq<Cell<T>>, i: nat)
    requires i < |cells|
    ensures |KeysOf(cells)| == |cells| && KeysOf(cells)[i] == cells[i].key
  {
  }

  lemma KeysOfUpdate<T>(cells: seq<Cell<T>>, i: nat, cell: Cell<T>)
    requires i < |cells|
    ensures |KeysOf(cells)| == |cells| && KeysOf(cells)[i] == cells[i].key
    ensures KeysOf(cells[i := cell]) == KeysOf(cells)[i := cell.key]
  {
  }

  lemma KeysOfLength<T>(cells: seq<Cell<T>>)
    ensures |KeysOf(cells)| == |cells|
  {
  }

  /** How an insertion ends; Halted stands for the assertion on the size of a table that stops the
      program, and for more than `fuel` rehashes in a row that leave a key over. */
  datatype Outcome = Done | Rejected | Halted

  class Table<T(0)> {
    var table1: array<Cell<T>>
    var table2: array<Cell<T>>
    var seed: nat
    var hash1: nat
    var hash2: nat
    var size: nat
    var items: nat
    var log: nat
    ghost var content: map<int, T>

    ghost predicate Valid()
      reads this, table1, table2
    {
      && table1 != table2
      && Holds(table1[..], table2[..], Hashing(hash1, hash2, log), content)
      && size == Pow2(log) && items == |content| < size
    }

    /** Where the keys are, and what decides it. */
    ghost function Places(): Layout
      reads this, table1, table2
    {
      Layout(KeysOf(table1[..]), KeysOf(table2[..]), seed, hash1, hash2, log, items)
    }

    /** Its arrays are those it had, or new ones. */
    twostate predicate Reallocated()
      reads this
    {
      (table1 == old(table1) || fresh(table1)) && (table2 == old(table2) || fresh(table2))
    }

    /** cuckoo_random */
    method Random() returns (ret: nat)
      modifies this`seed
      ensures ret == old(seed) && seed == NextSeed(old(seed))
    {
      ret := seed;
      seed := (seed * 1103515245 + 12345) % 0x8000_0000;
    }

    /** cuckoo_set_seed */
    method SetSeed(s: nat)
      modifies this`seed, this`hash1, this`hash2
      ensures hash1 == (s * 2 + 1) % WORD
      ensures hash2 == (s * 1103515245 + 12345) % 0x8000_0000 * 2 + 1
      ensures seed == NextSeed(NextSeed(s))
      ensures OddWord(hash1) && OddWord(hash2)
    {
      seed := s;
      var r := Random();
      hash1 := (r * 2 + 1) % WORD;
      OddBelow(r);
      r := Random();
      hash2 := (r * 2 + 1) % WORD;
      OddBelow(r);
    }

    /** cuckoo_alloc */
    constructor (log: nat)
      requires log < MAX_LOG
      ensures Valid() && content == map[] && this.log == log
      ensures fresh(table1) && fresh(table2) && Places() == EmptyLayout(log, FIRST_SEED)
    {
      this.log := log;
      size := Pow2(log);
      items := 0;
      content := map[];
      seed, hash1, hash2 := 0, 0, 0;
      var blank: T := *;
      table1 := new Cell<T>[Pow2(log)](_ => Cell(0, blank));
      table2 := new Cell<T>[Pow2(log)](_ => Cell(0, blank));
      new;
      SetSeed(FIRST_SEED);
    }

    /** cuckoo_lookup */
    method Lookup(key: nat) returns (r: Option<T>)
      requires Valid() && key != 0
      ensures r == if key in content then Some(content[key]) else None
    {
      var h := Hashing(hash1, hash2, log);
      var ind := Place1(key, h);
      if table1[ind].key == key {
        return Some(table1[ind].data);
      }
      ind := Place2(key, h);
      if table2[ind].key == key {
        return Some(table2[ind].data);
      }
      r := None;
    }

    /** cuckoo_present */
    method Present(key: nat) returns (r: bool)
      requires Valid() && key != 0
      ensures r <==> key in content
    {
      var h := Hashing(hash1, hash2, log);
      var ind := Place1(key, h);
      if table1[ind].key == key {
        return true;
      }
      ind := Place2(key, h);
      r := table2[ind].key == key;
    }

    /** The data of a key that is there is changed, which callers do through the pointer that
        cuckoo_lookup gives them. */
    method Replace(key: nat, data: T)
      requires Valid() && key != 0 && key in content
      modifies this`content, table1, table2
      ensures Valid() && content == old(content)[key := data] && Places() == old(Places())
    {
      hide Holds, Pow2;
      var h := Hashing(hash1, hash2, log);
      ghost var t1, t2 := table1[..], table2[..];
      Absent(t1, t2, h, content, key);
      var ind := Place1(key, h);
      if table1[ind].key == key {
        Change1(t1, t2, h, content, key, data);
        table1[ind] := Cell(key, data);
        assert table1[..] == t1[ind := Cell(key, data)];
      } else {
        ind := Place2(key, h);
        Change2(t1, t2, h, content, key, data);
        table2[ind] := Cell(key, data);
        assert table2[..] == t2[ind := Cell(key, data)];
      }
      content := content[key := data];
    }

    lemma IsFormed()
      requires Valid()
      ensures Formed(Places())
    {
    }

    lemma IsHolding()
      requires Valid()
      ensures Holding(Places(), content.Keys)
    {
    }

    /** An insertion is carried out, however little fuel there is, if the key's own place is free, or the
        other place of the one who has it, or if there is at most one entry. */
    lemma {:induction false} InsertionEnds(key: nat, fuel: nat)
      requires Valid() && key != 0 && key !in content
      ensures Formed(Places())
      ensures items + 1 < size && (var c := table1[Place1(key, Hashing(hash1, hash2, log))];
                                   c.key == 0 || table2[Place2(c.key, Hashing(hash1, hash2, log))].key == 0)
              ==> Inserted(Places(), key, fuel).Some?
      ensures items <= 1 && log + 1 < MAX_LOG ==> Inserted(Places(), key, fuel).Some?
    {
      hide Place1, Place2, Inserted, Located;
      IsFormed();
      IsHolding();
      var h := Hashing(hash1, hash2, log);
      if items <= 1 && log + 1 < MAX_LOG {
        InsertedFew(Places(), content.Keys, key, fuel);
      }
      if items + 1 < size {
        var c := table1[Place1(key, h)];
        assert Places().k1[Place1(key, h)] == c.key;
        if c.key == 0 {
          InsertedFirst(Places(), key, fuel);
        } else if table2[Place2(c.key, h)].key == 0 {
          InsertedSecond(Places(), key, fuel);
        }
      }
    }

    lemma {:induction false} DeletionEnds(key: nat, fuel: nat)
      requires Valid() && key != 0 && |content - {key}| <= 1
      ensures Formed(Places()) && Deleted(Places(), key, fuel).Some?
    {
      hide Place1, Place2, Deleted, Located;
      IsFormed();
      IsHolding();
      assert content.Keys - {key} == (content - {key}).Keys;
      DeletedFew(Places(), content.Keys, key, fuel);
    }

    /** One step of the displacement loop, in the first table: the cell takes its place there. What
        was in it is free, or has to go elsewhere. */
    method Settle1(cell: Cell<T>) returns (out: Cell<T>)
      requires Valid() && items + 1 < size && cell.key != 0 && cell.key !in content
      modifies this`items, this`content, table1
      ensures Valid()
      ensures out.key == 0 ==> content == old(content)[cell.key := cell.data]
      ensures out.key != 0 ==> out.key !in content && items == old(items)
      ensures out.key != 0 ==> content[out.key := out.data] == old(content)[cell.key := cell.data]
      ensures Formed(old(Places())) && Settled1(old(Places()), cell.key) == Put(Places(), out.key)
    {
      hide Holds, Pow2, Place1, Place2, KeysOf;
      var h := Hashing(hash1, hash2, log);
      Bounds(table1[..], table2[..], h, content);
      var ind := Place1(cell.key, h);
      Put1(table1[..], table2[..], h, content, cell);
      KeysOfUpdate(table1[..], ind, cell);
      KeysOfLength(table2[..]);
      out := table1[ind];
      ghost var kept := Without(content, out);
      SizeWith(kept, cell.key, cell.data);
      if out.key == 0 {
        items := items + 1;
      } else {
        SizeWithout(content, out.key);
      }
      table1[ind] := cell;
      content := kept[cell.key := cell.data];
      assert table1[..] == old(table1[..])[ind := cell];
    }

    /** The same step in the second table. */
    method Settle2(cell: Cell<T>) returns (out: Cell<T>)
      requires Valid() && items + 1 < size && cell.key != 0 && cell.key !in content
      modifies this`items, this`content, table2
      ensures Valid()
      ensures out.key == 0 ==> content == old(content)[cell.key := cell.data]
      ensures out.key != 0 ==> out.key !in content && items == old(items)
      ensures out.key != 0 ==> content[out.key := out.data] == old(content)[cell.key := cell.data]
      ensures Formed(old(Places())) && Settled2(old(Places()), cell.key) == Put(Places(), out.key)
    {
      hide Holds, Pow2, Place1, Place2, KeysOf;
      var h := Hashing(hash1, hash2, log);
      Bounds(table1[..], table2[..], h, content);
      var ind := Place2(cell.key, h);
      Put2(table1[..], table2[..], h, content, cell);
      KeysOfUpdate(table2[..], ind, cell);
      KeysOfLength(table1[..]);
      out := table2[ind];
      ghost var kept := Without(content, out);
      SizeWith(kept, cell.key, cell.data);
      if out.key == 0 {
        items := items + 1;
      } else {
        SizeWithout(content, out.key);
      }
      table2[ind] := cell;
      content := kept[cell.key := cell.data];
      assert table2[..] == old(table2[..])[ind := cell];
    }

    /** The displacement loop of cuckoo_insert: the cell goes to its place, what was there goes to its
        other place, and so on. A cell is left over if that does not end soon enough. */
    method Displace(cell: Cell<T>) returns (left: Cell<T>)
      requires Valid() && items + 1 < size && cell.key != 0 && cell.key !in content
      modifies this`items, this`content, table1, table2
      ensures Valid()
      ensures left.key == 0 ==> content == old(content)[cell.key := cell.data]
      ensures left.key != 0 ==> left.key !in content && items == old(items)
      ensures left.key != 0 ==> content[left.key := left.data] == old(content)[cell.key := cell.data]
      ensures Formed(old(Places())) && Rounds(old(Places()), cell.key, log * 3) == Put(Places(), left.key)
      ensures left.key != 0 <==> Wanders(old(Places()), cell.key, 6 * log)
    {
      hide Settled1, Settled2, Wanders;
      left := cell;
      var i := 0;
      IsFormed();
      LeftOver(Places(), cell.key, log * 3);
      while i < log * 3 && left.key != 0
        invariant i <= log * 3 && log == old(log) && Formed(Places())
        invariant Rounds(Places(), left.key, log * 3 - i) == Rounds(old(Places()), cell.key, log * 3)
        invariant Valid() && (left.key != 0 ==> items == old(items))
        invariant left.key == 0 ==> content == old(content)[cell.key := cell.data]
        invariant left.key != 0 ==> left.key !in content
                                    && content[left.key := left.data] == old(content)[cell.key := cell.data]
      {
        left := Settle1(left);
        if left.key != 0 {
          left := Settle2(left);
        }
        i := i + 1;
      }
    }

    /** cuckoo_move: every entry is inserted in a table large enough never to grow on the way. */
    method MoveTo(cun: Table<T>, fuel: nat) returns (ok: bool)
      requires Valid() && cun.Valid() && cun.content == map[] && items < cun.size
      requires cun != this && {table1, table2} !! {cun.table1, cun.table2}
      modifies cun, cun.table1, cun.table2
      ensures cun.Valid() && cun.Reallocated() && cun.log == old(cun.log)
      ensures ok ==> cun.content == content
      ensures Formed(Places()) && Formed(old(cun.Places()))
      ensures Transfer(Places().k1, Places().k2, 0, old(cun.Places()), fuel) == if ok then Some(cun.Places()) else None
      decreases fuel, 2, 1
    {
      hide Holds, Pow2, CarriedOver, Transfer, TransferKey, Formed, KeysOf;
      var h := Hashing(hash1, hash2, log);
      IsFormed();
      cun.IsFormed();
      ghost var t1, t2, to := table1[..], table2[..], cun.Places();
      ghost var k1, k2 := KeysOf(t1), KeysOf(t2);
      Bounds(t1, t2, h, content);
      KeysOfLength(t1);
      KeysOfLength(t2);
      MovedEnds(t1, t2, h, content);
      MovedNone(t1, t2, h, content);
      var i := 0;
      while i < size
        invariant i <= size && cun.Valid() && cun.Reallocated() && cun.log == old(cun.log)
        invariant cun.content == CarriedOver(t1, t2, h, content, i, i)
        invariant Formed(cun.Places()) && Transfer(k1, k2, i, cun.Places(), fuel) == Transfer(k1, k2, 0, to, fuel)
      {
        TransferNext(k1, k2, i, cun.Places(), fuel);
        KeysOfAt(t1, i);
        KeysOfAt(t2, i);
        MovedWithin(t1, t2, h, content, i, i);
        MovedWithin(t1, t2, h, content, i + 1, i);
        Occupied(t1, t2, h, content, i);
        MovedNext1(t1, t2, h, content, i);
        MovedNext2(t1, t2, h, content, i);
        if table1[i].key != 0 {
          ok := MoveCell(cun, table1[i], fuel);
          if !ok { return; }
        }
        if table2[i].key != 0 {
          ok := MoveCell(cun, table2[i], fuel);
          if !ok { return; }
        }
        i := i + 1;
      }
      TransferDone(k1, k2, cun.Places(), fuel);
      ok := true;
    }

    /** One insertion of cuckoo_move. */
    method MoveCell(cun: Table<T>, cell: Cell<T>, fuel: nat) returns (ok: bool)
      requires cun.Valid() && Valid() && items < cun.size && cun.content.Keys <= content.Keys
      requires cell.key != 0 && cell.key in content && cell.key !in cun.content
      requires cun != this && {table1, table2} !! {cun.table1, cun.table2}
      modifies cun, cun.table1, cun.table2
      ensures cun.Valid() && cun.Reallocated() && cun.log == old(cun.log)
      ensures ok ==> cun.content == old(cun.content)[cell.key := cell.data]
      ensures Formed(old(cun.Places())) && (ok ==> Formed(cun.Places()))
      ensures TransferKey(cell.key, old(cun.Places()), fuel) == if ok then Some(cun.Places()) else None
      decreases fuel, 2, 0
    {
      hide Holds, Pow2, Inserted;
      cun.IsFormed();
      PartIsSmaller(cun.content, content, cell.key);
      var r := cun.Insert(cell.key, cell.data, fuel);
      cun.IsFormed();
      ok := r.Done?;
    }

    /** cuckoo_rehash: the same entries in new tables of the given size, with other hash functions. */
    method Rehash(log': nat, fuel: nat) returns (ok: bool)
      requires Valid() && log' < MAX_LOG && items < Pow2(log')
      modifies this
      ensures Valid() && content == old(content) && Reallocated()
      ensures log == if ok then log' else old(log)
      ensures ok ==> fresh(table1) && fresh(table2)
      ensures !ok ==> unchanged(this)
      ensures Formed(old(Places())) && Rehashed(old(Places()), log', fuel) == if ok then Some(Places()) else None
      decreases fuel, 3
    {
      hide Holds, Pow2, Transfer;
      var cun := new Table<T>(log');
      ghost var was := Hashing(cun.hash1, cun.hash2, log');
      cun.SetSeed(seed);
      EmptyHolds(cun.table1[..], cun.table2[..], was, Hashing(cun.hash1, cun.hash2, log'));
      ok := MoveTo(cun, fuel);
      if ok {
        Become(cun);
      }
    }

    method Become(cun: Table<T>)
      requires cun.Valid()
      modifies this
      ensures Valid() && content == cun.content && log == cun.log
      ensures table1 == cun.table1 && table2 == cun.table2 && Places() == cun.Places()
    {
      hide Holds, Pow2;
      table1, table2, seed, hash1, hash2 := cun.table1, cun.table2, cun.seed, cun.hash1, cun.hash2;
      size, items, log, content := cun.size, cun.items, cun.log, cun.content;
    }

    /** cuckoo_insert: a new key is added, whatever has to move or grow for it. */
    method Insert(key: nat, data: T, fuel: nat) returns (r: Outcome)
      requires Valid()
      modifies this, table1, table2
      ensures Valid() && Reallocated()
      ensures r == Rejected <==> key == 0 || key in old(content)
      ensures r == Rejected ==> unchanged(this) && unchanged(table1) && unchanged(table2)
      ensures r == Done ==> content == old(content)[key := data] && items == old(items) + 1
      ensures r == Done ==> log == if old(size) - 1 <= old(items) then old(log) + 1 else old(log)
      ensures old(items) + 1 < old(size) ==> log == old(log)
      ensures r == Done && Sized(old(log), old(items)) ==> Sized(log, items)
      ensures Formed(old(Places()))
      ensures r != Rejected ==> Inserted(old(Places()), key, fuel) == if r == Done then Some(Places()) else None
      ensures old(items) + 1 < old(size)
              && old(var c := table1[Place1(key, Hashing(hash1, hash2, log))];
                     c.key == 0 || table2[Place2(c.key, Hashing(hash1, hash2, log))].key == 0)
              ==> r != Halted
      ensures old(items) <= 1 && old(log) < 29 ==> r != Halted
      ensures r != Rejected && old(size) - 1 <= old(items) && old(log) >= 29 ==> r == Halted
      decreases fuel, if Grows(Places()) then 4 else 1
    {
      hide Holds, Pow2, Sized, Rehashed, Placed, Place1, Place2;
      IsFormed();
      if Sized(log, items) {
        SizedByInsert(log, items);
      }
      if key == 0 {
        return Rejected;
      }
      var present := Present(key);
      if present {
        return Rejected;
      }
      SizeWith(content, key, data);
      InsertionEnds(key, fuel);
      if size - 1 <= items {
        if log + 1 >= MAX_LOG {
          return Halted;
        }
        Pow2Next(log);
        var grown := Rehash(log + 1, fuel);
        if !grown {
          return Halted;
        }
      }
      r := Place(key, data, fuel);
    }

    /** The rest of cuckoo_insert, when the table is large enough. */
    method Place(key: nat, data: T, fuel: nat) returns (r: Outcome)
      requires Valid() && items + 1 < size && key != 0 && key !in content
      modifies this, table1, table2
      ensures Valid() && Reallocated() && log == old(log) && r != Rejected
      ensures r == Done ==> content == old(content)[key := data] && items == old(items) + 1
      ensures Formed(old(Places()))
      ensures Placed(old(Places()), key, fuel) == if r == Done then Some(Places()) else None
      decreases fuel, 0
    {
      hide Holds, Pow2, Sized, Rehashed, Rounds;
      IsFormed();
      SizeWith(content, key, data);
      var left := Displace(Cell(key, data));
      Bounds(table1[..], table2[..], Hashing(hash1, hash2, log), content);
      if left.key == 0 {
        return Done;
      }
      if fuel == 0 {
        return Halted;
      }
      var again := Rehash(log, fuel - 1);
      if !again {
        return Halted;
      }
      r := Insert(left.key, left.data, fuel - 1);
    }

    /** The first half of cuckoo_delete: both places of the key are looked at and freed. */
    method Clear(key: nat)
      requires Valid() && key != 0
      modifies this`items, this`content, table1, table2
      ensures Valid() && content == old(content) - {key}
      ensures items == if key in old(content) then old(items) - 1 else old(items)
      ensures log == old(log) && Formed(old(Places())) && Places() == Cleared(old(Places()), key)
    {
      hide Holds, Pow2;
      var h := Hashing(hash1, hash2, log);
      ghost var t1, t2 := table1[..], table2[..];
      Absent(t1, t2, h, content, key);
      if key in content {
        SizeWithout(content, key);
      }
      var ind := Place1(key, h);
      if table1[ind].key == key {
        Free1(t1, t2, h, content, key);
        items := items - 1;
        table1[ind] := table1[ind].(key := 0);
        assert table1[..] == t1[ind := t1[ind].(key := 0)];
        content := content - {key};
      }
      Absent(table1[..], t2, h, content, key);
      ind := Place2(key, h);
      if table2[ind].key == key {
        Free2(table1[..], t2, h, content, key);
        items := items - 1;
        table2[ind] := table2[ind].(key := 0);
        assert table2[..] == t2[ind := t2[ind].(key := 0)];
        content := content - {key};
      }
      assert content == old(content) - {key};
    }

    /** cuckoo_delete: the key goes, if it is there, and the table shrinks when it has become too
        large for what is left. */
    method Delete(key: nat, fuel: nat) returns (ok: bool)
      requires Valid() && key != 0 && (log > 0 || content != map[])
      modifies this, table1, table2
      ensures Valid() && Reallocated() && content == old(content) - {key}
      ensures ok ==> log == if items < Pow2(old(log) - 1) then old(log) - 1 else old(log)
      ensures ok && Sized(old(log), old(items)) && old(items) > 0 ==> Sized(log, items)
      ensures |old(content) - {key}| <= 1 ==> ok
      ensures Formed(old(Places())) && Deleted(old(Places()), key, fuel) == if ok then Some(Places()) else None
    {
      hide Holds, Pow2, Sized, Cleared, Rehashed;
      Bounds(table1[..], table2[..], Hashing(hash1, hash2, log), content);
      if Sized(log, items) && items > 0 {
        SizedByDelete(log, items);
      }
      if content != map[] {
        NotEmpty(content, log);
      }
      if |content - {key}| <= 1 {
        DeletionEnds(key, fuel);
      }
      Clear(key);
      if items < Pow2(log - 1) {
        ok := Rehash(log - 1, fuel);
      } else {
        ok := true;
      }
    }
  }

  /** What Insert and Delete make of `log` keeps it the number of binary digits of `items`. */
  lemma SizedByInsert(log: nat, items: nat)
    requires Sized(log, items)
    ensures items < Pow2(log) && Sized(if Pow2(log) - 1 <= items then log + 1 else log, items + 1)
  {
  }

  lemma SizedByDelete(log: nat, items: nat)
    requires Sized(log, items) && items > 0
    ensures log > 0 && Sized(if items - 1 < Pow2(log - 1) then log - 1 else log, items - 1)
    ensures !(items < Pow2(log - 1))
  {
  }
}
