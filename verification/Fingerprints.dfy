/** What the digest of a listing is taken of: bytes from which the listing can be told. */
module Fingerprints {
  import opened Scan
  import opened Cycles
  import Md5
  import Basics

  /** A name as the program keeps it: bytes, none of them zero. */
  predicate Chars(s: string) {
    forall i :: 0 <= i < |s| ==> 0 < s[i] as int < 256
  }

  predicate Storable(p: Plain) {
    Chars(p.name) && p.size < 0x1_0000_0000_0000_0000
  }

  predicate AllStorable(ps: seq<Plain>) {
    forall p :: p in ps ==> Storable(p)
  }

  // A byte is told by its number: one lemma for each 32 of them, which the verifier takes bit by bit.

  lemma Back0(x: int)
    requires 0 <= x < 32
    ensures (x as Md5.Byte) as int == x
  {
  }

  lemma Back32(x: int)
    requires 32 <= x < 64
    ensures (x as Md5.Byte) as int == x
  {
  }

  lemma Back64(x: int)
    requires 64 <= x < 96
    ensures (x as Md5.Byte) as int == x
  {
  }

  lemma Back96(x: int)
    requires 96 <= x < 128
    ensures (x as Md5.Byte) as int == x
  {
  }

  lemma Back128(x: int)
    requires 128 <= x < 160
    ensures (x as Md5.Byte) as int == x
  {
  }

  lemma Back160(x: int)
    requires 160 <= x < 192
    ensures (x as Md5.Byte) as int == x
  {
  }

  lemma Back192(x: int)
    requires 192 <= x < 224
    ensures (x as Md5.Byte) as int == x
  {
  }

  lemma Back224(x: int)
    requires 224 <= x < 256
    ensures (x as Md5.Byte) as int == x
  {
  }

  lemma {:induction false} ByteBack(x: int)
    requires 0 <= x < 256
    ensures (x as Md5.Byte) as int == x
  {
    if x < 32 {
      Back0(x);
    } else if x < 64 {
      Back32(x);
    } else if x < 96 {
      Back64(x);
    } else if x < 128 {
      Back96(x);
    } else if x < 160 {
      Back128(x);
    } else if x < 192 {
      Back160(x);
    } else if x < 224 {
      Back192(x);
    } else {
      Back224(x);
    }
  }

  lemma {:induction false} ByteSame(x: int, y: int)
    requires 0 <= x < 256 && 0 <= y < 256 && x as Md5.Byte == y as Md5.Byte
    ensures x == y
  {
    ByteBack(x);
    ByteBack(y);
  }

  // ---------------------------------------------------------------- numbers

  function Span(k: nat): (s: nat)
    ensures s > 0
  {
    if k == 0 then 1 else 256 * Span(k - 1)
  }

  lemma {:induction false} InMemoryTells(m: nat, n: nat, k: nat)
    requires m < Span(k) && n < Span(k) && Md5.InMemory(m, k) == Md5.InMemory(n, k)
    ensures m == n
    decreases k
  {
    if k > 0 {
      var x, y := Md5.InMemory(m, k), Md5.InMemory(n, k);
      assert x[0] == y[0] && x[1..] == y[1..];
      assert x[1..] == Md5.InMemory(m / 256, k - 1) && y[1..] == Md5.InMemory(n / 256, k - 1);
      ByteSame(m % 256, n % 256);
      InMemoryTells(m / 256, n / 256, k - 1);
    }
  }

  lemma EightBytes()
    ensures Span(8) == 0x1_0000_0000_0000_0000
  {
    assert Span(2) == 0x1_0000 && Span(4) == 0x1_0000_0000 && Span(6) == 0x1_0000_0000_0000;
  }

  // ---------------------------------------------------------------- names

  lemma {:induction false} NotZero(s: string)
    requires Chars(s) && s != []
    ensures Md5.Bytes(s)[0] != 0
  {
    ByteBack(s[0] as int);
  }

  /** The closing zero tells where a name ends. */
  lemma {:induction false} NameTells(a: string, b: string, x: seq<Md5.Byte>, y: seq<Md5.Byte>)
    requires Chars(a) && Chars(b) && Md5.Bytes(a) + [0] + x == Md5.Bytes(b) + [0] + y
    ensures a == b && x == y
    decreases |a|
  {
    var u, v := Md5.Bytes(a) + [0] + x, Md5.Bytes(b) + [0] + y;
    assert u[0] == v[0];
    if a != [] {
      NotZero(a);
    }
    if b != [] {
      NotZero(b);
    }
    if a == [] {
      assert u[1..] == x && v[1..] == y;
    } else {
      assert u[0] == Md5.Bytes(a)[0] && v[0] == Md5.Bytes(b)[0];
      ByteSame(a[0] as int, b[0] as int);
      assert Md5.Bytes(a)[1..] == Md5.Bytes(a[1..]) && Md5.Bytes(b)[1..] == Md5.Bytes(b[1..]);
      assert u[1..] == Md5.Bytes(a[1..]) + [0] + x && v[1..] == Md5.Bytes(b[1..]) + [0] + y;
      NameTells(a[1..], b[1..], x, y);
      assert a == [a[0]] + a[1..] && b == [b[0]] + b[1..];
    }
  }

  // ---------------------------------------------------------------- listings

  lemma {:induction false} EntryTells(p: Plain, q: Plain, x: seq<Md5.Byte>, y: seq<Md5.Byte>)
    requires Storable(p) && Storable(q) && EntryBytes(p) + x == EntryBytes(q) + y
    ensures p == q && x == y
  {
    hide Md5.InMemory, Span;
    var m, n := Md5.InMemory(p.size, 8), Md5.InMemory(q.size, 8);
    assert EntryBytes(p) + x == Md5.Bytes(p.name) + [0] + (m + x);
    assert EntryBytes(q) + y == Md5.Bytes(q.name) + [0] + (n + y);
    NameTells(p.name, q.name, m + x, n + y);
    assert m == (m + x)[..8] && n == (n + y)[..8] && x == (m + x)[8..] && y == (n + y)[8..];
    EightBytes();
    InMemoryTells(p.size, q.size, 8);
  }

  lemma {:induction false} EntriesConcat(a: seq<Plain>, b: seq<Plain>)
    ensures EntriesBytes(a + b) == EntriesBytes(a) + EntriesBytes(b)
    decreases |b|
  {
    hide EntryBytes;
    if b == [] {
      assert a + b == a;
    } else {
      var n := |b| - 1;
      assert (a + b)[..|a + b| - 1] == a + b[..n];
      EntriesConcat(a, b[..n]);
    }
  }

  lemma {:induction false} EntriesFirst(ps: seq<Plain>)
    requires ps != []
    ensures EntriesBytes(ps) == EntryBytes(ps[0]) + EntriesBytes(ps[1..]) && |EntryBytes(ps[0])| > 0
  {
    hide Md5.InMemory;
    assert ps == [ps[0]] + ps[1..] && [ps[0]][..0] == [];
    EntriesConcat([ps[0]], ps[1..]);
    assert EntriesBytes([ps[0]]) == EntryBytes(ps[0]);
  }

  lemma {:induction false} EntriesTell(a: seq<Plain>, b: seq<Plain>)
    requires AllStorable(a) && AllStorable(b) && EntriesBytes(a) == EntriesBytes(b)
    ensures a == b
    decreases |a|
  {
    hide EntryBytes, Storable;
    if a != [] {
      EntriesFirst(a);
    }
    if b != [] {
      EntriesFirst(b);
    }
    if a != [] && b != [] {
      EntryTells(a[0], b[0], EntriesBytes(a[1..]), EntriesBytes(b[1..]));
      EntriesTell(a[1..], b[1..]);
      assert a == [a[0]] + a[1..] && b == [b[0]] + b[1..];
    }
  }

  function Whole(folder: Folder): seq<Plain> {
    LinkPlains(folder.links) + folder.files
  }

  /** Two listings give the same bytes exactly if they have the same names and sizes in the same order,
      where a subdirectory is not told from a file of size 0. */
  lemma {:induction false} ListingsTell(a: Folder, b: Folder)
    requires AllStorable(Whole(a)) && AllStorable(Whole(b))
    ensures var x := EntriesBytes(LinkPlains(a.links)) + EntriesBytes(a.files);
            var y := EntriesBytes(LinkPlains(b.links)) + EntriesBytes(b.files);
            x == y <==> Whole(a) == Whole(b)
    ensures LevelOf(a).hash == Md5.Digest(EntriesBytes(Whole(a)))
  {
    hide EntriesBytes, LinkPlains, Storable, Md5.Digest;
    EntriesConcat(LinkPlains(a.links), a.files);
    EntriesConcat(LinkPlains(b.links), b.files);
    if EntriesBytes(Whole(a)) == EntriesBytes(Whole(b)) {
      EntriesTell(Whole(a), Whole(b));
    }
  }
}
