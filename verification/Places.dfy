/** Where the keys of a cuckoo table go: the top bits of a product with an odd multiplier. */
module Places {
  import Basics

  const WORD := 0x1_0000_0000

  /** The logarithm of a table's size stays below this; the program stops otherwise. */
  const MAX_LOG := 30

  function Pow2(n: nat): (p: nat)
    ensures p > 0
  {
    if n == 0 then 1 else 2 * Pow2(n - 1)
  }

  lemma Pow2Next(n: nat)
    ensures Pow2(n + 1) == 2 * Pow2(n)
  {
  }

  /** A product of 32-bit words. */
  function Product(b: nat, x: nat): nat {
    b * x % Pow2(32)
  }

  function Quotient(n: nat, d: nat): nat
    requires d > 0
  {
    n / d
  }

  /** cuckoo_index: the top bits of a product of 32-bit words. */
  function Index(x: nat, b: nat, log: nat): nat
    requires log <= 32
  {
    if log == 0 then 0 else Quotient(Product(b, x), Pow2(32 - log))
  }

  lemma {:induction false} Pow2Sum(m: nat, n: nat)
    ensures Pow2(m) * Pow2(n) == Pow2(m + n)
    decreases m
  {
    if m > 0 {
      Pow2Sum(m - 1, n);
      assert Pow2(m) * Pow2(n) == 2 * (Pow2(m - 1) * Pow2(n));
    }
  }

  lemma {:induction false} Pow2Word()
    ensures Pow2(32) == WORD
  {
    assert Pow2(8) == 256;
    assert Pow2(16) == 65536 by { Pow2Sum(8, 8); }
    Pow2Sum(16, 16);
  }

  lemma {:induction false} QuotientBelow(x: nat, d: nat, q: nat)
    requires d > 0 && x < d * q
    ensures x / d < q
  {
    assert d * (x / d) <= x;
    if q <= x / d {
      Basics.MulMonotone(q, x / d, d);
    }
  }

  lemma {:induction false} IndexBelow(x: nat, b: nat, log: nat)
    requires log <= 32
    ensures Index(x, b, log) < Pow2(log)
  {
    if log > 0 {
      Pow2Word();
      Pow2Sum(32 - log, log);
      QuotientBelow(Product(b, x), Pow2(32 - log), Pow2(log));
    }
  }

  /** A product of 32-bit words keeps what is left of it below 2^32. */
  lemma {:induction false} ProductIs(b: nat, x: nat) returns (q: nat)
    ensures b * x == 0x1_0000_0000 * q + Product(b, x) && Product(b, x) < 0x1_0000_0000
  {
    Pow2Word();
    q := b * x / Pow2(32);
    Divided(b * x, Pow2(32));
  }

  lemma {:induction false} QuotientBounds(n: nat, d: nat)
    requires d > 0
    ensures Quotient(n, d) * d <= n < (Quotient(n, d) + 1) * d
  {
    Divided(n, d);
  }

  /** The index is the product without its low bits. */
  lemma {:induction false} IndexIsTop(x: nat, b: nat, log: nat)
    requires 0 < log <= 32
    ensures var i, unit := Index(x, b, log), Pow2(32 - log); i * unit <= Product(b, x) < (i + 1) * unit
  {
    hide Quotient, Product, Pow2;
    QuotientBounds(Product(b, x), Pow2(32 - log));
  }

  predicate OddWord(b: nat) {
    b < WORD && b % 2 == 1
  }

  lemma {:induction false} OddBelow(r: nat)
    ensures OddWord((r * 2 + 1) % WORD)
  {
    assert WORD % 2 == 0;
  }

  lemma TimesTwice(a: int, b: int)
    ensures (2 * a) * b == 2 * (a * b) && a * (2 * b) == 2 * (a * b)
  {
  }

  lemma TimesOdd(c: int, d: int)
    ensures (2 * c + 1) * d == 2 * (c * d) + d
  {
  }

  /** An odd factor adds no factor of two. */
  lemma {:induction false} OddFactor(b: nat, d: int, n: nat, q: int) returns (q': int)
    requires b % 2 == 1 && b * d == Pow2(n) * q
    ensures d == Pow2(n) * q'
    decreases n
  {
    if n == 0 {
      q' := d;
    } else {
      var half := Pow2(n - 1) * q;
      TimesTwice(Pow2(n - 1), q);
      TimesOdd(b / 2, d);
      var e := half - b / 2 * d;
      assert d == 2 * e;
      TimesTwice(b, e);
      q' := OddFactor(b, e, n - 1, q);
      TimesTwice(Pow2(n - 1), q');
    }
  }

  /** With an odd multiplier no two keys of 32 bits have the same product, so what puts two of them in
      one place is only that the low bits are dropped. */
  lemma {:induction false} OddProducts(b: nat, x: nat, y: nat)
    requires OddWord(b) && x < WORD && y < WORD && Product(b, x) == Product(b, y)
    ensures x == y
  {
    Pow2Word();
    var m := Pow2(32);
    var q := b * x / m - b * y / m;
    Divided(b * x, m);
    Divided(b * y, m);
    Apart(b, x, y);
    Apart(m, b * x / m, b * y / m);
    var q' := OddFactor(b, x - y, 32, q);
    assert x - y == m * q';
    SmallMultiple(x - y, q');
  }

  lemma Divided(n: nat, m: nat)
    requires m > 0
    ensures n == m * (n / m) + n % m
  {
  }

  lemma Apart(b: int, x: int, y: int)
    ensures b * (x - y) == b * x - b * y
  {
  }

  lemma SmallMultiple(d: int, q: int)
    requires d == WORD * q && -WORD < d < WORD
    ensures d == 0
  {
  }

  /** The multipliers and the size that decide the places. */
  datatype Hashing = Hashing(hash1: nat, hash2: nat, log: nat)

  function Place1(k: nat, h: Hashing): (i: nat)
    requires h.log < MAX_LOG
    ensures i < Pow2(h.log)
  {
    IndexBelow(k, h.hash1, h.log);
    Index(k, h.hash1, h.log)
  }

  function Place2(k: nat, h: Hashing): (i: nat)
    requires h.log < MAX_LOG
    ensures i < Pow2(h.log)
  {
    IndexBelow(k, h.hash2, h.log);
    Index(k, h.hash2, h.log)
  }
}
