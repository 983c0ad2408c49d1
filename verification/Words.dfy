/** Words of 32 bits, and what rotating and mixing them does. */
module Words {
  import opened Places
  import Basics

  type Word = bv32

  // Section 3.4 of RFC 1321.
  function F(x: Word, y: Word, z: Word): Word { (x & y) | (!x & z) }
  function G(x: Word, y: Word, z: Word): Word { (x & z) | (y & !z) }
  function H(x: Word, y: Word, z: Word): Word { x ^ y ^ z }
  function I(x: Word, y: Word, z: Word): Word { y ^ (x | !z) }

  /** umd5_rol */
  function Rol(val: Word, shift: bv6): Word
    requires shift <= 32
  {
    (val << shift) | (val >> (32 - shift))
  }

  /** On any bits where the first word has ones F is the second, on any where it has zeros the third. */
  lemma ChoiceF(x: Word, y: Word, z: Word, bits: Word)
    ensures x & bits == bits ==> F(x, y, z) & bits == y & bits
    ensures x & bits == 0 ==> F(x, y, z) & bits == z & bits
  {
  }

  /** Where the third word has ones G is the first, where it has zeros the second. */
  lemma ChoiceG(x: Word, y: Word, z: Word, bits: Word)
    ensures z & bits == bits ==> G(x, y, z) & bits == x & bits
    ensures z & bits == 0 ==> G(x, y, z) & bits == y & bits
  {
  }

  /** Where the first two words agree H is the third, where they differ its complement. */
  lemma ChoiceH(x: Word, y: Word, z: Word, bits: Word)
    ensures x & bits == y & bits ==> H(x, y, z) & bits == z & bits
    ensures x & bits == !y & bits ==> H(x, y, z) & bits == !z & bits
  {
  }

  /** Where the first word has ones or the third zeros I is the complement of the second, elsewhere the second. */
  lemma ChoiceI(x: Word, y: Word, z: Word, bits: Word)
    ensures x & bits == bits || z & bits == 0 ==> I(x, y, z) & bits == !y & bits
    ensures x & bits == 0 && z & bits == bits ==> I(x, y, z) & bits == y & bits
  {
  }

  // ---------------------------------------------------------------- rotating by one bit more

  lemma ShiftLeft(x: Word, s: bv6)
    requires s < 32
    ensures (x << s) << 1 == x << (s + 1)
  {
  }

  lemma ShiftRight(x: Word, s: bv6)
    requires s < 32
    ensures x >> (31 - s) == ((x >> (32 - s)) << 1) | ((x << s) >> 31)
    ensures (x >> (32 - s)) >> 31 == 0
  {
  }

  lemma ShiftBoth(a: Word, b: Word)
    ensures (a | b) << 1 == (a << 1) | (b << 1)
    ensures (a | b) >> 31 == (a >> 31) | (b >> 31)
  {
  }

  lemma Joined(a: Word, b: Word, c: Word)
    ensures (a | b) | (c | 0) == a | (b | c)
  {
  }

  lemma {:induction false} RolOneMore(x: Word, s: bv6)
    requires s < 32
    ensures Rol(x, s + 1) == Rol(Rol(x, s), 1)
  {
    var a, b := x << s, x >> (32 - s);
    ShiftLeft(x, s);
    ShiftRight(x, s);
    ShiftBoth(a, b);
    Joined(a << 1, b << 1, a >> 31);
  }

  lemma RolNothing(x: Word)
    ensures Rol(x, 0) == x
  {
  }

  lemma ShiftBefore(s: bv6)
    requires 0 < s < 32
    ensures s as nat <= 32 && (s - 1) as nat == s as nat - 1
  {
  }

  // ---------------------------------------------------------------- the numbers

  predicate Odd(w: Word) { w & 1 == 1 }
  function Half(w: Word): Word { w >> 1 }
  predicate Meets(w: Word, mask: Word) { w & mask != 0 }
  function Below(w: Word, mask: Word): Word { w & (mask - 1) }

  /** The number that the lowest `n` bits of a word stand for. */
  function Low(w: Word, n: nat): (v: nat)
    ensures v < Pow2(n)
  {
    if n == 0 then 0 else (if Odd(w) then 1 else 0) + 2 * Low(Half(w), n - 1)
  }

  /** The word whose only 1 is at place `k`. */
  function Single(k: bv6): Word
    requires k < 32
  {
    1 << k
  }

  lemma SingleHalf(k: bv6)
    requires 0 < k < 32
    ensures Half(Single(k)) == Single(k - 1) && !Odd(Single(k)) && Single(k) != 0
  {
  }

  lemma SingleEnds()
    ensures Single(0) == 1 && Single(31) == 0x8000_0000
  {
  }

  lemma Halved(w: Word, mask: Word)
    requires !Odd(mask) && mask != 0
    ensures Meets(w, mask) == Meets(Half(w), Half(mask))
    ensures Odd(Below(w, mask)) == Odd(w)
    ensures Half(Below(w, mask)) == Below(Half(w), Half(mask))
  {
  }

  lemma Lowest(w: Word)
    ensures Meets(w, 1) == Odd(w)
  {
  }

  lemma {:induction false} TopBit(w: Word, k: bv6)
    requires k < 32
    ensures Low(w, k as nat + 1) == Low(Below(w, Single(k)), k as nat) + if Meets(w, Single(k)) then Pow2(k as nat)
                                    else 0
    decreases k
  {
    hide Odd, Half, Meets, Below, Single;
    if k == 0 {
      SingleEnds();
      Lowest(w);
    } else {
      ShiftBefore(k);
      SingleHalf(k);
      Halved(w, Single(k));
      TopBit(Half(w), k - 1);
    }
  }

  lemma RolOneParts(x: Word)
    ensures Odd(Rol(x, 1)) == Meets(x, 0x8000_0000)
    ensures Half(Rol(x, 1)) == Below(x, 0x8000_0000)
  {
  }

  /** Rotating by one bit doubles the number, and the top bit becomes the lowest. */
  lemma {:induction false} RolOneLow(x: Word)
    ensures var rest := Low(Below(x, 0x8000_0000), 31);
            var top := if Meets(x, 0x8000_0000) then 1 else 0;
            Low(x, 32) == rest + top * Pow2(31) && Low(Rol(x, 1), 32) == 2 * rest + top
  {
    hide Odd, Half, Meets, Below, Single, Rol, Pow2;
    RolOneParts(x);
    SingleEnds();
    TopBit(x, 31);
  }

  // ---------------------------------------------------------------- rotating as arithmetic

  lemma {:induction false} Remainder(r: nat, m: nat, k: nat)
    requires r < m
    ensures (m * k + r) / m == k && (m * k + r) % m == r
  {
    var n := m * k + r;
    Divided(n, m);
    if n / m < k {
      Basics.MulMonotone(n / m + 1, k, m);
    } else if k < n / m {
      Basics.MulMonotone(k + 1, n / m, m);
    }
  }

  /** A number cut at `p` and one cut at `2 * p`. */
  lemma {:induction false} CutLower(v: nat, p: nat)
    requires p > 0
    ensures v / (2 * p) == v / p / 2 && v % (2 * p) == v % p + p * (v / p % 2)
  {
    var h, a := v / p, v % p;
    Divided(v, p);
    CutParts(p, h, a);
    Remainder(a + p * (h % 2), 2 * p, h / 2);
  }

  lemma CutParts(p: nat, h: nat, a: nat)
    requires a < p
    ensures p * h + a == 2 * p * (h / 2) + (a + p * (h % 2)) && a + p * (h % 2) < 2 * p
  {
  }

  lemma {:induction false} TurnStep(v: nat, p: nat, q: nat, rest: nat, top: nat)
    requires p > 0 && q > 0 && v < 2 * p * q && rest < p * q && top <= 1
    requires v % (2 * p) * q + v / (2 * p) == rest + top * (p * q)
    ensures 2 * rest + top == v % p * (2 * q) + v / p
  {
    var h, a := v / p, v % p;
    CutLower(v, p);
    Divided(v, 2 * p);
    QuotientBelow(v, 2 * p, q);
    SameParts(a, h, p, q, rest, top);
  }

  lemma {:induction false} SameParts(a: nat, h: nat, p: nat, q: nat, rest: nat, top: nat)
    requires a < p && h / 2 < q && rest < p * q && top <= 1
    requires (a + p * (h % 2)) * q + h / 2 == rest + top * (p * q)
    ensures 2 * rest + top == a * (2 * q) + h
  {
    var low := a * q + h / 2;
    assert (a + p * (h % 2)) * q == a * q + p * q * (h % 2);
    Basics.MulMonotone(a + 1, p, q);
    assert low < p * q;
    assert low + p * q * (h % 2) == rest + p * q * top;
  }

  /** The number whose highest digits, those above `p`, have come in below the others. */
  function Turned(v: nat, p: nat, q: nat): nat
    requires p > 0
  {
    v % p * q + v / p
  }

  lemma {:induction false} TurnedOne(v: nat, p: nat, q: nat, rest: nat, top: nat)
    requires p > 0 && q > 0 && v < 2 * p * q && rest < p * q && top <= 1
    requires Turned(v, 2 * p, q) == rest + top * (p * q)
    ensures Turned(v, p, 2 * q) == 2 * rest + top
  {
    TurnStep(v, p, q, rest, top);
  }

  lemma {:induction false} TurnedNone(v: nat, m: nat)
    requires v < m
    ensures Turned(v, m, 1) == v
  {
    Remainder(v, m, 0);
  }

  lemma {:induction false} TurnedIs(v: nat, p: nat, q: nat)
    requires p > 0 && q > 0
    ensures p * q > 0 && Turned(v, p, q) == v * q % (p * q) + v / p
  {
    Divided(v, p);
    Multiplied(v / p, v % p, p, q);
    Remainder(v % p * q, p * q, v / p);
  }

  lemma Multiplied(h: nat, a: nat, p: nat, q: nat)
    requires a < p && 0 < q
    ensures (p * h + a) * q == p * q * h + a * q && a * q < p * q
  {
  }

  lemma {:induction false} Powers(t: nat)
    requires 0 < t < 32
    ensures Pow2(33 - t) == 2 * Pow2(32 - t) && Pow2(t) == 2 * Pow2(t - 1)
    ensures Pow2(32 - t) * Pow2(t - 1) == Pow2(31) && Pow2(32) == 2 * Pow2(32 - t) * Pow2(t - 1)
  {
    hide Pow2;
    Pow2Next(32 - t);
    Pow2Next(t - 1);
    Pow2Sum(32 - t, t - 1);
    Pow2Next(31);
    TimesTwice(Pow2(32 - t), Pow2(t - 1));
  }

  lemma {:induction false} RolTurns(x: Word, s: bv6)
    requires s < 32
    ensures s as nat <= 32
    ensures Low(Rol(x, s), 32) == Turned(Low(x, 32), Pow2(32 - s as nat), Pow2(s as nat))
    decreases s
  {
    hide Rol, Low, Pow2, Turned;
    if s == 0 {
      RolNothing(x);
      TurnedNone(Low(x, 32), Pow2(32));
      NoPower();
    } else {
      ShiftBefore(s);
      var t := s as nat;
      RolTurns(x, s - 1);
      RolOneMore(x, s - 1);
      var y := Rol(x, s - 1);
      RolOneLow(y);
      Powers(t);
      TurnedOne(Low(x, 32), Pow2(32 - t), Pow2(t - 1), Low(Below(y, 0x8000_0000), 31),
                if Meets(y, 0x8000_0000) then 1 else 0);
    }
  }

  lemma NoPower()
    ensures Pow2(0) == 1
  {
  }

  /** Rotating to the left multiplies by a power of two, and what does not fit comes in from below. */
  lemma {:induction false} RolValue(x: Word, s: bv6)
    requires s < 32
    ensures s as nat <= 32
    ensures var t, v := s as nat, Low(x, 32); Low(Rol(x, s), 32) == v * Pow2(t) % Pow2(32) + v / Pow2(32 - t)
  {
    hide Rol, Low, Pow2, Turned;
    RolTurns(x, s);
    var t := s as nat;
    Pow2Sum(32 - t, t);
    TurnedIs(Low(x, 32), Pow2(32 - t), Pow2(t));
  }
}
