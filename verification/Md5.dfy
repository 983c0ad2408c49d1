/** The streaming MD5 of the scanner against the digest of RFC 1321. */
module Md5 {
  import opened Words

  type Byte = bv8

  /** The value of a digest. */
  type Hash = seq<Byte>

  /** The size of a block, in bytes. */
  const BLOCK := 64

  datatype Regs = Regs(a: Word, b: Word, c: Word, d: Word)

  /** Section 3.3. */
  const INIT := Regs(0x67452301, 0xefcdab89, 0x98badcfe, 0x10325476)

  /** The table of section 3.4, from 4294967296 * abs(sin(i + 1)): four rows of four for each round. */
  const SINES: seq<seq<seq<Word>>> := [
    [[0xd76aa478, 0xe8c7b756, 0x242070db, 0xc1bdceee],
     [0xf57c0faf, 0x4787c62a, 0xa8304613, 0xfd469501],
     [0x698098d8, 0x8b44f7af, 0xffff5bb1, 0x895cd7be],
     [0x6b901122, 0xfd987193, 0xa679438e, 0x49b40821]],
    [[0xf61e2562, 0xc040b340, 0x265e5a51, 0xe9b6c7aa],
     [0xd62f105d, 0x02441453, 0xd8a1e681, 0xe7d3fbc8],
     [0x21e1cde6, 0xc33707d6, 0xf4d50d87, 0x455a14ed],
     [0xa9e3e905, 0xfcefa3f8, 0x676f02d9, 0x8d2a4c8a]],
    [[0xfffa3942, 0x8771f681, 0x6d9d6122, 0xfde5380c],
     [0xa4beea44, 0x4bdecfa9, 0xf6bb4b60, 0xbebfbc70],
     [0x289b7ec6, 0xeaa127fa, 0xd4ef3085, 0x04881d05],
     [0xd9d4d039, 0xe6db99e5, 0x1fa27cf8, 0xc4ac5665]],
    [[0xf4292244, 0x432aff97, 0xab9423a7, 0xfc93a039],
     [0x655b59c3, 0x8f0ccc92, 0xffeff47d, 0x85845dd1],
     [0x6fa87e4f, 0xfe2ce6e0, 0xa3014314, 0x4e0811a1],
     [0xf7537e82, 0xbd3af235, 0x2ad7d2bb, 0xeb86d391]]]

  // ---------------------------------------------------------------- section 3.4

  function Read32(m: seq<Byte>, i: nat): Word
    requires i + 4 <= |m|
  {
    (m[i] as Word) | ((m[i + 1] as Word) << 8) | ((m[i + 2] as Word) << 16) | ((m[i + 3] as Word) << 24)
  }

  function Write32(w: Word): (r: seq<Byte>)
    ensures |r| == 4
  {
    [(w & 0xff) as Byte, ((w >> 8) & 0xff) as Byte, ((w >> 16) & 0xff) as Byte, ((w >> 24) & 0xff) as Byte]
  }

  /** Low-order byte first, both ways. */
  lemma ReadWrite(w: Word)
    ensures Read32(Write32(w), 0) == w
    ensures var b := Write32(w);
            w == (b[0] as Word) + 0x100 * (b[1] as Word) + 0x1_0000 * (b[2] as Word) + 0x100_0000 * (b[3] as Word)
  {
  }

  /** The words that the sixteen operations of each round take. */
  const WORDS: seq<seq<nat>> := [
    [0, 1, 2, 3, 4, 5, 6, 7, 8, 9, 10, 11, 12, 13, 14, 15],
    [1, 6, 11, 0, 5, 10, 15, 4, 9, 14, 3, 8, 13, 2, 7, 12],
    [5, 8, 11, 14, 1, 4, 7, 10, 13, 0, 3, 6, 9, 12, 15, 2],
    [0, 7, 14, 5, 12, 3, 10, 1, 8, 15, 6, 13, 4, 11, 2, 9]]

  /** The shifts of each round; they repeat every four operations. */
  const SHIFTS: seq<seq<bv6>> := [[7, 12, 17, 22], [5, 9, 14, 20], [4, 11, 16, 23], [6, 10, 15, 21]]

  /** The word that operation `k` of a round takes, as the scanner computes it. */
  function WordOf(round: nat, k: nat): (r: nat)
    ensures r < 16
  {
    if round == 0 then k % 16 else if round == 1 then (1 + k * 5) % 16 else if round == 2 then (5 + k * 3) % 16
    else k * 7 % 16
  }

  lemma WordsAgree0(k: nat)
    requires k < 16
    ensures |WORDS[0]| == 16 && WORDS[0][k] == k % 16
  {
  }

  lemma WordsAgree1(k: nat)
    requires k < 16
    ensures |WORDS[1]| == 16 && WORDS[1][k] == (1 + k * 5) % 16
  {
  }

  lemma WordsAgree2(k: nat)
    requires k < 16
    ensures |WORDS[2]| == 16 && WORDS[2][k] == (5 + k * 3) % 16
  {
  }

  lemma WordsAgree3(k: nat)
    requires k < 16
    ensures |WORDS[3]| == 16 && WORDS[3][k] == k * 7 % 16
  {
  }

  lemma {:induction false} WordsAgree(round: nat, k: nat)
    requires round < 4 && k < 16
    ensures |WORDS[round]| == 16 && WORDS[round][k] == WordOf(round, k)
  {
    WordsAgree0(k);
    WordsAgree1(k);
    WordsAgree2(k);
    WordsAgree3(k);
  }

  lemma ShiftsSmall(round: nat, k: nat)
    requires round < 4 && k < 4
    ensures |SHIFTS[round]| == 4 && SHIFTS[round][k] <= 32
  {
  }

  function SineOf(round: nat, k: nat): Word
    requires round < 4 && k < 16
  {
    SinesRow(round, k / 4);
    SINES[round][k / 4][k % 4]
  }

  lemma SinesRow(round: nat, i: nat)
    requires round < 4 && i < 4
    ensures |SINES[round]| == 4 && |SINES[round][i]| == 4
  {
  }

  function Mix(round: nat, x: Word, y: Word, z: Word): Word {
    if round == 0 then F(x, y, z) else if round == 1 then G(x, y, z) else if round == 2 then H(x, y, z) else I(x, y, z)
  }

  /** The operation [abcd k s i]: a = b + ((a + mix(b,c,d) + X[k] + T[i]) <<< s). */
  function Operation(round: nat, a: Word, b: Word, c: Word, d: Word, x: Word, s: bv6, t: Word): Word
    requires s <= 32
  {
    b + Rol(a + Mix(round, b, c, d) + x + t, s)
  }

  /** Operation `i` of a block on the roles [abcd]. */
  function Numbered(i: nat, a: Word, b: Word, c: Word, d: Word, m: seq<Byte>): Word
    requires i < 64 && |m| == BLOCK
  {
    WordsAgree(i / 16, i % 16);
    ShiftsSmall(i / 16, i % 4);
    Operation(i / 16, a, b, c, d, Read32(m, WORDS[i / 16][i % 16] * 4), SHIFTS[i / 16][i % 4], SineOf(i / 16, i % 16))
  }

  /** The registers after `n` operations; the roles rotate from one operation to the next. */
  function Operations(n: nat, r: Regs, m: seq<Byte>): Regs
    requires n <= 64 && |m| == BLOCK
  {
    if n == 0 then r
    else
      var p := Operations(n - 1, r, m);
      Regs(p.d, Numbered(n - 1, p.a, p.b, p.c, p.d, m), p.b, p.c)
  }

  lemma {:induction false} FourOperations(n: nat, r: Regs, m: seq<Byte>)
    requires n + 4 <= 64 && |m| == BLOCK
    ensures var p := Operations(n, r, m);
            var a := Numbered(n, p.a, p.b, p.c, p.d, m);
            var d := Numbered(n + 1, p.d, a, p.b, p.c, m);
            var c := Numbered(n + 2, p.c, d, a, p.b, m);
            var b := Numbered(n + 3, p.b, c, d, a, m);
            Operations(n + 4, r, m) == Regs(a, b, c, d)
  {
    hide Numbered;
    var p1, p2, p3 := Operations(n + 1, r, m), Operations(n + 2, r, m), Operations(n + 3, r, m);
  }

  /** The operation as the scanner's macros FF, GG, HH and II write it. */
  function Macro(round: nat, a: Word, b: Word, c: Word, d: Word, m: seq<Byte>, k: nat, s: bv6): Word
    requires round < 4 && k < 16 && s <= 32 && |m| == BLOCK
  {
    Operation(round, a, b, c, d, Read32(m, WordOf(round, k) * 4), s, SineOf(round, k))
  }

  /** The words and shifts of the scanner are those of the tables. */
  lemma {:induction false} TablesAgree(round: nat, i: nat, j: nat, a: Word, b: Word, c: Word, d: Word, m: seq<Byte>)
    requires round < 4 && i < 4 && j < 4 && |m| == BLOCK
    ensures |SHIFTS[round]| == 4 && SHIFTS[round][j] <= 32
    ensures Macro(round, a, b, c, d, m, i * 4 + j, SHIFTS[round][j])
         == Numbered(round * 16 + (i * 4 + j), a, b, c, d, m)
  {
    hide Operation, Read32, WordOf;
    WordsAgree(round, i * 4 + j);
    ShiftsSmall(round, j);
    var n := round * 16 + (i * 4 + j);
    NumberParts(round, i, j);
  }

  lemma NumberParts(round: nat, i: nat, j: nat)
    requires i < 4 && j < 4
    ensures var n := round * 16 + (i * 4 + j); n / 16 == round && n % 16 == i * 4 + j && n % 4 == j
  {
  }

  lemma {:induction false} FourMacros(round: nat, i: nat, r: Regs, m: seq<Byte>)
    requires round < 4 && i < 4 && |m| == BLOCK
    ensures |SHIFTS[round]| == 4 && forall j :: 0 <= j < 4 ==> SHIFTS[round][j] <= 32
    ensures var n := round * 16 + i * 4;
            var p := Operations(n, r, m);
            var a := Macro(round, p.a, p.b, p.c, p.d, m, i * 4, SHIFTS[round][0]);
            var d := Macro(round, p.d, a, p.b, p.c, m, i * 4 + 1, SHIFTS[round][1]);
            var c := Macro(round, p.c, d, a, p.b, m, i * 4 + 2, SHIFTS[round][2]);
            var b := Macro(round, p.b, c, d, a, m, i * 4 + 3, SHIFTS[round][3]);
            Operations(n + 4, r, m) == Regs(a, b, c, d)
  {
    hide Macro, Numbered, Operations;
    forall j | 0 <= j < 4
      ensures |SHIFTS[round]| == 4 && SHIFTS[round][j] <= 32
    {
      ShiftsSmall(round, j);
    }
    var n := round * 16 + i * 4;
    var p := Operations(n, r, m);
    FourOperations(n, r, m);
    TablesAgree(round, i, 0, p.a, p.b, p.c, p.d, m);
    var a := Numbered(n, p.a, p.b, p.c, p.d, m);
    TablesAgree(round, i, 1, p.d, a, p.b, p.c, m);
    var d := Numbered(n + 1, p.d, a, p.b, p.c, m);
    TablesAgree(round, i, 2, p.c, d, a, p.b, m);
    var c := Numbered(n + 2, p.c, d, a, p.b, m);
    TablesAgree(round, i, 3, p.b, c, d, a, m);
  }

  lemma NoOperation(r: Regs, m: seq<Byte>)
    requires |m| == BLOCK
    ensures Operations(0, r, m) == r
  {
  }

  /** One block: the registers are added to what they were before. */
  function Compress(r: Regs, m: seq<Byte>): Regs
    requires |m| == BLOCK
  {
    Added(r, Operations(64, r, m))
  }

  function Added(r: Regs, p: Regs): Regs {
    Regs(r.a + p.a, r.b + p.b, r.c + p.c, r.d + p.d)
  }

  /** One of the four loops of umd5_update_block; they differ in the macro and the shifts only. */
  method Round(round: nat, s: seq<bv6>, p: Regs, m: seq<Byte>, ghost r: Regs) returns (q: Regs)
    requires round < 4 && s == SHIFTS[round] && |m| == BLOCK && p == Operations(round * 16, r, m)
    ensures q == Operations(round * 16 + 16, r, m)
  {
    hide Macro, Operations;
    var a, b, c, d := p.a, p.b, p.c, p.d;
    var i := 0;
    while i < 4
      invariant i <= 4 && Regs(a, b, c, d) == Operations(round * 16 + i * 4, r, m)
    {
      FourMacros(round, i, r, m);
      a := Macro(round, a, b, c, d, m, i * 4 + 0, s[0]);
      d := Macro(round, d, a, b, c, m, i * 4 + 1, s[1]);
      c := Macro(round, c, d, a, b, m, i * 4 + 2, s[2]);
      b := Macro(round, b, c, d, a, m, i * 4 + 3, s[3]);
      i := i + 1;
    }
    q := Regs(a, b, c, d);
  }

  lemma {:induction false} CompressAdds(r: Regs, m: seq<Byte>, p: Regs)
    requires |m| == BLOCK && p == Operations(64, r, m)
    ensures Compress(r, m) == Added(r, p)
  {
    hide Operations, Added;
  }

  // ---------------------------------------------------------------- sections 3.1, 3.2, 3.5

  /** The registers after all full blocks of some data. */
  function Blocks(r: Regs, data: seq<Byte>): Regs
    decreases |data|
  {
    if |data| < BLOCK then r else Blocks(Compress(r, data[..BLOCK]), data[BLOCK..])
  }

  function Zeros(n: nat): (r: seq<Byte>)
    ensures |r| == n
  {
    if n == 0 then [] else Zeros(n - 1) + [0]
  }

  /** The number of zero bytes that bring a message of `len` bytes and the first padding byte to
      eight bytes short of a block boundary, as few as possible. */
  function Filling(len: nat): nat {
    (119 - len % 64) % 64
  }

  predicate Fills(len: nat, z: nat) {
    (len + 1 + z) % 64 == 56
  }

  /** A string as the bytes it is kept in. */
  function Bytes(s: string): seq<Byte> {
    seq(|s|, i requires 0 <= i < |s| => (s[i] as int % 256) as Byte)
  }

  lemma BytesConcat(a: string, b: string)
    ensures Bytes(a + b) == Bytes(a) + Bytes(b)
  {
  }

  /** The lowest byte of a number. */
  function Octet(n: nat): Byte {
    (n % 256) as Byte
  }

  /** The lowest `k` bytes of a number as they lie in memory, the lowest first. */
  function InMemory(n: nat, k: nat): (r: seq<Byte>)
    ensures |r| == k
  {
    if k == 0 then [] else [Octet(n)] + InMemory(n / 256, k - 1)
  }

  /** A cast to uint32_t: the word with the lowest four bytes. */
  function Cast32(n: nat): Word {
    Read32(InMemory(n, 4), 0)
  }

  lemma WriteRead(m: seq<Byte>)
    requires |m| == 4
    ensures Write32(Read32(m, 0)) == m
  {
  }

  lemma {:induction false} LaterBytes(n: nat)
    ensures InMemory(n, 8) == InMemory(n, 4) + InMemory(n / 0x1_0000_0000, 4)
  {
    hide Octet;
    FourBytes(n, 8);
    FourBytes(n, 4);
    assert n / 256 / 256 / 256 / 256 == n / 0x1_0000_0000;
    assert InMemory(n / 256 / 256 / 256 / 256, 0) == [];
  }

  lemma {:induction false} FourBytes(n: nat, k: nat)
    requires k >= 4
    ensures var n1, n2, n3 := n / 256, n / 256 / 256, n / 256 / 256 / 256;
            InMemory(n, k) == [Octet(n), Octet(n1), Octet(n2), Octet(n3)] + InMemory(n3 / 256, k - 4)
  {
    hide Octet;
    var n1, n2, n3 := n / 256, n / 256 / 256, n / 256 / 256 / 256;
    assert InMemory(n3, k - 3) == [Octet(n3)] + InMemory(n3 / 256, k - 4);
    assert InMemory(n2, k - 2) == [Octet(n2)] + InMemory(n3, k - 3);
    assert InMemory(n1, k - 1) == [Octet(n1)] + InMemory(n2, k - 2);
  }

  /** A 64-bit number written as two words is as it lies in memory. */
  lemma {:induction false} TwoWords(n: nat)
    ensures Write32(Cast32(n)) + Write32(Cast32(n / 0x1_0000_0000)) == InMemory(n, 8)
  {
    hide InMemory, Read32, Write32;
    WriteRead(InMemory(n, 4));
    WriteRead(InMemory(n / 0x1_0000_0000, 4));
    LaterBytes(n);
  }

  function Padding(len: nat): seq<Byte> {
    [0x80] + Zeros(Filling(len)) + InMemory(len * 8, 8)
  }

  lemma {:induction false} FillingFits(len: nat)
    ensures (len + 1 + Filling(len)) % BLOCK == BLOCK - 8
  {
    LengthMod(len, 1 + Filling(len));
  }

  lemma {:induction false} FillingLeast(len: nat, z: nat)
    requires Fills(len, z)
    ensures Filling(len) <= z
  {
    LengthMod(len, 1 + z);
  }

  lemma {:induction false} PaddingLength(len: nat)
    ensures |Padding(len)| == 1 + Filling(len) + 8 && Filling(len) <= 63 && (len + |Padding(len)|) % 64 == 0
  {
    hide InMemory, Zeros;
    FillingFits(len);
    LengthMod(len + 1 + Filling(len), 8);
  }

  /** Padding adds 9 to 72 bytes and ends on a block boundary; no shorter filling does. */
  lemma {:induction false} PaddingFits(len: nat)
    ensures 9 <= |Padding(len)| <= 72 && (len + |Padding(len)|) % 64 == 0
    ensures forall z: nat :: Fills(len, z) ==> Filling(len) <= z
  {
    hide Padding, Filling, Fills;
    PaddingLength(len);
    forall z: nat | Fills(len, z)
      ensures Filling(len) <= z
    {
      FillingLeast(len, z);
    }
  }

  lemma {:induction false} FillingShort(len: nat, z: nat)
    requires z <= Filling(len) && (len + 1 + z) % BLOCK != BLOCK - 8
    ensures z < Filling(len)
  {
    LengthMod(len, 1 + z);
  }

  lemma {:induction false} FillingReached(len: nat, z: nat)
    requires z <= Filling(len) && (len + 1 + z) % BLOCK == BLOCK - 8
    ensures z == Filling(len)
  {
    var r := len % BLOCK;
    LengthMod(len, 1 + z);
    if r <= 55 {
      assert r + 1 + z <= 56;
    } else {
      assert r + 1 + z <= 120;
    }
  }

  lemma {:induction false} LengthMod(len: nat, k: nat)
    ensures (len + k) % BLOCK == (len % BLOCK + k) % BLOCK
  {
    var q := len / BLOCK;
    assert len + k == BLOCK * q + (len % BLOCK + k);
  }

  function Output(r: Regs): (v: Hash)
    ensures |v| == 16
  {
    Write32(r.a) + Write32(r.b) + Write32(r.c) + Write32(r.d)
  }

  function Digest(message: seq<Byte>): Hash {
    Output(Blocks(INIT, message + Padding(|message|)))
  }

  /** Whole blocks in front do not depend on what follows. */
  lemma {:induction false} BlocksConcat(r: Regs, a: seq<Byte>, b: seq<Byte>)
    requires |a| % BLOCK == 0
    ensures Blocks(r, a + b) == Blocks(Blocks(r, a), b)
    decreases |a|
  {
    hide Compress;
    if a == [] {
      assert a + b == b;
    } else {
      assert (a + b)[..BLOCK] == a[..BLOCK] && (a + b)[BLOCK..] == a[BLOCK..] + b;
      BlocksConcat(Compress(r, a[..BLOCK]), a[BLOCK..], b);
    }
  }

  lemma {:induction false} BlocksOne(r: Regs, m: seq<Byte>)
    requires |m| == BLOCK
    ensures Blocks(r, m) == Compress(r, m)
  {
    hide Compress;
    assert m[..BLOCK] == m && |m[BLOCK..]| == 0;
  }

  /** The padding, as umd5_finish builds it. */
  method Pad(len: nat) returns (pad: seq<Byte>)
    ensures pad == Padding(len)
  {
    hide Filling, InMemory, Cast32;
    pad := [0x80];
    ghost var z := 0;
    while (len + |pad|) % BLOCK > BLOCK - 8
      invariant pad == [0x80] + Zeros(z) && z <= Filling(len)
      decreases Filling(len) - z
    {
      FillingShort(len, z);
      pad := pad + [0];
      z := z + 1;
    }
    while (len + |pad|) % BLOCK < BLOCK - 8
      invariant pad == [0x80] + Zeros(z) && z <= Filling(len)
      invariant (len + |pad|) % BLOCK <= BLOCK - 8
      decreases Filling(len) - z
    {
      FillingShort(len, z);
      pad := pad + [0];
      z := z + 1;
    }
    FillingReached(len, z);
    TwoWords(len * 8);
    pad := pad + Write32(Cast32(len * 8)) + Write32(Cast32(len * 8 / 0x1_0000_0000));
  }

  // ---------------------------------------------------------------- the context

  /** The full blocks of what was fed, and the rest. */
  function Done(fed: seq<Byte>): (n: nat)
    ensures n <= |fed| && n % BLOCK == 0 && |fed| - n == |fed| % BLOCK
  {
    |fed| / BLOCK * BLOCK
  }

  class Context {
    var len: nat
    var block: array<Byte>
    var A: Word
    var B: Word
    var C: Word
    var D: Word
    ghost var fed: seq<Byte>

    ghost predicate Valid()
      reads this, block
    {
      && block.Length == BLOCK && len == |fed|
      && Regs(A, B, C, D) == Blocks(INIT, fed[..Done(fed)])
      && block[..len % BLOCK] == fed[Done(fed)..]
    }

    /** umd5_init */
    constructor ()
      ensures Valid() && fed == [] && fresh(block)
    {
      block := new Byte[BLOCK];
      len := 0;
      A, B, C, D := 0x67452301, 0xefcdab89, 0x98badcfe, 0x10325476;
      fed := [];
    }

    /** umd5_update_block */
    method UpdateBlock(msg: seq<Byte>)
      requires |msg| == BLOCK
      modifies this`A, this`B, this`C, this`D
      ensures Regs(A, B, C, D) == Compress(old(Regs(A, B, C, D)), msg)
    {
      hide Operations, Compress, Added;
      ghost var r := Regs(A, B, C, D);
      NoOperation(r, msg);
      var p := Round(0, [7, 12, 17, 22], Regs(A, B, C, D), msg, r);
      p := Round(1, [5, 9, 14, 20], p, msg, r);
      p := Round(2, [4, 11, 16, 23], p, msg, r);
      p := Round(3, [6, 10, 15, 21], p, msg, r);
      CompressAdds(r, msg, p);
      var sum := Added(Regs(A, B, C, D), p);
      A, B, C, D := sum.a, sum.b, sum.c, sum.d;
    }

    /** One byte into the block; umd5_update does this until the block is full, and for what is left
        at the end. */
    method Keep(x: Byte)
      requires block.Length == BLOCK && len == |fed|
      requires block[..len % BLOCK] == fed[Done(fed)..]
      modifies this`len, this`fed, block
      ensures len == old(len) + 1 && fed == old(fed) + [x]
      ensures len % BLOCK != 0 ==> Done(fed) == Done(old(fed))
      ensures len % BLOCK == 0 ==> Done(old(fed)) + BLOCK == |fed|
      ensures block[..old(len) % BLOCK + 1] == fed[Done(old(fed))..]
    {
      block[len % BLOCK] := x;
      len := len + 1;
      fed := fed + [x];
    }

    /** The first loop of umd5_update: a block begun by earlier calls is filled up. */
    method Fill(s: seq<Byte>) returns (p: nat)
      requires Valid() && len % BLOCK != 0
      modifies this`len, this`fed, block
      ensures p <= |s| && fed == old(fed) + s[..p] && len == |fed|
      ensures len % BLOCK != 0 ==> p == |s| && Valid()
      ensures len % BLOCK == 0 ==> fed == old(fed[..Done(fed)]) + block[..]
    {
      hide Blocks, Done;
      p := 0;
      ghost var done := Done(fed);
      while p < |s| && len % BLOCK != 0
        invariant p <= |s| && fed == old(fed) + s[..p] && len == |fed|
        invariant len % BLOCK != 0 ==> done == Done(fed) && block[..len % BLOCK] == fed[done..]
        invariant len % BLOCK == 0 ==> done + BLOCK == |fed| && block[..] == fed[done..]
        invariant done <= |fed| && fed[..done] == old(fed[..Done(fed)])
      {
        Keep(s[p]);
        p := p + 1;
      }
    }

    /** The second loop of umd5_update takes full blocks from where they are. */
    method TakeBlock(msg: seq<Byte>)
      requires Valid() && |msg| == BLOCK && len % BLOCK == 0
      modifies this`len, this`fed, this`A, this`B, this`C, this`D
      ensures Valid() && fed == old(fed) + msg && len % BLOCK == 0
    {
      hide Compress, Blocks;
      NextBlock(fed, msg, fed + msg);
      UpdateBlock(msg);
      fed := fed + msg;
      len := len + BLOCK;
    }

    /** umd5_update: the digest goes on with the given bytes, however they are cut into calls. */
    method Update(s: seq<Byte>)
      requires Valid()
      modifies this, block
      ensures Valid() && block == old(block) && fed == old(fed) + s
    {
      hide Compress, Blocks;
      var p := 0;
      if len % BLOCK != 0 {
        p := Fill(s);
        if len % BLOCK != 0 {
          return;
        }
        TakeFilled(old(fed[..Done(fed)]));
      }
      TakeRest(s, p, old(fed));
    }

    method TakeFilled(ghost done: seq<Byte>)
      requires |done| % BLOCK == 0 && block.Length == BLOCK && len == |fed| && fed == done + block[..]
      requires Regs(A, B, C, D) == Blocks(INIT, done)
      modifies this`A, this`B, this`C, this`D
      ensures Valid()
    {
      hide Compress, Blocks;
      NextBlock(done, block[..], fed);
      UpdateBlock(block[..]);
    }

    method TakeRest(s: seq<Byte>, from: nat, ghost was: seq<Byte>)
      requires Valid() && from <= |s| && fed == was + s[..from] && len % BLOCK == 0
      modifies this, block
      ensures Valid() && block == old(block) && fed == was + s
    {
      hide Compress, Blocks;
      var p := from;
      while |s| - p >= BLOCK
        invariant p <= |s| && Valid() && fed == was + s[..p] && len % BLOCK == 0 && block == old(block)
      {
        TakeBlock(s[p..p + BLOCK]);
        assert s[..p] + s[p..p + BLOCK] == s[..p + BLOCK];
        p := p + BLOCK;
      }
      KeepRest(s[p..]);
      assert s[..p] + s[p..] == s;
    }

    /** What does not fill a block waits for the next call. */
    method KeepRest(s: seq<Byte>)
      requires Valid() && |s| < BLOCK - len % BLOCK
      modifies this`len, this`fed, block
      ensures Valid() && fed == old(fed) + s
    {
      hide Blocks;
      var p := 0;
      while p < |s|
        invariant p <= |s| && Valid() && fed == old(fed) + s[..p] && |s| - p < BLOCK - len % BLOCK
                  && block == old(block)
      {
        NoNewBlock(fed, s[p]);
        Keep(s[p]);
        p := p + 1;
      }
    }

    /** umd5_finish */
    method Finish()
      requires Valid()
      modifies this, block
      ensures Valid() && fed == old(fed) + Padding(|old(fed)|) && block == old(block)
      ensures len % BLOCK == 0
    {
      var pad := Pad(len);
      PaddingFits(len);
      Update(pad);
    }

    /** umd5_value: after Finish, the digest of what was fed before it. */
    method Value(ghost message: seq<Byte>) returns (v: Hash)
      requires Valid() && fed == message + Padding(|message|)
      ensures v == Digest(message)
    {
      PaddingFits(|message|);
      assert fed[..Done(fed)] == fed;
      v := Write32(A) + Write32(B) + Write32(C) + Write32(D);
    }
  }

  lemma NoNewBlock(fed: seq<Byte>, x: Byte)
    requires |fed| % BLOCK < BLOCK - 1
    ensures Done(fed + [x]) == Done(fed) && (fed + [x])[..Done(fed)] == fed[..Done(fed)]
    ensures (|fed| + 1) % BLOCK == |fed| % BLOCK + 1
  {
  }

  lemma {:induction false} NextBlock(done: seq<Byte>, m: seq<Byte>, fed: seq<Byte>)
    requires |done| % BLOCK == 0 && |m| == BLOCK && fed == done + m
    ensures Done(fed) == |fed| && fed[..Done(fed)] == fed
    ensures Done(done) == |done| && done[..Done(done)] == done
    ensures Blocks(INIT, fed) == Compress(Blocks(INIT, done), m)
  {
    hide Compress;
    BlocksConcat(INIT, done, m);
    BlocksOne(Blocks(INIT, done), m);
  }
}
