/** SHA-256 as FIPS 180-4 defines it for messages of whole bytes, and HMAC as RFC 2104 defines it over it. */
module Sha256Standard {

  import opened Arithmetic
  import opened Basics

  type Byte = U8
  type Word = U32

  const BLOCK := 64
  const TWO_64: nat := 0x1_0000_0000_0000_0000

  // ---- Compression: FIPS 180-4, sections 4.1.2, 4.2.2, 5.3.3 and 6.2.2 ---------------------------------------

  datatype Registers = Registers(a: Word, b: Word, c: Word, d: Word, e: Word, f: Word, g: Word, h: Word)

  const INITIAL := Registers(0x6a09e667, 0xbb67ae85, 0x3c6ef372, 0xa54ff53a,
                             0x510e527f, 0x9b05688c, 0x1f83d9ab, 0x5be0cd19)

  const K: seq<Word> := K0 + K1 + K2 + K3 + K4 + K5 + K6 + K7

  const K0: seq<Word> :=
    [0x428a2f98, 0x71374491, 0xb5c0fbcf, 0xe9b5dba5, 0x3956c25b, 0x59f111f1, 0x923f82a4, 0xab1c5ed5]
  const K1: seq<Word> :=
    [0xd807aa98, 0x12835b01, 0x243185be, 0x550c7dc3, 0x72be5d74, 0x80deb1fe, 0x9bdc06a7, 0xc19bf174]
  const K2: seq<Word> :=
    [0xe49b69c1, 0xefbe4786, 0x0fc19dc6, 0x240ca1cc, 0x2de92c6f, 0x4a7484aa, 0x5cb0a9dc, 0x76f988da]
  const K3: seq<Word> :=
    [0x983e5152, 0xa831c66d, 0xb00327c8, 0xbf597fc7, 0xc6e00bf3, 0xd5a79147, 0x06ca6351, 0x14292967]
  const K4: seq<Word> :=
    [0x27b70a85, 0x2e1b2138, 0x4d2c6dfc, 0x53380d13, 0x650a7354, 0x766a0abb, 0x81c2c92e, 0x92722c85]
  const K5: seq<Word> :=
    [0xa2bfe8a1, 0xa81a664b, 0xc24b8b70, 0xc76c51a3, 0xd192e819, 0xd6990624, 0xf40e3585, 0x106aa070]
  const K6: seq<Word> :=
    [0x19a4c116, 0x1e376c08, 0x2748774c, 0x34b0bcb5, 0x391c0cb3, 0x4ed8aa4a, 0x5b9cca4f, 0x682e6ff3]
  const K7: seq<Word> :=
    [0x748f82ee, 0x78a5636f, 0x84c87814, 0x8cc70208, 0x90befffa, 0xa4506ceb, 0xbef9a3f7, 0xc67178f2]

  /** Addition modulo 2^32. */
  function Add(x: Word, y: Word): Word { (x + y) % 0x1_0000_0000 }

  function Bits(x: Word): bv32 { x as bv32 }
  function Value(b: bv32): Word { b as Word }

  function Rotr(x: Word, n: nat): Word
    requires 0 < n < 32
  {
    Value((Bits(x) >> n) | (Bits(x) << (32 - n)))
  }

  function Shr(x: Word, n: nat): Word
    requires n < 32
  {
    Value(Bits(x) >> n)
  }

  function Xor(x: Word, y: Word): Word { Value(Bits(x) ^ Bits(y)) }
  function And(x: Word, y: Word): Word { Value(Bits(x) & Bits(y)) }
  function Not(x: Word): Word { Value(!Bits(x)) }

  function Ch(x: Word, y: Word, z: Word): Word { Xor(And(x, y), And(Not(x), z)) }
  function Maj(x: Word, y: Word, z: Word): Word { Xor(Xor(And(x, y), And(x, z)), And(y, z)) }
  function BigSigma0(x: Word): Word { Xor(Xor(Rotr(x, 2), Rotr(x, 13)), Rotr(x, 22)) }
  function BigSigma1(x: Word): Word { Xor(Xor(Rotr(x, 6), Rotr(x, 11)), Rotr(x, 25)) }
  function SmallSigma0(x: Word): Word { Xor(Xor(Rotr(x, 7), Rotr(x, 18)), Shr(x, 3)) }
  function SmallSigma1(x: Word): Word { Xor(Xor(Rotr(x, 17), Rotr(x, 19)), Shr(x, 10)) }

  /** Four bytes as a word, most significant first. */
  function Pack(b0: Byte, b1: Byte, b2: Byte, b3: Byte): Word {
    Value(((b0 as bv32) << 24) | ((b1 as bv32) << 16) | ((b2 as bv32) << 8) | (b3 as bv32))
  }

  function WordAt(block: seq<Byte>, t: nat): Word
    requires |block| == BLOCK && t < 16
  {
    Pack(block[4 * t], block[4 * t + 1], block[4 * t + 2], block[4 * t + 3])
  }

  /** The first n words of the message schedule. */
  function Schedule(block: seq<Byte>, n: nat): (w: seq<Word>)
    requires |block| == BLOCK
    ensures |w| == n
  {
    if n == 0 then []
    else
      var w := Schedule(block, n - 1);
      var t := n - 1;
      w + [if t < 16 then WordAt(block, t)
           else Add(Add(Add(SmallSigma1(w[t - 2]), w[t - 7]), SmallSigma0(w[t - 15])), w[t - 16])]
  }

  function Round(r: Registers, k: Word, w: Word): Registers {
    var t1 := Add(Add(Add(Add(r.h, BigSigma1(r.e)), Ch(r.e, r.f, r.g)), k), w);
    var t2 := Add(BigSigma0(r.a), Maj(r.a, r.b, r.c));
    Registers(Add(t1, t2), r.a, r.b, r.c, Add(r.d, t1), r.e, r.f, r.g)
  }

  function Rounds(r: Registers, block: seq<Byte>, n: nat): Registers
    requires |block| == BLOCK && n <= 64
  {
    if n == 0 then r else Round(Rounds(r, block, n - 1), K[n - 1], Schedule(block, 64)[n - 1])
  }

  function Compress(h: Registers, block: seq<Byte>): Registers
    requires |block| == BLOCK
  {
    var r := Rounds(h, block, 64);
    Registers(Add(h.a, r.a), Add(h.b, r.b), Add(h.c, r.c), Add(h.d, r.d),
              Add(h.e, r.e), Add(h.f, r.f), Add(h.g, r.g), Add(h.h, r.h))
  }

  // ---- Padding and digest: sections 5.1.1 and 6.2 ------------------------------------------------------------

  function ByteOf(n: nat): Byte {
    n % 256
  }

  /** n in k bytes, most significant first. */
  function BigEndian(n: nat, k: nat): (b: seq<Byte>)
    ensures |b| == k
  {
    if k == 0 then [] else BigEndian(n / 256, k - 1) + [ByteOf(n)]
  }

  function Zeros(n: nat): (z: seq<Byte>)
    ensures |z| == n && forall i :: 0 <= i < n ==> z[i] == 0
  {
    if n == 0 then [] else Zeros(n - 1) + [0]
  }

  /** The least number of zero bytes after the marker byte that leaves room for exactly the length field. */
  function ZeroCount(n: nat): (z: nat)
    ensures z < BLOCK && (n + 1 + z) % BLOCK == 56
  {
    if n % 64 < 56 then 55 - n % 64 else 119 - n % 64
  }

  lemma PadLength(n: nat)
    ensures (n + 1 + ZeroCount(n) + 8) % BLOCK == 0
  {
  }

  /** The length field: the bit length of n bytes, in 64 bits. */
  function LengthField(n: nat): (b: seq<Byte>)
    ensures |b| == 8
  {
    BigEndian(8 * n % TWO_64, 8)
  }

  /** The standard's padding; its length field has 64 bits, so from 2^61 bytes on (where the standard defines
      no digest) it holds the bit length modulo 2^64. */
  function Pad(m: seq<Byte>): (p: seq<Byte>)
    ensures |p| % BLOCK == 0
  {
    PadLength(|m|);
    m + [0x80] + Zeros(ZeroCount(|m|)) + LengthField(|m|)
  }

  /** Compression folded over the whole blocks of b. */
  function Process(h: Registers, b: seq<Byte>): Registers
    requires |b| % BLOCK == 0
    decreases |b|
  {
    if b == [] then h
    else Compress(Process(h, b[..|b| - BLOCK]), b[|b| - BLOCK..])
  }

  /** The words one after the other, each most significant byte first. */
  function WordsBytes(w: seq<Word>): (b: seq<Byte>)
    ensures |b| == 4 * |w|
  {
    if w == [] then [] else WordsBytes(w[..|w| - 1]) + BigEndian(w[|w| - 1], 4)
  }

  function RegisterBytes(r: Registers): (b: seq<Byte>)
    ensures |b| == 32
  {
    WordsBytes([r.a, r.b, r.c, r.d, r.e, r.f, r.g, r.h])
  }

  function Sha256(m: seq<Byte>): (d: seq<Byte>)
    ensures |d| == 32
  {
    RegisterBytes(Process(INITIAL, Pad(m)))
  }

  // ---- HMAC: RFC 2104, section 2 -----------------------------------------------------------------------------

  function Power2(n: nat): (p: nat)
    ensures p > 0
  {
    if n == 0 then 1 else 2 * Power2(n - 1)
  }

  /** The exclusive or of the low n bits, bit by bit from the lowest. */
  function XorBits(x: nat, y: nat, n: nat): (r: nat)
    ensures r < Power2(n)
  {
    if n == 0 then 0 else (if x % 2 != y % 2 then 1 else 0) + 2 * XorBits(x / 2, y / 2, n - 1)
  }

  lemma {:induction false} XorBitsTwice(x: nat, y: nat, n: nat)
    requires x < Power2(n)
    ensures XorBits(XorBits(x, y, n), y, n) == x
  {
    if n > 0 {
      var r := XorBits(x / 2, y / 2, n - 1);
      XorBitsTwice(x / 2, y / 2, n - 1);
      assert XorBits(x, y, n) / 2 == r && XorBits(x, y, n) % 2 == if x % 2 != y % 2 then 1 else 0;
    }
  }

  function XorByte(x: Byte, y: Byte): Byte {
    EightBits();
    XorBits(x, y, 8)
  }

  lemma EightBits()
    ensures Power2(8) == 256
  {
    assert Power2(4) == 16;
  }

  /** What was combined twice with the same byte is what it was. */
  lemma XorTwice(x: Byte, y: Byte)
    ensures XorByte(XorByte(x, y), y) == x
  {
    EightBits();
    XorBitsTwice(x, y, 8);
  }

  function XorAll(s: seq<Byte>, x: Byte): (r: seq<Byte>)
    ensures |r| == |s| && forall i :: 0 <= i < |s| ==> r[i] == XorByte(s[i], x)
  {
    seq(|s|, (i: nat) requires i < |s| => XorByte(s[i], x))
  }

  function BlockKey(key: seq<Byte>): (k: seq<Byte>)
    ensures |k| == BLOCK
  {
    var short := if |key| > BLOCK then Sha256(key) else key;
    short + Zeros(BLOCK - |short|)
  }

  function Hmac(key: seq<Byte>, text: seq<Byte>): (mac: seq<Byte>)
    ensures |mac| == 32
  {
    Sha256(XorAll(BlockKey(key), 0x5c) + Sha256(XorAll(BlockKey(key), 0x36) + text))
  }

  // ---- The constants -----------------------------------------------------------------------------------------

  function Square(n: nat): nat { n * n }

  /** x holds the first 32 bits of the fractional part of the square root of p, whose whole part is n. */
  predicate SquareRootFraction(p: nat, n: nat, x: Word) {
    Square(n * 0x1_0000_0000 + x) <= p * TWO_64 < Square(n * 0x1_0000_0000 + x + 1)
  }

  /** Section 5.3.3: the initial value comes from the square roots of the first eight primes. */
  lemma InitialValue()
    ensures SquareRootFraction(2, 1, INITIAL.a) && SquareRootFraction(3, 1, INITIAL.b)
    ensures SquareRootFraction(5, 2, INITIAL.c) && SquareRootFraction(7, 2, INITIAL.d)
    ensures SquareRootFraction(11, 3, INITIAL.e) && SquareRootFraction(13, 3, INITIAL.f)
    ensures SquareRootFraction(17, 4, INITIAL.g) && SquareRootFraction(19, 4, INITIAL.h)
  {
  }
  function Cube(n: nat): nat { n * n * n }

  /** x holds the first 32 bits of the fractional part of the cube root of p, whose whole part is n. */
  predicate CubeRootFraction(p: nat, n: nat, x: Word) {
    Cube(n * 0x1_0000_0000 + x) <= p * (TWO_64 * 0x1_0000_0000) < Cube(n * 0x1_0000_0000 + x + 1)
  }

  ghost predicate FromCubeRoot(x: Word, p: nat) {
    exists n :: CubeRootFraction(p, n, x)
  }

  lemma Constant(x: Word, p: nat, n: nat)
    requires CubeRootFraction(p, n, x)
    ensures FromCubeRoot(x, p)
  {
  }

  /** Each word comes from the cube root of the number in its place. */
  ghost predicate FromCubeRoots(k: seq<Word>, p: seq<nat>) {
    |k| == |p| && forall i :: 0 <= i < |k| ==> FromCubeRoot(k[i], p[i])
  }

  const PRIMES: seq<nat> := P0 + P1 + P2 + P3 + P4 + P5 + P6 + P7

  const P0: seq<nat> := [2, 3, 5, 7, 11, 13, 17, 19]
  const P1: seq<nat> := [23, 29, 31, 37, 41, 43, 47, 53]
  const P2: seq<nat> := [59, 61, 67, 71, 73, 79, 83, 89]
  const P3: seq<nat> := [97, 101, 103, 107, 109, 113, 127, 131]
  const P4: seq<nat> := [137, 139, 149, 151, 157, 163, 167, 173]
  const P5: seq<nat> := [179, 181, 191, 193, 197, 199, 211, 223]
  const P6: seq<nat> := [227, 229, 233, 239, 241, 251, 257, 263]
  const P7: seq<nat> := [269, 271, 277, 281, 283, 293, 307, 311]

  lemma RowFromCubeRoots(k: seq<Word>, p: seq<nat>)
    requires |k| == |p| == 8
    requires FromCubeRoot(k[0], p[0]) && FromCubeRoot(k[1], p[1]) && FromCubeRoot(k[2], p[2])
    requires FromCubeRoot(k[3], p[3]) && FromCubeRoot(k[4], p[4]) && FromCubeRoot(k[5], p[5])
    requires FromCubeRoot(k[6], p[6]) && FromCubeRoot(k[7], p[7])
    ensures FromCubeRoots(k, p)
  {
    hide FromCubeRoot;
  }

  lemma Row0()
    ensures FromCubeRoots(K0, P0)
  {
    hide FromCubeRoot, FromCubeRoots;
    Constant(0x428a2f98, 2, 1); Constant(0x71374491, 3, 1);
    Constant(0xb5c0fbcf, 5, 1); Constant(0xe9b5dba5, 7, 1);
    Constant(0x3956c25b, 11, 2); Constant(0x59f111f1, 13, 2);
    Constant(0x923f82a4, 17, 2); Constant(0xab1c5ed5, 19, 2);
    RowFromCubeRoots(K0, P0);
  }

  lemma Row1()
    ensures FromCubeRoots(K1, P1)
  {
    hide FromCubeRoot, FromCubeRoots;
    Constant(0xd807aa98, 23, 2); Constant(0x12835b01, 29, 3);
    Constant(0x243185be, 31, 3); Constant(0x550c7dc3, 37, 3);
    Constant(0x72be5d74, 41, 3); Constant(0x80deb1fe, 43, 3);
    Constant(0x9bdc06a7, 47, 3); Constant(0xc19bf174, 53, 3);
    RowFromCubeRoots(K1, P1);
  }

  lemma Row2()
    ensures FromCubeRoots(K2, P2)
  {
    hide FromCubeRoot, FromCubeRoots;
    Constant(0xe49b69c1, 59, 3); Constant(0xefbe4786, 61, 3);
    Constant(0x0fc19dc6, 67, 4); Constant(0x240ca1cc, 71, 4);
    Constant(0x2de92c6f, 73, 4); Constant(0x4a7484aa, 79, 4);
    Constant(0x5cb0a9dc, 83, 4); Constant(0x76f988da, 89, 4);
    RowFromCubeRoots(K2, P2);
  }

  lemma Row3()
    ensures FromCubeRoots(K3, P3)
  {
    hide FromCubeRoot, FromCubeRoots;
    Constant(0x983e5152, 97, 4); Constant(0xa831c66d, 101, 4);
    Constant(0xb00327c8, 103, 4); Constant(0xbf597fc7, 107, 4);
    Constant(0xc6e00bf3, 109, 4); Constant(0xd5a79147, 113, 4);
    Constant(0x06ca6351, 127, 5); Constant(0x14292967, 131, 5);
    RowFromCubeRoots(K3, P3);
  }

  lemma Row4()
    ensures FromCubeRoots(K4, P4)
  {
    hide FromCubeRoot, FromCubeRoots;
    Constant(0x27b70a85, 137, 5); Constant(0x2e1b2138, 139, 5);
    Constant(0x4d2c6dfc, 149, 5); Constant(0x53380d13, 151, 5);
    Constant(0x650a7354, 157, 5); Constant(0x766a0abb, 163, 5);
    Constant(0x81c2c92e, 167, 5); Constant(0x92722c85, 173, 5);
    RowFromCubeRoots(K4, P4);
  }

  lemma Row5()
    ensures FromCubeRoots(K5, P5)
  {
    hide FromCubeRoot, FromCubeRoots;
    Constant(0xa2bfe8a1, 179, 5); Constant(0xa81a664b, 181, 5);
    Constant(0xc24b8b70, 191, 5); Constant(0xc76c51a3, 193, 5);
    Constant(0xd192e819, 197, 5); Constant(0xd6990624, 199, 5);
    Constant(0xf40e3585, 211, 5); Constant(0x106aa070, 223, 6);
    RowFromCubeRoots(K5, P5);
  }

  lemma Row6()
    ensures FromCubeRoots(K6, P6)
  {
    hide FromCubeRoot, FromCubeRoots;
    Constant(0x19a4c116, 227, 6); Constant(0x1e376c08, 229, 6);
    Constant(0x2748774c, 233, 6); Constant(0x34b0bcb5, 239, 6);
    Constant(0x391c0cb3, 241, 6); Constant(0x4ed8aa4a, 251, 6);
    Constant(0x5b9cca4f, 257, 6); Constant(0x682e6ff3, 263, 6);
    RowFromCubeRoots(K6, P6);
  }

  lemma Row7()
    ensures FromCubeRoots(K7, P7)
  {
    hide FromCubeRoot, FromCubeRoots;
    Constant(0x748f82ee, 269, 6); Constant(0x78a5636f, 271, 6);
    Constant(0x84c87814, 277, 6); Constant(0x8cc70208, 281, 6);
    Constant(0x90befffa, 283, 6); Constant(0xa4506ceb, 293, 6);
    Constant(0xbef9a3f7, 307, 6); Constant(0xc67178f2, 311, 6);
    RowFromCubeRoots(K7, P7);
  }

  lemma AndFromCubeRoots(k: seq<Word>, p: seq<nat>, k': seq<Word>, p': seq<nat>)
    requires FromCubeRoots(k, p) && FromCubeRoots(k', p')
    ensures FromCubeRoots(k + k', p + p')
  {
    hide FromCubeRoot;
  }

  /** Section 4.2.2: the constants of the rounds come from the cube roots of the first 64 primes. */
  lemma RoundConstants()
    ensures FromCubeRoots(K, PRIMES) && |K| == 64
  {
    hide FromCubeRoots;
    Row0(); Row1(); Row2(); Row3(); Row4(); Row5(); Row6(); Row7();
    AndFromCubeRoots(K0, P0, K1, P1);
    AndFromCubeRoots(K0 + K1, P0 + P1, K2, P2);
    AndFromCubeRoots(K0 + K1 + K2, P0 + P1 + P2, K3, P3);
    AndFromCubeRoots(K0 + K1 + K2 + K3, P0 + P1 + P2 + P3, K4, P4);
    AndFromCubeRoots(K0 + K1 + K2 + K3 + K4, P0 + P1 + P2 + P3 + P4, K5, P5);
    AndFromCubeRoots(K0 + K1 + K2 + K3 + K4 + K5, P0 + P1 + P2 + P3 + P4 + P5, K6, P6);
    AndFromCubeRoots(K0 + K1 + K2 + K3 + K4 + K5 + K6, P0 + P1 + P2 + P3 + P4 + P5 + P6, K7, P7);
  }
}
