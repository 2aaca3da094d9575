/** What the two streaming implementations share: a chaining value that has absorbed the whole blocks of the
    message so far. */
module Sha256Streams {

  import opened Arithmetic
  import opened Sha256Standard

  function Regs(s: seq<Word>): Registers
    requires |s| == 8
  {
    Registers(s[0], s[1], s[2], s[3], s[4], s[5], s[6], s[7])
  }

  lemma ScheduleNone(block: seq<Byte>)
    requires |block| == BLOCK
    ensures Schedule(block, 0) == []
  {
  }

  lemma ScheduleNext(block: seq<Byte>, t: nat)
    requires |block| == BLOCK
    ensures var w := Schedule(block, t);
            Schedule(block, t + 1) == w + [if t < 16 then WordAt(block, t)
              else Add(Add(Add(SmallSigma1(w[t - 2]), w[t - 7]), SmallSigma0(w[t - 15])), w[t - 16])]
  {
    hide SmallSigma0, SmallSigma1, WordAt, Add;
  }

  lemma AddCommutes(a: Word, b: Word)
    ensures Add(a, b) == Add(b, a)
  {
  }

  lemma AddAssociates(a: Word, b: Word, c: Word)
    ensures Add(Add(a, b), c) == Add(a, Add(b, c))
  {
  }

  /** Addition modulo 2^32 does not depend on the order of its operands. */
  lemma AddAnyOrder(a: Word, b: Word, c: Word, d: Word)
    ensures Add(Add(Add(a, b), c), d) == Add(Add(Add(d, c), b), a)
  {
    hide Add;
    AddAssociates(d, c, b);
    AddCommutes(d, Add(c, b));
    AddCommutes(c, b);
    AddCommutes(Add(Add(b, c), d), a);
    AddAssociates(a, b, c);
    AddAssociates(a, Add(b, c), d);
  }

  lemma RoundsNone(r: Registers, block: seq<Byte>)
    requires |block| == BLOCK
    ensures Rounds(r, block, 0) == r
  {
  }

  lemma RoundsNext(r: Registers, block: seq<Byte>, n: nat)
    requires |block| == BLOCK && n < 64
    ensures Rounds(r, block, n + 1) == Round(Rounds(r, block, n), K[n], Schedule(block, 64)[n])
  {
    hide Round, Schedule;
  }

  // ---- The stream --------------------------------------------------------------------------------------------

  function Tail(m: seq<Byte>): (t: seq<Byte>)
    ensures |t| == |m| % BLOCK
  {
    m[|m| - |m| % BLOCK..]
  }

  function Whole(m: seq<Byte>): (w: seq<Byte>)
    ensures |w| % BLOCK == 0 && m == w + Tail(m)
  {
    m[..|m| - |m| % BLOCK]
  }

  /** The chaining value and the waiting bytes after the message m. */
  ghost predicate Absorbed(state: seq<Word>, waiting: seq<Byte>, m: seq<Byte>) {
    |state| == 8 && Regs(state) == Process(INITIAL, Whole(m)) && waiting == Tail(m)
  }

  method StartStream(state: array<Word>)
    requires state.Length == 8
    modifies state
    ensures Absorbed(state[..], [], [])
  {
    hide Process, Compress;
    state[0], state[1], state[2], state[3] := 0x6a09e667, 0xbb67ae85, 0x3c6ef372, 0xa54ff53a;
    state[4], state[5], state[6], state[7] := 0x510e527f, 0x9b05688c, 0x1f83d9ab, 0x5be0cd19;
    ProcessNothing(INITIAL);
    assert Whole([]) == [] && Tail([]) == [];
  }

  lemma ProcessNothing(h: Registers)
    ensures Process(h, []) == h
  {
  }

  lemma ByteWaits(state: seq<Word>, waiting: seq<Byte>, m: seq<Byte>, x: Byte)
    requires Absorbed(state, waiting, m) && |m| % BLOCK + 1 < BLOCK
    ensures Absorbed(state, waiting + [x], m + [x])
  {
    hide Process;
    assert |m + [x]| % BLOCK == |m| % BLOCK + 1;
    assert Whole(m + [x]) == Whole(m);
    assert Tail(m + [x]) == Tail(m) + [x];
  }

  lemma BlockFills(state: seq<Word>, waiting: seq<Byte>, m: seq<Byte>, block: seq<Byte>, state': seq<Word>)
    requires Absorbed(state, waiting, m) && |waiting + block| == BLOCK
    requires |state'| == 8 && Regs(state') == Compress(Regs(state), waiting + block)
    ensures Absorbed(state', [], m + block) && |m + block| % BLOCK == 0
  {
    hide Compress, Process;
    var n := m + block;
    assert n == Whole(m) + (waiting + block);
    ProcessBlock(INITIAL, Whole(m), waiting + block);
    assert Whole(n) == n && Tail(n) == [];
  }

  lemma ProcessBlock(h: Registers, b: seq<Byte>, block: seq<Byte>)
    requires |b| % BLOCK == 0 && |block| == BLOCK
    ensures Process(h, b + block) == Compress(Process(h, b), block)
  {
    hide Compress;
    assert (b + block)[..|b + block| - BLOCK] == b;
    assert (b + block)[|b + block| - BLOCK..] == block;
  }

  /** When the padded message has been absorbed, the chaining value is the digest. */
  lemma DigestReady(state: seq<Word>, m: seq<Byte>)
    requires Absorbed(state, [], Pad(m))
    ensures WordsBytes(state) == Sha256(m)
  {
    hide Process;
    assert Whole(Pad(m)) == Pad(m);
    assert state == [state[0], state[1], state[2], state[3], state[4], state[5], state[6], state[7]];
  }

  // ---- Bytes of numbers --------------------------------------------------------------------------------------

  /** n shifted right by k bytes. */
  function ShiftBytes(n: nat, k: nat): nat {
    if k == 0 then n else ShiftBytes(n / 256, k - 1)
  }

  /** The i-th byte is the one a shift right by all the bytes after it brings to the end. */
  lemma {:induction false} BigEndianAt(n: nat, k: nat, i: nat)
    requires i < k
    ensures BigEndian(n, k)[i] == ByteOf(ShiftBytes(n, k - 1 - i))
    decreases k
  {
    hide ByteOf;
    if i < k - 1 { BigEndianAt(n / 256, k - 1, i); }
  }

  lemma {:induction false} WordsBytesAt(w: seq<Word>, j: nat, i: nat)
    requires j < |w| && i < 4
    ensures WordsBytes(w)[4 * j + i] == BigEndian(w[j], 4)[i]
    decreases |w|
  {
    hide BigEndian;
    if j < |w| - 1 { WordsBytesAt(w[..|w| - 1], j, i); }
  }

  /** For every message the standard covers, the length field holds its bit length and nothing is lost. */
  lemma LengthFieldIsExact(m: seq<Byte>)
    requires |m| < 0x2000_0000_0000_0000
    ensures Pad(m)[|Pad(m)| - 8..] == BigEndian(8 * |m|, 8)
  {
    hide BigEndian, Zeros, ZeroCount;
    assert 8 * |m| % TWO_64 == 8 * |m|;
  }

  lemma WordByteShifts(w: Word)
    ensures BigEndian(w, 4) == [ByteOf(w / 0x100_0000), ByteOf(w / 0x1_0000), ByteOf(w / 0x100), ByteOf(w)]
  {
    hide ByteOf;
    assert w / 256 / 256 == w / 0x1_0000 && w / 256 / 256 / 256 == w / 0x100_0000;
    assert BigEndian(w / 256 / 256 / 256, 1) == BigEndian(w / 256 / 256 / 256 / 256, 0) + [ByteOf(w / 256 / 256 / 256)];
    assert BigEndian(w / 256 / 256, 2) == BigEndian(w / 256 / 256 / 256, 1) + [ByteOf(w / 256 / 256)];
    assert BigEndian(w / 256, 3) == BigEndian(w / 256 / 256, 2) + [ByteOf(w / 256)];
  }

  lemma SameBytes(w: seq<Word>, b: seq<Byte>)
    requires |b| == 4 * |w|
    requires forall j, i :: 0 <= j < |w| && 0 <= i < 4 ==> b[4 * j + i] == BigEndian(w[j], 4)[i]
    ensures b == WordsBytes(w)
  {
    hide BigEndian, WordsBytes;
    forall k | 0 <= k < |b| ensures b[k] == WordsBytes(w)[k] {
      WordsBytesAt(w, k / 4, k % 4);
      assert b[4 * (k / 4) + k % 4] == BigEndian(w[k / 4], 4)[k % 4];
    }
  }

  /** The bits of the whole blocks and of the waiting bytes add up to the length field of the padding. */
  lemma BitLength(m: seq<Byte>, bits: nat)
    requires bits == 8 * |Whole(m)| % TWO_64
    ensures (bits + |m| % BLOCK * 8) % TWO_64 == 8 * |m| % TWO_64
  {
    assert 8 * |m| == 8 * |Whole(m)| + |m| % BLOCK * 8;
  }

  lemma PaddingIs(m: seq<Byte>, absorbed: seq<Byte>, fill: seq<Byte>, last: seq<Byte>)
    requires absorbed + fill == m + [0x80] + Zeros(ZeroCount(|m|))
    requires last == fill + LengthField(|m|)
    ensures absorbed + last == Pad(m)
  {
    hide LengthField, Zeros, ZeroCount;
    var bits := LengthField(|m|);
    assert absorbed + (fill + bits) == (absorbed + fill) + bits;
  }

  lemma NoZeros()
    ensures Zeros(0) == []
  {
  }

  lemma PadIsWhole(m: seq<Byte>)
    ensures |Pad(m)| % BLOCK == 0
  {
  }
}
