/** The security layer's SHA-256, which places each byte by the running byte count, and its HMAC. */
module SlSha256 {

  import opened Arithmetic
  import opened Sha256Standard
  import opened Sha256Streams

  method Expand(data: array<Byte>) returns (w: array<Word>)
    requires data.Length == BLOCK
    ensures fresh(w) && w[..] == Schedule(data[..], 64)
  {
    hide SmallSigma0, SmallSigma1, Pack, Add, Schedule;
    w := new Word[64];
    ScheduleNone(data[..]);
    var i := 0;
    while i < 16
      invariant i <= 16 && w[..i] == Schedule(data[..], i)
    {
      ScheduleNext(data[..], i);
      w[i] := Pack(data[i * 4], data[i * 4 + 1], data[i * 4 + 2], data[i * 4 + 3]);
      i := i + 1;
    }
    while i < 64
      invariant 16 <= i <= 64 && w[..i] == Schedule(data[..], i)
    {
      var s0 := SmallSigma0(w[i - 15]);
      var s1 := SmallSigma1(w[i - 2]);
      ScheduleNext(data[..], i);
      AddAnyOrder(s1, w[i - 7], s0, w[i - 16]);
      w[i] := Add(Add(Add(w[i - 16], s0), w[i - 7]), s1);
      i := i + 1;
    }
    assert w[..] == w[..64];
  }

  method Mix(start: Registers, w: seq<Word>, ghost block: seq<Byte>) returns (r: Registers)
    requires |block| == BLOCK && w == Schedule(block, 64)
    ensures r == Rounds(start, block, 64)
  {
    hide BigSigma0, BigSigma1, Ch, Maj, Add, Schedule, Rounds;
    var a, b, c, d := start.a, start.b, start.c, start.d;
    var e, f, g, h := start.e, start.f, start.g, start.h;
    var i := 0;
    RoundsNone(start, block);
    while i < 64
      invariant i <= 64 && Registers(a, b, c, d, e, f, g, h) == Rounds(start, block, i)
    {
      RoundsNext(start, block, i);
      var temp1 := Add(Add(Add(Add(h, BigSigma1(e)), Ch(e, f, g)), K[i]), w[i]);
      var temp2 := Add(BigSigma0(a), Maj(a, b, c));
      h := g;
      g := f;
      f := e;
      e := Add(d, temp1);
      d := c;
      c := b;
      b := a;
      a := Add(temp1, temp2);
      i := i + 1;
    }
    r := Registers(a, b, c, d, e, f, g, h);
  }

  /** Compresses one block into state, in place. */
  method Transform(state: array<Word>, data: array<Byte>)
    requires state.Length == 8 && data.Length == BLOCK
    modifies state
    ensures Regs(state[..]) == Compress(Regs(old(state[..])), data[..])
  {
    hide Rounds, Schedule, Add;
    var w := Expand(data);
    var r := Mix(Registers(state[0], state[1], state[2], state[3], state[4], state[5], state[6], state[7]),
                 w[..], data[..]);
    state[0], state[1], state[2], state[3] :=
      Add(state[0], r.a), Add(state[1], r.b), Add(state[2], r.c), Add(state[3], r.d);
    state[4], state[5], state[6], state[7] :=
      Add(state[4], r.e), Add(state[5], r.f), Add(state[6], r.g), Add(state[7], r.h);
  }

  /** The count keeps its place in the block, also when it wraps. */
  lemma CountNext(n: nat, count: nat)
    requires count == n % TWO_64 && n % BLOCK == count % BLOCK
    ensures var next := (count + 1) % TWO_64;
            && next == (n + 1) % TWO_64 && (n + 1) % BLOCK == next % BLOCK
            && next % BLOCK == if count % BLOCK + 1 == BLOCK then 0 else count % BLOCK + 1
  {
    NextRemainder(n, TWO_64);
    NextRemainder(n, BLOCK);
    NextRemainder(count, BLOCK);
    if count + 1 < TWO_64 {
      assert (count + 1) % TWO_64 == count + 1;
    } else {
      assert count % BLOCK + 1 == BLOCK;
    }
  }

  class Sha256Context {
    const state: array<Word>
    const buffer: array<Byte>
    var count: nat
    ghost var message: seq<Byte>

    ghost predicate Valid()
      reads this, state, buffer
    {
      && state.Length == 8 && buffer.Length == BLOCK
      && count == |message| % TWO_64 && |message| % BLOCK == count % BLOCK
      && Absorbed(state[..], buffer[..count % BLOCK], message)
    }

    constructor ()
      ensures Valid() && message == [] && fresh(state) && fresh(buffer)
    {
      hide Absorbed;
      state := new Word[8];
      buffer := new Byte[64];
      count, message := 0, [];
      new;
      StartStream(state);
    }

    /** The body of the update loop. */
    method Absorb(x: Byte)
      requires Valid()
      modifies this, state, buffer
      ensures Valid() && message == old(message) + [x]
    {
      hide Absorbed, Compress;
      ghost var waiting := buffer[..count % BLOCK];
      buffer[count % 64] := x;
      CountNext(|message|, count);
      count := (count + 1) % TWO_64;
      message := message + [x];
      if count % 64 == 0 {
        assert buffer[..] == waiting + [x];
        Transform(state, buffer);
        BlockFills(old(state[..]), waiting, old(message), [x], state[..]);
        assert buffer[..0] == [];
      } else {
        ByteWaits(state[..], waiting, old(message), x);
        assert buffer[..count % BLOCK] == waiting + [x];
      }
    }

    method Update(data: seq<Byte>)
      requires Valid()
      modifies this, state, buffer
      ensures Valid() && message == old(message) + data
    {
      hide Absorbed;
      assert data[..0] == [];
      for i := 0 to |data|
        invariant Valid() && message == old(message) + data[..i]
      {
        Absorb(data[i]);
        assert data[..i + 1] == data[..i] + [data[i]];
      }
    }

    /** The digest of everything absorbed, however it was cut into updates. */
    method Final() returns (out: array<Byte>)
      requires Valid()
      modifies this, state, buffer
      ensures fresh(out) && out[..] == Sha256(old(message))
    {
      hide Absorbed, Pad, Sha256, Zeros, BigEndian, WordsBytes;
      var bits := LengthBytes(count * 8 % TWO_64);
      assert count * 8 % TWO_64 == 8 * |message| % TWO_64;
      var padLen := if count % 64 < 56 then 56 - count % 64 else 120 - count % 64;
      Update([0x80]);
      if padLen > 1 {
        Update(Zeros(padLen - 1));
      }
      assert padLen - 1 == ZeroCount(|old(message)|);
      ghost var marked := message;
      assert marked == old(message) + [0x80] + Zeros(ZeroCount(|old(message)|)) by {
        NoZeros();
      }
      Update(bits);
      PaddingIs(old(message), marked, [], bits);
      PadIsWhole(old(message));
      assert buffer[..count % BLOCK] == [];
      DigestReady(state[..], old(message));
      out := Output(state);
    }
  }

  /** A 64-bit number as eight bytes, by shifts. */
  method LengthBytes(n: nat) returns (bits: seq<Byte>)
    ensures bits == BigEndian(n, 8)
  {
    hide ByteOf, ShiftBytes, BigEndian;
    var buffer := new Byte[8];
    var i := 0;
    while i < 8
      invariant i <= 8 && forall j :: 0 <= j < i ==> buffer[j] == BigEndian(n, 8)[j]
    {
      BigEndianAt(n, 8, i);
      buffer[i] := ByteOf(ShiftBytes(n, 7 - i));
      i := i + 1;
    }
    bits := buffer[..];
  }

  method Output(state: array<Word>) returns (out: array<Byte>)
    requires state.Length == 8
    ensures fresh(out) && out.Length == 32 && out[..] == WordsBytes(state[..])
  {
    hide BigEndian, ByteOf;
    out := new Byte[32];
    var i := 0;
    while i < 8
      invariant i <= 8 && forall j, r :: 0 <= j < i && 0 <= r < 4 ==> out[4 * j + r] == BigEndian(state[j], 4)[r]
    {
      WordByteShifts(state[i]);
      out[i * 4] := ByteOf(state[i] / 0x100_0000);
      out[i * 4 + 1] := ByteOf(state[i] / 0x1_0000);
      out[i * 4 + 2] := ByteOf(state[i] / 0x100);
      out[i * 4 + 3] := ByteOf(state[i]);
      i := i + 1;
    }
    SameBytes(state[..], out[..]);
  }

  method Sha256Of(data: seq<Byte>) returns (out: array<Byte>)
    ensures fresh(out) && out[..] == Sha256(data)
  {
    var ctx := new Sha256Context();
    if |data| > 0 {
      ctx.Update(data);
    }
    assert ctx.message == data;
    out := ctx.Final();
  }

  method KeyPads(short: seq<Byte>) returns (ipad: array<Byte>, opad: array<Byte>)
    requires |short| <= BLOCK
    ensures fresh(ipad) && fresh(opad)
    ensures ipad[..] == XorAll(short + Zeros(BLOCK - |short|), 0x36)
    ensures opad[..] == XorAll(short + Zeros(BLOCK - |short|), 0x5c)
  {
    hide XorByte;
    ghost var k := short + Zeros(BLOCK - |short|);
    ipad, opad := new Byte[64](_ => 0), new Byte[64](_ => 0);
    forall i | 0 <= i < |short| { ipad[i] := short[i]; }
    forall i | 0 <= i < |short| { opad[i] := short[i]; }
    var i := 0;
    while i < 64
      invariant i <= 64
      invariant forall j :: 0 <= j < 64 ==> ipad[j] == if j < i then XorByte(k[j], 0x36) else k[j]
      invariant forall j :: 0 <= j < 64 ==> opad[j] == if j < i then XorByte(k[j], 0x5c) else k[j]
    {
      ipad[i], opad[i] := XorByte(ipad[i], 0x36), XorByte(opad[i], 0x5c);
      i := i + 1;
    }
  }

  /** The message authentication code of RFC 2104 for a key of any length. */
  method HmacSha256(key: seq<Byte>, data: seq<Byte>) returns (out: array<Byte>)
    ensures fresh(out) && out[..] == Hmac(key, data)
  {
    hide Sha256, Sha256Context.Valid, XorAll, Zeros;
    var short := key;
    if |key| > 64 {
      var tk := Sha256Of(key);
      short := tk[..];
    }
    var ipad, opad := KeyPads(short);
    var inner := new Sha256Context();
    inner.Update(ipad[..]);
    if |data| > 0 {
      inner.Update(data);
    }
    assert inner.message == XorAll(BlockKey(key), 0x36) + data;
    var innerHash := inner.Final();
    var outer := new Sha256Context();
    outer.Update(opad[..]);
    outer.Update(innerHash[..]);
    assert outer.message == XorAll(BlockKey(key), 0x5c) + innerHash[..];
    out := outer.Final();
  }
}
