/** The core library's SHA-256, which fills a buffer, counts the bits of whole blocks and pads in the buffer,
    and its HMAC. */
module CoreSha256 {

  import opened Arithmetic
  import opened Sha256Standard
  import opened Sha256Streams

  method Expand(data: array<Byte>) returns (w: array<Word>)
    requires data.Length == BLOCK
    ensures fresh(w) && w[..] == Schedule(data[..], 64)
  {
    hide SmallSigma0, SmallSigma1, Pack, Add, Schedule;
    w := new Word[64];
    ScheduleNone(data[..]);
    var i := 0;
    while i < 16
      invariant i <= 16 && w[..i] == Schedule(data[..], i)
    {
      ScheduleNext(data[..], i);
      w[i] := Pack(data[i * 4], data[i * 4 + 1], data[i * 4 + 2], data[i * 4 + 3]);
      i := i + 1;
    }
    while i < 64
      invariant 16 <= i <= 64 && w[..i] == Schedule(data[..], i)
    {
      ScheduleNext(data[..], i);
      w[i] := Add(Add(Add(SmallSigma1(w[i - 2]), w[i - 7]), SmallSigma0(w[i - 15])), w[i - 16]);
      i := i + 1;
    }
    assert w[..] == w[..64];
  }

  method Mix(start: Registers, w: seq<Word>, ghost block: seq<Byte>) returns (r: Registers)
    requires |block| == BLOCK && w == Schedule(block, 64)
    ensures r == Rounds(start, block, 64)
  {
    hide BigSigma0, BigSigma1, Ch, Maj, Add, Schedule, Rounds;
    var a, b, c, d := start.a, start.b, start.c, start.d;
    var e, f, g, h := start.e, start.f, start.g, start.h;
    var i := 0;
    RoundsNone(start, block);
    while i < 64
      invariant i <= 64 && Registers(a, b, c, d, e, f, g, h) == Rounds(start, block, i)
    {
      RoundsNext(start, block, i);
      var temp1 := Add(Add(Add(Add(h, BigSigma1(e)), Ch(e, f, g)), K[i]), w[i]);
      var temp2 := Add(BigSigma0(a), Maj(a, b, c));
      h := g;
      g := f;
      f := e;
      e := Add(d, temp1);
      d := c;
      c := b;
      b := a;
      a := Add(temp1, temp2);
      i := i + 1;
    }
    r := Registers(a, b, c, d, e, f, g, h);
  }

  /** Compresses one block into state, in place. */
  method Transform(state: array<Word>, data: array<Byte>)
    requires state.Length == 8 && data.Length == BLOCK
    modifies state
    ensures Regs(state[..]) == Compress(Regs(old(state[..])), data[..])
  {
    hide Rounds, Schedule, Add;
    var w := Expand(data);
    var r := Mix(Registers(state[0], state[1], state[2], state[3], state[4], state[5], state[6], state[7]),
                 w[..], data[..]);
    state[0], state[1], state[2], state[3] :=
      Add(state[0], r.a), Add(state[1], r.b), Add(state[2], r.c), Add(state[3], r.d);
    state[4], state[5], state[6], state[7] :=
      Add(state[4], r.e), Add(state[5], r.f), Add(state[6], r.g), Add(state[7], r.h);
  }

  class Sha256Context {
    const state: array<Word>
    const data: array<Byte>
    var datalen: nat
    var bitlen: nat
    ghost var message: seq<Byte>

    ghost predicate Valid()
      reads this, state, data
    {
      && state.Length == 8 && data.Length == BLOCK
      && datalen == |message| % BLOCK && bitlen == 8 * |Whole(message)| % TWO_64
      && Absorbed(state[..], data[..datalen], message)
    }

    constructor ()
      ensures Valid() && message == [] && fresh(state) && fresh(data)
    {
      hide Absorbed;
      state := new Word[8];
      data := new Byte[64];
      datalen, bitlen, message := 0, 0, [];
      new;
      StartStream(state);
    }

    /** The body of the update loop. */
    method Absorb(x: Byte)
      requires Valid()
      modifies this, state, data
      ensures Valid() && message == old(message) + [x]
    {
      hide Absorbed, Compress;
      ghost var waiting := data[..datalen];
      data[datalen] := x;
      datalen := datalen + 1;
      message := message + [x];
      if datalen == 64 {
        assert data[..] == waiting + [x];
        Transform(state, data);
        bitlen := (bitlen + 512) % TWO_64;
        datalen := 0;
        BlockFills(old(state[..]), waiting, old(message), [x], state[..]);
        assert data[..0] == [];
      } else {
        ByteWaits(state[..], waiting, old(message), x);
        assert data[..datalen] == waiting + [x];
      }
    }

    method Update(bytes: seq<Byte>)
      requires Valid()
      modifies this, state, data
      ensures Valid() && message == old(message) + bytes
    {
      hide Absorbed;
      assert bytes[..0] == [];
      for i := 0 to |bytes|
        invariant Valid() && message == old(message) + bytes[..i]
      {
        Absorb(bytes[i]);
        assert bytes[..i + 1] == bytes[..i] + [bytes[i]];
      }
    }

    /** The marker and the zeros after it, up to the end of the buffer part they fill. */
    method Mark(end: nat)
      requires data.Length == BLOCK && datalen < end <= BLOCK
      modifies data
      ensures data[..end] == old(data[..datalen]) + [0x80] + Zeros(end - datalen - 1)
    {
      var i := datalen;
      data[i] := 0x80;
      i := i + 1;
      while i < end
        invariant datalen < i <= end
        invariant data[..datalen] == old(data[..datalen]) && data[datalen] == 0x80
        invariant forall j :: datalen < j < i ==> data[j] == 0
      {
        data[i] := 0x00;
        i := i + 1;
      }
    }

    /** The first half of the padding: marker and zeros, with an extra block when fewer than eight bytes would
        be left for the length. The stream has then absorbed `absorbed`, and 56 bytes wait in the buffer. */
    method CloseMessage() returns (ghost absorbed: seq<Byte>, ghost waiting: seq<Byte>)
      requires Valid()
      modifies state, data
      ensures Absorbed(state[..], waiting, absorbed) && |waiting| <= 56 && data[..|waiting|] == waiting
      ensures absorbed + data[|waiting|..56] == message + [0x80] + Zeros(ZeroCount(|message|))
    {
      hide Absorbed, Compress, Zeros;
      absorbed, waiting := message, data[..datalen];
      if datalen < 56 {
        Mark(56);
        assert data[..56] == waiting + data[datalen..56];
        assert state[..] == old(state[..]);
      } else {
        Mark(64);
        ghost var first := data[datalen..];
        assert data[..] == waiting + first == data[..64];
        assert first == [0x80] + Zeros(63 - datalen);
        assert state[..] == old(state[..]);
        Transform(state, data);
        BlockFills(old(state[..]), waiting, message, first, state[..]);
        absorbed, waiting := message + first, [];
        ghost var after := state[..];
        forall i | 0 <= i < 56 { data[i] := 0; }
        assert state[..] == after;
        assert Zeros(63 - datalen) + data[..56] == Zeros(119 - datalen);
      }
    }

    /** The digest of everything absorbed, however it was cut into updates. */
    method Final() returns (hash: array<Byte>)
      requires Valid()
      modifies this, state, data
      ensures fresh(hash) && hash[..] == Sha256(old(message))
    {
      hide Absorbed, Compress, Zeros, Pad, Process, Sha256, WordsBytes, ZeroCount, BigEndian;
      ghost var absorbed, waiting := CloseMessage();
      BitLength(message, bitlen);
      bitlen := (bitlen + datalen * 8) % TWO_64;
      ghost var before, fill := state[..], data[|waiting|..56];
      StoreLength();
      assert state[..] == before;
      ghost var last := data[|waiting|..];
      assert data[..] == waiting + last && last == fill + data[56..];
      Transform(state, data);
      BlockFills(before, waiting, absorbed, last, state[..]);
      PaddingIs(message, absorbed, fill, last);
      DigestReady(state[..], message);
      hash := Output(state);
    }

    /** The bit length, most significant byte first, in the last eight bytes of the buffer. */
    method StoreLength()
      requires data.Length == BLOCK
      modifies data
      ensures data[..56] == old(data[..56]) && data[56..] == BigEndian(bitlen, 8)
    {
      hide ByteOf, ShiftBytes, BigEndian;
      var i := 0;
      while i < 8
        invariant i <= 8 && data[..56] == old(data[..56])
        invariant forall j :: 0 <= j < i ==> data[56 + j] == BigEndian(bitlen, 8)[j]
      {
        BigEndianAt(bitlen, 8, i);
        data[56 + i] := ByteOf(ShiftBytes(bitlen, 7 - i));
        i := i + 1;
      }
    }
  }

  /** The digest bytes, one byte of every word at a time. */
  method Output(state: array<Word>) returns (hash: array<Byte>)
    requires state.Length == 8
    ensures fresh(hash) && hash.Length == 32 && hash[..] == WordsBytes(state[..])
  {
    hide ByteOf, ShiftBytes, BigEndian;
    hash := new Byte[32];
    var i := 0;
    while i < 4
      invariant i <= 4
      invariant forall j, r :: 0 <= j < 8 && 0 <= r < i ==> hash[4 * j + r] == BigEndian(state[j], 4)[r]
    {
      var word := 0;
      while word < 8
        invariant word <= 8
        invariant forall j, r :: 0 <= j < 8 && 0 <= r < i ==> hash[4 * j + r] == BigEndian(state[j], 4)[r]
        invariant forall j :: 0 <= j < word ==> hash[4 * j + i] == BigEndian(state[j], 4)[i]
      {
        BigEndianAt(state[word], 4, i);
        hash[i + 4 * word] := ByteOf(ShiftBytes(state[word], 3 - i));
        word := word + 1;
      }
      i := i + 1;
    }
    SameBytes(state[..], hash[..]);
  }

  /** The message authentication code of RFC 2104 for a key of any length. */
  method HmacSha256(key: seq<Byte>, data: seq<Byte>) returns (mac: array<Byte>)
    ensures fresh(mac) && mac[..] == Hmac(key, data)
  {
    hide Sha256, Sha256Context.Valid, XorAll, Zeros;
    var k := PaddedKey(key);
    var ipad, opad := KeyPads(k);
    var inner := new Sha256Context();
    inner.Update(ipad[..]);
    inner.Update(data);
    assert inner.message == XorAll(BlockKey(key), 0x36) + data;
    var innerHash := inner.Final();
    var outer := new Sha256Context();
    outer.Update(opad[..]);
    outer.Update(innerHash[..]);
    assert outer.message == XorAll(BlockKey(key), 0x5c) + innerHash[..];
    mac := outer.Final();
  }

  method PaddedKey(key: seq<Byte>) returns (k: array<Byte>)
    ensures fresh(k) && k[..] == BlockKey(key)
  {
    hide Sha256, Sha256Context.Valid;
    k := new Byte[64](_ => 0);
    if |key| > 64 {
      var ctx := new Sha256Context();
      ctx.Update(key);
      assert ctx.message == key;
      var digest := ctx.Final();
      forall i | 0 <= i < 32 { k[i] := digest[i]; }
    } else {
      forall i | 0 <= i < |key| { k[i] := key[i]; }
    }
  }

  method KeyPads(k: array<Byte>) returns (ipad: array<Byte>, opad: array<Byte>)
    requires k.Length == BLOCK
    ensures fresh(ipad) && fresh(opad)
    ensures ipad[..] == XorAll(k[..], 0x36) && opad[..] == XorAll(k[..], 0x5c)
  {
    hide XorByte;
    ipad, opad := new Byte[64], new Byte[64];
    var i := 0;
    while i < 64
      invariant i <= 64
      invariant forall j :: 0 <= j < i ==> ipad[j] == XorByte(k[j], 0x36) && opad[j] == XorByte(k[j], 0x5c)
    {
      ipad[i] := XorByte(k[i], 0x36);
      opad[i] := XorByte(k[i], 0x5c);
      i := i + 1;
    }
  }
}
