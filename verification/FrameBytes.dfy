/** Frames byte by byte: where every field lies, which bytes open and which verify. */
module FrameBytes {

  import opened Basics
  import opened Wire
  import opened Frames
  import Sha256Standard

  // ---- Where the fields lie ----------------------------------------------------------------------------------

  /** The 32 bytes of a header: four of magic, two of version, kind, flags, request, execution, output and the length of
      the payload, numbers with their low byte first. */
  lemma HeaderLayout(h: Header)
    ensures EncodeHeader(h) == Little(h.magic, 4) + [h.major, h.minor, h.kind, h.flags] + Little(h.request, 8) +
                               Little(h.execution, 8) + Little(h.output, 4) + Little(h.payloadLen, 4)
  {
    hide Little;
    OneByte(h.major);
    OneByte(h.minor);
    OneByte(h.kind);
    OneByte(h.flags);
  }

  lemma OneByte(n: U8)
    ensures Little(n, 1) == [n]
  {
    assert Little(n / 256, 0) == [];
  }

  /** The 24 bytes of the extension: number, key, two zeros and the code. */
  lemma ExtensionLayout(e: Extension)
    ensures EncodeExtension(e) == Little(e.number, 4) + Little(e.keyId, 2) + [0, 0] + e.mac
  {
    assert Little(0, 2) == [0, 0] by { assert Little(0, 1) == [0] + Little(0, 0); }
    hide Little;
  }

  /** The code is the first half of the HMAC over header, extension, binding, direction and payload; without a key it is
      zero. */
  lemma CodeLayout(h: Header, e: Extension, b: Binding, direction: U8, payload: Bytes, key: Key)
    ensures MacInput(h, e.number, e.keyId, b, direction, payload) ==
            EncodeHeader(h) + (Little(e.number, 4) + Little(e.keyId, 2) + [0, 0] +
            (Little(b.node, 8) + Little(b.runtime, 8) + Little(b.endpoint, 4) + Little(b.epoch, 8) +
             Little(b.token, 8) + [direction, 0, 0, 0] + payload))
    ensures Mac([], payload) == Sha256Standard.Zeros(16)
    ensures key != [] ==> Mac(key, payload) == Sha256Standard.Hmac(key, payload)[..16]
  {
    hide Little, EncodeHeader, ExtensionPrefix, BindingBytes, Sha256Standard.Hmac;
    BindingLayout(b, direction);
    ExtensionLayout(e.(mac := []));
    assert EncodeExtension(e.(mac := [])) == ExtensionPrefix(e.number, e.keyId);
  }

  lemma BindingLayout(b: Binding, direction: U8)
    ensures BindingBytes(b, direction) ==
            Little(b.node, 8) + Little(b.runtime, 8) + Little(b.endpoint, 4) + Little(b.epoch, 8) + Little(b.token, 8) +
            [direction, 0, 0, 0]
  {
    hide Little;
    OneByte(direction);
    OneByte(0);
    var tail := Then(Word(1), Then(Word(1), Then(Word(1), Word(1))));
    var flags := Pair(Number(direction), Pair(Number(0), Pair(Number(0), Number(0))));
    assert Write(tail, flags) == [direction, 0, 0, 0];
  }

  // ---- Which frames open -------------------------------------------------------------------------------------

  function SizeIn(data: Bytes): nat
    requires |data| >= HEADER_SIZE
  {
    FromLittle(data[28..32])
  }

  lemma HeaderSplits(h: Header)
    ensures var b := EncodeHeader(h);
            && b[..4] == Little(h.magic, 4) && b[4..8] == [h.major, h.minor, h.kind, h.flags]
            && b[8..16] == Little(h.request, 8) && b[16..24] == Little(h.execution, 8)
            && b[24..28] == Little(h.output, 4) && b[28..32] == Little(h.payloadLen, 4)
  {
    hide Little, EncodeHeader;
    HeaderLayout(h);
  }

  /** The fields that the bytes of a header tell. */
  predicate Reads(h: Header, b: Bytes)
    requires |b| == HEADER_SIZE
  {
    && (h.magic == MAGIC <==> b[..4] == Little(MAGIC, 4))
    && b[4..8] == [h.major, h.minor, h.kind, h.flags] && h.payloadLen == FromLittle(b[28..32])
    && h.request == FromLittle(b[8..16]) && h.execution == FromLittle(b[16..24]) && h.output == FromLittle(b[24..28])
  }

  lemma EncodedReads(h: Header)
    ensures Reads(h, EncodeHeader(h))
  {
    Powers();
    hide Little, EncodeHeader, Power256, FromLittle;
    HeaderSplits(h);
    LittleRoundTrip(h.magic, 4);
    LittleRoundTrip(MAGIC, 4);
    LittleRoundTrip(h.request, 8);
    LittleRoundTrip(h.execution, 8);
    LittleRoundTrip(h.output, 4);
    LittleRoundTrip(h.payloadLen, 4);
  }

  lemma HeaderIn(data: Bytes)
    requires |data| >= HEADER_SIZE
    ensures Reads(DecodeHeader(data).value, data[..HEADER_SIZE])
    ensures DecodeHeader(data).value.payloadLen == SizeIn(data)
  {
    hide EncodeHeader, DecodeHeader;
    HeaderWriteBack(data);
    EncodedReads(DecodeHeader(data).value);
    hide FromLittle;
    assert data[..HEADER_SIZE][28..32] == data[28..32];
  }

  /** Where the payload starts: behind the header, and behind the extension if the lowest flag is set. */
  function Start(data: Bytes): nat
    requires |data| >= HEADER_SIZE
  {
    if data[7] % 2 == 1 then 56 else 32
  }

  function StreamIn(data: Bytes): StreamId
    requires |data| >= HEADER_SIZE
  {
    HeaderIn(data);
    StreamId(FromLittle(data[..32][8..16]), FromLittle(data[..32][16..24]), FromLittle(data[..32][24..28]))
  }

  /** The frame is one of that kind, and as long as it announces. */
  predicate IsWhole(data: Bytes, kind: U8) {
    && |data| >= HEADER_SIZE && data[..4] == Little(MAGIC, 4) && data[4] == 0 && data[6] == kind
    && |data| >= Start(data) + SizeIn(data)
  }

  /** A frame opens as an envelope exactly if it has the magic, major version 0 and that kind, and as many bytes
      behind the header, and behind the extension if the lowest flag is set, as its length says; the payload is those
      bytes. */
  lemma OpensExactly(data: Bytes, kind: U8)
    ensures Open(data, kind).Some? <==> IsWhole(data, kind)
    ensures IsWhole(data, kind) ==>
              Open(data, kind) == Some(Opened(StreamIn(data), data[Start(data)..Start(data) + SizeIn(data)]))
  {
    hide Little, DecodeHeader, FromLittle;
    if |data| >= HEADER_SIZE {
      HeaderIn(data);
      var b := data[..HEADER_SIZE];
      assert b[..4] == data[..4] && b[4..8] == data[4..8];
      assert data[4] == data[4..8][0] && data[6] == data[4..8][2] && data[7] == data[4..8][3];
    }
  }

  // ---- Which frames verify -----------------------------------------------------------------------------------

  function Unflagged(h: Header): Header
    requires h.Authenticated()
  {
    h.(flags := h.flags - 1)
  }

  /** The frame before it was signed. */
  function Unsigned(data: Bytes): Bytes
    requires |data| >= HEADER_SIZE + EXTENSION_SIZE && DecodeHeader(data).value.Authenticated()
  {
    EncodeHeader(Unflagged(DecodeHeader(data).value)) + data[HEADER_SIZE + EXTENSION_SIZE..]
  }

  lemma UnsignedSigns(data: Bytes, b: Binding, direction: U8, key: Key, e: Extension)
    requires Verify(data, b, direction, key) == Some(e) && key != [] && e.number != 0
    ensures Sign(Unsigned(data), b, direction, e.number, e.keyId, key) == Some(data)
  {
    hide EncodeHeader, DecodeHeader, DecodeExtension, EncodeExtension, MacInput, Mac;
    var h := DecodeHeader(data).value;
    var plain, payload := Unflagged(h), data[HEADER_SIZE + EXTENSION_SIZE..];
    FrameParts(data);
    HeaderReadBack(plain, payload);
    assert Unsigned(data)[HEADER_SIZE..] == payload;
    assert plain.WithAuthentication() == h;
    assert data == EncodeHeader(h) + EncodeExtension(e) + payload;
  }

  /** Under a key, a frame verifies with a number other than zero exactly if it is what signing makes of some frame,
      with that number and key. */
  lemma VerifiesExactly(data: Bytes, b: Binding, direction: U8, key: Key, number: U32, keyId: U16)
    requires key != [] && number != 0
    ensures (Verify(data, b, direction, key).Some? && Verify(data, b, direction, key).value.number == number
             && Verify(data, b, direction, key).value.keyId == keyId) <==>
            exists buffer :: Sign(buffer, b, direction, number, keyId, key) == Some(data)
  {
    hide Sign, Verify;
    if Verify(data, b, direction, key).Some? {
      var e := Verify(data, b, direction, key).value;
      if e.number == number && e.keyId == keyId {
        VerifiedIsFlagged(data, b, direction, key);
        UnsignedSigns(data, b, direction, key, e);
      }
    }
    if exists buffer :: Sign(buffer, b, direction, number, keyId, key) == Some(data) {
      var buffer :| Sign(buffer, b, direction, number, keyId, key) == Some(data);
      SignedFrameVerifies(buffer, b, direction, number, keyId, key);
    }
  }

  lemma VerifiedIsFlagged(data: Bytes, b: Binding, direction: U8, key: Key)
    requires Verify(data, b, direction, key).Some?
    ensures |data| >= HEADER_SIZE + EXTENSION_SIZE && DecodeHeader(data).value.Authenticated()
  {
    hide DecodeHeader, MacInput, Mac, DecodeExtension;
  }

  /** A frame is signed exactly if its length is the one it announces, a key is given and a number other than zero. */
  lemma SignsExactly(buffer: Bytes, b: Binding, direction: U8, number: U32, keyId: U16, key: Key)
    ensures Sign(buffer, b, direction, number, keyId, key).Some? <==>
            key != [] && number != 0 && |buffer| >= HEADER_SIZE && |buffer| == HEADER_SIZE + SizeIn(buffer)
  {
    hide DecodeHeader, EncodeHeader, MacInput, Mac, EncodeExtension, SizeIn;
    if |buffer| >= HEADER_SIZE { HeaderIn(buffer); }
  }
}
