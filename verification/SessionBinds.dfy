/** The session-bind envelope: a connection-level frame of exactly one size, with or without the authentication
    extension. */
module SessionBinds {

  import opened Basics
  import opened Wire
  import opened Frames
  import opened Buffers
  import Codecs
  import Sha256Standard

  const PAYLOAD_SIZE := 36
  const NO_EXTENSION := Extension(0, 0, Sha256Standard.Zeros(16))

  datatype BindEnvelope = BindEnvelope(binding: Binding, sl1: bool, keyId: U16, extension: Extension)
  {
    predicate Valid() { binding.node != 0 && binding.runtime != 0 && binding.token != 0 }

    /** The code is an array of 16 bytes. */
    predicate WellFormed() { |extension.mac| == 16 }
  }

  function PayloadShape(): Shape {
    Then(Word(8), Then(Word(8), Then(Word(4), Then(Word(8), Word(8)))))
  }

  function PayloadTree(b: Binding): (t: Tree)
    ensures Fits(PayloadShape(), t)
  {
    Powers();
    Pair(Number(b.node), Pair(Number(b.runtime), Pair(Number(b.endpoint), Pair(Number(b.epoch), Number(b.token)))))
  }

  function BindingFrom(t: Tree): (b: Binding)
    requires Fits(PayloadShape(), t)
    ensures PayloadTree(b) == t
  {
    Powers();
    Binding(t.head.n, t.tail.head.n, t.tail.tail.head.n, t.tail.tail.tail.head.n, t.tail.tail.tail.tail.n)
  }

  lemma PayloadWidth()
    ensures Fixed(PayloadShape()) && Width(PayloadShape()) == PAYLOAD_SIZE
  {
  }

  function Payload(b: Binding): (r: Bytes)
    ensures |r| == PAYLOAD_SIZE
  {
    PayloadWidth();
    FixedWrites(PayloadShape(), PayloadTree(b));
    Write(PayloadShape(), PayloadTree(b))
  }

  function HeaderOf(sl1: bool): Header {
    NewHeader(SESSION_BIND, 0, 0, 0, PAYLOAD_SIZE).(flags := if sl1 then 1 else 0)
  }

  function Encode(b: BindEnvelope): Option<Bytes> {
    if !b.Valid() then None
    else Some(EncodeHeader(HeaderOf(b.sl1)) + (if b.sl1 then EncodeExtension(b.extension) else []) + Payload(b.binding))
  }

  predicate HeaderFits(h: Header, size: nat) {
    && h.magic == MAGIC && h.major == 0 && h.kind == SESSION_BIND && h.flags <= 1
    && h.request == 0 && h.execution == 0 && h.output == 0
    && h.payloadLen == PAYLOAD_SIZE && size == Overhead(h) + PAYLOAD_SIZE
  }

  function ParsePayload(payload: Bytes): Binding
    requires |payload| == PAYLOAD_SIZE
  {
    PayloadWidth();
    FixedReads(PayloadShape(), payload);
    WriteBack(PayloadShape(), payload);
    BindingFrom(Read(PayloadShape(), payload).tree)
  }

  function Checked(b: BindEnvelope): Option<BindEnvelope> {
    if b.Valid() then Some(b) else None
  }

  function DecodeSigned(data: Bytes): Option<BindEnvelope>
    requires |data| == HEADER_SIZE + EXTENSION_SIZE + PAYLOAD_SIZE
  {
    match DecodeExtension(data[HEADER_SIZE..])
    case None => None
    case Some(e) => Checked(BindEnvelope(ParsePayload(data[HEADER_SIZE + EXTENSION_SIZE..]), true, e.keyId, e))
  }

  function DecodePlain(data: Bytes): Option<BindEnvelope>
    requires |data| == HEADER_SIZE + PAYLOAD_SIZE
  {
    Checked(BindEnvelope(ParsePayload(data[HEADER_SIZE..]), false, 1, NO_EXTENSION))
  }

  function Decode(data: Bytes): Option<BindEnvelope> {
    match DecodeHeader(data)
    case None => None
    case Some(h) =>
      if !HeaderFits(h, |data|) then None else if h.Authenticated() then DecodeSigned(data) else DecodePlain(data)
  }

  /** A bind is encoded exactly if it names a node, a runtime and a token, and every decoded one does. */
  lemma BindsExactly(b: BindEnvelope, data: Bytes)
    ensures Encode(b).Some? <==> b.binding.node > 0 && b.binding.runtime > 0 && b.binding.token > 0
    ensures Decode(data).Some? ==>
              var d := Decode(data).value.binding; d.node > 0 && d.runtime > 0 && d.token > 0
  {
    hide DecodeHeader, DecodeExtension, EncodeHeader, ParsePayload, Payload;
  }

  lemma PayloadReadBack(b: Binding)
    ensures ParsePayload(Payload(b)) == b
  {
    hide PayloadShape, PayloadTree, Read;
    ReadBack(PayloadShape(), PayloadTree(b), []);
    assert Payload(b) + [] == Payload(b);
    SamePayload(b, ParsePayload(Payload(b)));
  }

  lemma SamePayload(b: Binding, c: Binding)
    requires PayloadTree(b) == PayloadTree(c)
    ensures b == c
  {
  }

  lemma PayloadWriteBack(payload: Bytes)
    requires |payload| == PAYLOAD_SIZE
    ensures Payload(ParsePayload(payload)) == payload
  {
    hide PayloadShape, PayloadTree, Read, Write;
    PayloadWidth();
    FixedReads(PayloadShape(), payload);
    WriteBack(PayloadShape(), payload);
    var w := Write(PayloadShape(), Read(PayloadShape(), payload).tree);
    assert w + Read(PayloadShape(), payload).rest == payload;
    assert Read(PayloadShape(), payload).rest == [];
    assert w + [] == w;
  }

  /** What a bind needs to come back as it was: the key it names is the key of its extension, and without an
      extension it names the default. */
  predicate Consistent(b: BindEnvelope) {
    if b.sl1 then b.keyId == b.extension.keyId else b.keyId == 1 && b.extension == NO_EXTENSION
  }

  /** The frame of a bind with any minor version in its header. */
  function FrameWithMinor(b: BindEnvelope, minor: U8): Bytes {
    EncodeHeader(HeaderOf(b.sl1).(minor := minor)) + (if b.sl1 then EncodeExtension(b.extension) else []) +
    Payload(b.binding)
  }

  lemma DecodesToItself(b: BindEnvelope, minor: U8)
    requires b.Valid() && b.WellFormed()
    ensures DecodeHeader(FrameWithMinor(b, minor)) == Some(HeaderOf(b.sl1).(minor := minor))
    ensures Decode(FrameWithMinor(b, minor)) ==
            Some(b.(keyId := if b.sl1 then b.extension.keyId else 1,
                    extension := if b.sl1 then b.extension else NO_EXTENSION))
  {
    hide EncodeHeader, DecodeHeader, ExtensionPrefix, DecodeExtension, Payload, ParsePayload;
    var h, payload := HeaderOf(b.sl1).(minor := minor), Payload(b.binding);
    PayloadReadBack(b.binding);
    if b.sl1 {
      Assembled(h, b.extension, payload);
    } else {
      var data := EncodeHeader(h) + [] + payload;
      assert data == EncodeHeader(h) + payload;
      HeaderReadBack(h, payload);
      assert data[HEADER_SIZE..] == payload;
    }
  }

  /** A valid bind comes back from its frame exactly when it is consistent. */
  lemma RoundTripsExactly(b: BindEnvelope)
    requires b.Valid() && b.WellFormed()
    ensures Encode(b).Some? && (Decode(Encode(b).value) == Some(b) <==> Consistent(b))
  {
    hide Decode, EncodeHeader, EncodeExtension, Payload;
    DecodesToItself(b, 2);
  }

  /** A frame that decodes is the one its bind encodes to exactly when it carries the minor version the encoder
      writes: the decoder does not look at it. */
  lemma EncodesBackExactly(data: Bytes)
    requires Decode(data).Some?
    ensures Consistent(Decode(data).value)
    ensures Encode(Decode(data).value) == Some(data) <==> DecodeHeader(data).value.minor == 2
  {
    hide EncodeHeader, DecodeHeader, EncodeExtension, DecodeExtension, Payload, ParsePayload;
    var b, h := Decode(data).value, DecodeHeader(data).value;
    HeaderWriteBack(data);
    assert h == HeaderOf(b.sl1).(minor := h.minor);
    var rest := (if b.sl1 then EncodeExtension(b.extension) else []) + Payload(b.binding);
    if b.sl1 {
      FrameParts(data);
      PayloadWriteBack(data[HEADER_SIZE + EXTENSION_SIZE..]);
    } else {
      PayloadWriteBack(data[HEADER_SIZE..]);
      assert rest == Payload(b.binding) && data == data[..HEADER_SIZE] + data[HEADER_SIZE..];
    }
    assert data == EncodeHeader(h) + rest;
    assert Encode(b).value == EncodeHeader(HeaderOf(b.sl1)) + rest;
    SameFront(h, HeaderOf(b.sl1), rest);
  }

  /** A bind frame of version 0.3 decodes, to a bind that encodes to another frame. */
  lemma AnotherVersionDecodes()
    ensures var b := BindEnvelope(Binding(1, 1, 0, 0, 1), false, 1, NO_EXTENSION);
            var data := FrameWithMinor(b, 3);
            Decode(data) == Some(b) && Encode(b) != Some(data)
  {
    hide Decode, EncodeHeader, DecodeHeader, Payload;
    var b := BindEnvelope(Binding(1, 1, 0, 0, 1), false, 1, NO_EXTENSION);
    DecodesToItself(b, 3);
    EncodesBackExactly(FrameWithMinor(b, 3));
  }

  /** Frames that differ in their headers differ. */
  lemma SameFront(h: Header, k: Header, rest: Bytes)
    ensures EncodeHeader(h) + rest == EncodeHeader(k) + rest <==> h == k
  {
    hide EncodeHeader, DecodeHeader;
    HeaderReadBack(h, rest);
    HeaderReadBack(k, rest);
  }

  // ---- In place ----------------------------------------------------------------------------------------------

  method EncodeSessionBind(b: BindEnvelope) returns (frame: Option<Bytes>)
    ensures frame == Encode(b)
  {
    hide EncodeHeader, EncodeExtension, PayloadShape, PayloadTree, Write;
    if !b.Valid() { return None; }
    var payload := new Buffer();
    payload.PutTree(PayloadShape(), PayloadTree(b.binding));
    assert payload.bytes == Payload(b.binding);
    var out := new Buffer();
    Codecs.PutHeader(HeaderOf(b.sl1), out);
    if b.sl1 { Codecs.PutExtension(b.extension, out); }
    assert out.bytes == EncodeHeader(HeaderOf(b.sl1)) + if b.sl1 then EncodeExtension(b.extension) else [];
    out.PutRaw(payload.bytes);
    frame := Some(out.bytes);
  }

  method ReadPayload(payload: Bytes) returns (b: Binding)
    requires |payload| == PAYLOAD_SIZE
    ensures b == ParsePayload(payload)
  {
    hide PayloadShape, PayloadTree, Read, Write, BindingFrom;
    var r := new BufferReader(payload);
    PayloadWidth();
    FixedReads(PayloadShape(), payload);
    WriteBack(PayloadShape(), payload);
    var ok, t := r.ReadTree(PayloadShape());
    b := BindingFrom(t);
  }

  method DecodeSessionBind(data: Bytes) returns (b: Option<BindEnvelope>)
    ensures b == Decode(data)
  {
    hide DecodeHeader, DecodeExtension, ParsePayload;
    var header := Codecs.ReadHeader(data);
    if header.None? { return None; }
    var h := header.value;
    if h.magic != MAGIC || h.major != 0 || h.kind != SESSION_BIND || h.flags > 1 { return None; }
    if h.request != 0 || h.execution != 0 || h.output != 0 || h.payloadLen != PAYLOAD_SIZE { return None; }
    var start := HEADER_SIZE + if h.Authenticated() then EXTENSION_SIZE else 0;
    if |data| != start + h.payloadLen { return None; }
    var bind := BindEnvelope(Binding(0, 0, 0, 0, 0), false, 1, NO_EXTENSION);
    if h.Authenticated() {
      var e := Codecs.ReadExtension(data[HEADER_SIZE..]);
      if e.None? { return None; }
      bind := bind.(sl1 := true, keyId := e.value.keyId, extension := e.value);
    }
    var binding := ReadPayload(data[start..]);
    bind := bind.(binding := binding);
    return if bind.Valid() then Some(bind) else None;
  }
}
