/** The frame every envelope travels in: a 32-byte header, for authenticated frames a 24-byte extension with the
    message authentication code, and the payload. */
module Frames {

  import opened Basics
  import opened Wire
  import Sha256Standard

  const MAGIC: U32 := 0x504E4C32
  const HEADER_SIZE := 32
  const EXTENSION_SIZE := 24
  const AUTHENTICATED: U8 := 1

  const REQUEST: U8 := 1
  const EVENT: U8 := 2
  const CONTROL: U8 := 3
  const CAPABILITIES: U8 := 4
  const SESSION_BIND: U8 := 5
  const RUNTIME_REGISTER: U8 := 6

  // ---- Header ------------------------------------------------------------------------------------------------

  datatype Header = Header(magic: U32, major: U8, minor: U8, kind: U8, flags: U8,
                           request: U64, execution: U64, output: U32, payloadLen: U32)
  {
    predicate Authenticated() { flags % 2 == 1 }
    function WithAuthentication(): Header { if flags % 2 == 1 then this else this.(flags := flags + 1) }
  }

  function NewHeader(kind: U8, request: U64, execution: U64, output: U32, payloadLen: U32): Header {
    Header(MAGIC, 0, 2, kind, 0, request, execution, output, payloadLen)
  }

  function Record8(a: Shape, b: Shape, c: Shape, d: Shape, e: Shape, f: Shape, g: Shape, rest: Shape): Shape {
    Then(a, Then(b, Then(c, Then(d, Then(e, Then(f, Then(g, rest)))))))
  }

  function HeaderShape(): Shape {
    Record8(Word(4), Word(1), Word(1), Word(1), Word(1), Word(8), Word(8), Then(Word(4), Word(4)))
  }

  function HeaderTree(h: Header): (t: Tree)
    ensures Fits(HeaderShape(), t)
  {
    Powers();
    Pair(Number(h.magic), Pair(Number(h.major), Pair(Number(h.minor), Pair(Number(h.kind), Pair(Number(h.flags),
    Pair(Number(h.request), Pair(Number(h.execution), Pair(Number(h.output), Number(h.payloadLen)))))))))
  }

  function HeaderFrom(t: Tree): (h: Header)
    requires Fits(HeaderShape(), t)
    ensures HeaderTree(h) == t
  {
    Powers();
    var a, b := t, t.tail;
    var c, d := b.tail, b.tail.tail;
    var e, f := d.tail, d.tail.tail;
    var g, k := f.tail, f.tail.tail;
    Header(a.head.n, b.head.n, c.head.n, d.head.n, e.head.n, f.head.n, g.head.n, k.head.n, k.tail.n)
  }

  lemma HeaderWidth()
    ensures Fixed(HeaderShape()) && Width(HeaderShape()) == HEADER_SIZE
  {
  }

  function EncodeHeader(h: Header): (b: Bytes)
    ensures |b| == HEADER_SIZE
  {
    HeaderWidth();
    FixedWrites(HeaderShape(), HeaderTree(h));
    Write(HeaderShape(), HeaderTree(h))
  }

  function DecodeHeader(b: Bytes): (h: Option<Header>)
    ensures h.Some? <==> |b| >= HEADER_SIZE
  {
    if |b| < HEADER_SIZE then None
    else
      HeaderWidth();
      FixedReads(HeaderShape(), b[..HEADER_SIZE]);
      WriteBack(HeaderShape(), b[..HEADER_SIZE]);
      Some(HeaderFrom(Read(HeaderShape(), b[..HEADER_SIZE]).tree))
  }

  lemma HeaderReadBack(h: Header, rest: Bytes)
    ensures DecodeHeader(EncodeHeader(h) + rest) == Some(h)
  {
    hide HeaderShape;
    var b := EncodeHeader(h);
    assert (b + rest)[..HEADER_SIZE] == b == b + [];
    ReadBack(HeaderShape(), HeaderTree(h), []);
    SameHeader(h, DecodeHeader(b + rest).value);
  }

  lemma SameHeader(h: Header, k: Header)
    requires HeaderTree(h) == HeaderTree(k)
    ensures h == k
  {
  }

  lemma HeaderWriteBack(b: Bytes)
    requires |b| >= HEADER_SIZE
    ensures EncodeHeader(DecodeHeader(b).value) == b[..HEADER_SIZE]
  {
    hide HeaderShape;
    HeaderWidth();
    FixedReads(HeaderShape(), b[..HEADER_SIZE]);
    WriteBack(HeaderShape(), b[..HEADER_SIZE]);
  }

  // ---- Authentication extension ------------------------------------------------------------------------------

  datatype Extension = Extension(number: U32, keyId: U16, mac: Bytes)

  function ExtensionShape(): Shape {
    Then(Word(4), Then(Word(2), Word(2)))
  }

  function ExtensionTree(number: U32, keyId: U16): (t: Tree)
    ensures Fits(ExtensionShape(), t)
  {
    Powers();
    Pair(Number(number), Pair(Number(keyId), Number(0)))
  }

  lemma ExtensionWidth()
    ensures Fixed(ExtensionShape()) && Width(ExtensionShape()) == 8
  {
  }

  /** Number, key and the reserved zero: what precedes the code in the extension and goes into it. */
  function ExtensionPrefix(number: U32, keyId: U16): (b: Bytes)
    ensures |b| == 8
  {
    ExtensionWidth();
    FixedWrites(ExtensionShape(), ExtensionTree(number, keyId));
    Write(ExtensionShape(), ExtensionTree(number, keyId))
  }

  function EncodeExtension(e: Extension): Bytes {
    ExtensionPrefix(e.number, e.keyId) + e.mac
  }

  function DecodeExtension(b: Bytes): (e: Option<Extension>)
    ensures e.Some? ==> |b| >= EXTENSION_SIZE && |e.value.mac| == 16
  {
    if |b| < EXTENSION_SIZE then None
    else
      ExtensionWidth();
      FixedReads(ExtensionShape(), b[..EXTENSION_SIZE]);
      WriteBack(ExtensionShape(), b[..EXTENSION_SIZE]);
      Powers();
      var t := Read(ExtensionShape(), b[..EXTENSION_SIZE]).tree;
      if t.tail.tail.n != 0 then None
      else Some(Extension(t.head.n, t.tail.head.n, b[8..24]))
  }

  lemma ExtensionReadBack(e: Extension, rest: Bytes)
    requires |e.mac| == 16
    ensures DecodeExtension(EncodeExtension(e) + rest) == Some(e)
  {
    var b := EncodeExtension(e) + rest;
    assert b[..EXTENSION_SIZE] == ExtensionPrefix(e.number, e.keyId) + e.mac;
    ReadBack(ExtensionShape(), ExtensionTree(e.number, e.keyId), e.mac);
    assert b[8..24] == e.mac;
  }

  lemma ExtensionWriteBack(b: Bytes)
    requires DecodeExtension(b).Some?
    ensures EncodeExtension(DecodeExtension(b).value) == b[..EXTENSION_SIZE]
  {
    ExtensionWidth();
    FixedReads(ExtensionShape(), b[..EXTENSION_SIZE]);
    WriteBack(ExtensionShape(), b[..EXTENSION_SIZE]);
    var e := DecodeExtension(b).value;
    assert Read(ExtensionShape(), b[..EXTENSION_SIZE]).tree == ExtensionTree(e.number, e.keyId);
    assert b[..EXTENSION_SIZE] == b[..8] + b[8..24];
  }

  // ---- The code over a frame ---------------------------------------------------------------------------------

  datatype Binding = Binding(node: U64, runtime: U64, endpoint: U32, epoch: U64, token: U64)

  const INITIATOR_TO_RESPONDER: U8 := 1
  const RESPONDER_TO_INITIATOR: U8 := 2

  function BindingShape(): Shape {
    Then(Word(8), Then(Word(8), Then(Word(4), Then(Word(8), Then(Word(8),
    Then(Word(1), Then(Word(1), Then(Word(1), Word(1)))))))))
  }

  function BindingTree(b: Binding, direction: U8): (t: Tree)
    ensures Fits(BindingShape(), t)
  {
    Powers();
    Pair(Number(b.node), Pair(Number(b.runtime), Pair(Number(b.endpoint), Pair(Number(b.epoch), Pair(Number(b.token),
    Pair(Number(direction), Pair(Number(0), Pair(Number(0), Number(0)))))))))
  }

  lemma BindingWidth()
    ensures Fixed(BindingShape()) && Width(BindingShape()) == 40
  {
  }

  function BindingBytes(b: Binding, direction: U8): (r: Bytes)
    ensures |r| == 40
  {
    BindingWidth();
    FixedWrites(BindingShape(), BindingTree(b, direction));
    Write(BindingShape(), BindingTree(b, direction))
  }

  function MacInput(h: Header, number: U32, keyId: U16, binding: Binding, direction: U8, payload: Bytes): Bytes {
    EncodeHeader(h) + (ExtensionPrefix(number, keyId) + (BindingBytes(binding, direction) + payload))
  }

  type Key = Bytes

  function Mac(key: Key, input: Bytes): (m: Bytes)
    ensures |m| == 16
  {
    if key == [] then Sha256Standard.Zeros(16) else Sha256Standard.Hmac(key, input)[..16]
  }

  /** The code covers everything: frames with the same input agree in header, number, key, binding, direction
      and payload. */
  lemma MacInputIsInjective(h: Header, number: U32, keyId: U16, binding: Binding, direction: U8, payload: Bytes,
                            h': Header, number': U32, keyId': U16, binding': Binding, direction': U8, payload': Bytes)
    requires MacInput(h, number, keyId, binding, direction, payload) ==
             MacInput(h', number', keyId', binding', direction', payload')
    ensures h == h' && number == number' && keyId == keyId' && binding == binding' && direction == direction'
    ensures payload == payload'
  {
    hide HeaderShape, ExtensionShape, BindingShape, HeaderTree, ExtensionTree, BindingTree;
    var b, b' := BindingBytes(binding, direction), BindingBytes(binding', direction');
    var e, e' := ExtensionPrefix(number, keyId), ExtensionPrefix(number', keyId');
    WritesApart(HeaderShape(), HeaderTree(h), HeaderTree(h'), e + (b + payload), e' + (b' + payload'));
    WritesApart(ExtensionShape(), ExtensionTree(number, keyId), ExtensionTree(number', keyId'), b + payload,
                b' + payload');
    WritesApart(BindingShape(), BindingTree(binding, direction), BindingTree(binding', direction'), payload, payload');
    SameHeader(h, h');
    SameExtension(number, keyId, number', keyId');
    SameBinding(binding, direction, binding', direction');
  }

  lemma SameExtension(number: U32, keyId: U16, number': U32, keyId': U16)
    requires ExtensionTree(number, keyId) == ExtensionTree(number', keyId')
    ensures number == number' && keyId == keyId'
  {
  }

  lemma SameBinding(b: Binding, direction: U8, b': Binding, direction': U8)
    requires BindingTree(b, direction) == BindingTree(b', direction')
    ensures b == b' && direction == direction'
  {
  }

  // ---- Signing and verifying ---------------------------------------------------------------------------------

  /** Turns header and payload into header, extension and payload. */
  function Sign(buffer: Bytes, binding: Binding, direction: U8, number: U32, keyId: U16, key: Key): Option<Bytes> {
    if |buffer| < HEADER_SIZE || key == [] || number == 0 then None
    else
      var h := DecodeHeader(buffer).value;
      if |buffer| != HEADER_SIZE + h.payloadLen then None
      else
        var payload := buffer[HEADER_SIZE..];
        var signed := h.WithAuthentication();
        var mac := Mac(key, MacInput(signed, number, keyId, binding, direction, payload));
        Some(EncodeHeader(signed) + EncodeExtension(Extension(number, keyId, mac)) + payload)
  }

  function Verify(data: Bytes, binding: Binding, direction: U8, key: Key): Option<Extension> {
    if |data| < HEADER_SIZE + EXTENSION_SIZE then None
    else
      var h := DecodeHeader(data).value;
      if !h.Authenticated() || |data| != HEADER_SIZE + EXTENSION_SIZE + h.payloadLen then None
      else match DecodeExtension(data[HEADER_SIZE..])
           case None => None
           case Some(e) =>
             var payload := data[HEADER_SIZE + EXTENSION_SIZE..];
            if e.mac == Mac(key, MacInput(h, e.number, e.keyId, binding, direction, payload))
             then Some(e) else None
  }

  lemma Assembled(h: Header, e: Extension, payload: Bytes)
    requires |e.mac| == 16
    ensures var data := EncodeHeader(h) + EncodeExtension(e) + payload;
            && DecodeHeader(data) == Some(h) && |data| == HEADER_SIZE + EXTENSION_SIZE + |payload|
            && DecodeExtension(data[HEADER_SIZE..]) == Some(e)
            && data[HEADER_SIZE + EXTENSION_SIZE..] == payload
  {
    hide DecodeHeader, DecodeExtension, ExtensionPrefix;
    var data := EncodeHeader(h) + EncodeExtension(e) + payload;
    assert data == EncodeHeader(h) + (EncodeExtension(e) + payload);
    HeaderReadBack(h, EncodeExtension(e) + payload);
    assert data[HEADER_SIZE..] == EncodeExtension(e) + payload;
    ExtensionReadBack(e, payload);
  }

  /** A signed frame verifies under the same binding, direction and key, and carries its number and key; its
      header is the original one but for the flag, and its payload is untouched. */
  lemma SignedFrameVerifies(buffer: Bytes, binding: Binding, direction: U8, number: U32, keyId: U16, key: Key)
    requires Sign(buffer, binding, direction, number, keyId, key).Some?
    ensures var data := Sign(buffer, binding, direction, number, keyId, key).value;
            && |data| == |buffer| + EXTENSION_SIZE
            && DecodeHeader(data) == Some(DecodeHeader(buffer).value.WithAuthentication())
            && data[HEADER_SIZE + EXTENSION_SIZE..] == buffer[HEADER_SIZE..]
            && Verify(data, binding, direction, key).Some?
            && Verify(data, binding, direction, key).value.number == number
            && Verify(data, binding, direction, key).value.keyId == keyId
  {
    hide EncodeHeader, DecodeHeader, MacInput, Mac, EncodeExtension, DecodeExtension;
    var h := DecodeHeader(buffer).value.WithAuthentication();
    var payload := buffer[HEADER_SIZE..];
    Assembled(h, Extension(number, keyId, Mac(key, MacInput(h, number, keyId, binding, direction, payload))), payload);
  }

  /** What the code of a frame is computed over. */
  function InputOf(data: Bytes, binding: Binding, direction: U8): Bytes
    requires |data| >= HEADER_SIZE + EXTENSION_SIZE && DecodeExtension(data[HEADER_SIZE..]).Some?
  {
    var e := DecodeExtension(data[HEADER_SIZE..]).value;
    MacInput(DecodeHeader(data).value, e.number, e.keyId, binding, direction, data[HEADER_SIZE + EXTENSION_SIZE..])
  }

  /** A frame that verifies is determined by its input and its key: two that agree in both are the same bytes,
      and were made for the same binding and direction. */
  lemma InputDeterminesFrame(data: Bytes, binding: Binding, direction: U8, data': Bytes, binding': Binding,
                             direction': U8, key: Key)
    requires Verify(data, binding, direction, key).Some? && Verify(data', binding', direction', key).Some?
    requires InputOf(data, binding, direction) == InputOf(data', binding', direction')
    ensures data == data' && binding == binding' && direction == direction'
  {
    hide EncodeHeader, MacInput, Mac, ExtensionPrefix;
    var e, e' := DecodeExtension(data[HEADER_SIZE..]).value, DecodeExtension(data'[HEADER_SIZE..]).value;
    var h, h' := DecodeHeader(data).value, DecodeHeader(data').value;
    var p, p' := data[HEADER_SIZE + EXTENSION_SIZE..], data'[HEADER_SIZE + EXTENSION_SIZE..];
    MacInputIsInjective(h, e.number, e.keyId, binding, direction, p, h', e'.number, e'.keyId, binding', direction', p');
    FrameParts(data);
    FrameParts(data');
  }

  lemma FrameParts(data: Bytes)
    requires |data| >= HEADER_SIZE + EXTENSION_SIZE && DecodeExtension(data[HEADER_SIZE..]).Some?
    ensures data == EncodeHeader(DecodeHeader(data).value) +
                    (EncodeExtension(DecodeExtension(data[HEADER_SIZE..]).value) + data[HEADER_SIZE + EXTENSION_SIZE..])
  {
    hide EncodeHeader, DecodeHeader, DecodeExtension, EncodeExtension;
    HeaderWriteBack(data);
    ExtensionWriteBack(data[HEADER_SIZE..]);
    assert data == data[..HEADER_SIZE] + (data[HEADER_SIZE..][..EXTENSION_SIZE] + data[HEADER_SIZE + EXTENSION_SIZE..]);
  }

  // ---- Envelopes in frames -----------------------------------------------------------------------------------

  /** The frame the encoders build around a payload. */
  function Frame(kind: U8, stream: StreamId, payload: Bytes): Bytes {
    EncodeHeader(NewHeader(kind, stream.request, stream.execution, stream.output, |payload| % 0x1_0000_0000)) + payload
  }

  datatype Opened = Opened(stream: StreamId, payload: Bytes)

  function Overhead(h: Header): nat {
    HEADER_SIZE + if h.Authenticated() then EXTENSION_SIZE else 0
  }

  /** What the decoders look at: the stream of the header and the payload behind it, past the extension if the
      flag says there is one. Bytes after the payload are not looked at. */
  function Open(data: Bytes, kind: U8): Option<Opened> {
    if |data| < HEADER_SIZE then None
    else
      var h := DecodeHeader(data).value;
      if h.magic != MAGIC || h.major != 0 || h.kind != kind || |data| < Overhead(h) + h.payloadLen then None
      else Some(Opened(StreamId(h.request, h.execution, h.output), data[Overhead(h)..Overhead(h) + h.payloadLen]))
  }

  lemma OpenFrame(kind: U8, stream: StreamId, payload: Bytes)
    requires |payload| < 0x1_0000_0000
    ensures Open(Frame(kind, stream, payload), kind) == Some(Opened(stream, payload))
    ensures DecodeHeader(Frame(kind, stream, payload)) ==
            Some(NewHeader(kind, stream.request, stream.execution, stream.output, |payload|))
  {
    hide EncodeHeader, DecodeHeader;
    var h := NewHeader(kind, stream.request, stream.execution, stream.output, |payload|);
    HeaderReadBack(h, payload);
    var data := Frame(kind, stream, payload);
    assert data[HEADER_SIZE..HEADER_SIZE + |payload|] == payload;
  }

  /** Signing is invisible to the decoders: a frame opens to the same stream and payload before and after. */
  lemma OpenSigned(kind: U8, stream: StreamId, payload: Bytes, binding: Binding, direction: U8, number: U32,
                   keyId: U16, key: Key)
    requires |payload| < 0x1_0000_0000 && key != [] && number != 0
    ensures var signed := Sign(Frame(kind, stream, payload), binding, direction, number, keyId, key);
            signed.Some? && Open(signed.value, kind) == Some(Opened(stream, payload))
  {
    hide EncodeHeader, DecodeHeader, MacInput, Mac, EncodeExtension, DecodeExtension;
    var frame := Frame(kind, stream, payload);
    OpenFrame(kind, stream, payload);
    SignedFrameVerifies(frame, binding, direction, number, keyId, key);
    var data := Sign(frame, binding, direction, number, keyId, key).value;
    assert frame[HEADER_SIZE..] == payload;
    assert data[56..56 + |payload|] == data[HEADER_SIZE + EXTENSION_SIZE..] == payload;
  }

  /** A frame too long for its length field is cut: what opens is shorter than what was put in, by 2^32 or more. */
  lemma OpenOverlong(kind: U8, stream: StreamId, payload: Bytes)
    requires |payload| >= 0x1_0000_0000
    ensures var o := Open(Frame(kind, stream, payload), kind);
            o.Some? ==> |o.value.payload| + 0x1_0000_0000 <= |payload|
  {
    hide EncodeHeader, DecodeHeader;
    HeaderReadBack(NewHeader(kind, stream.request, stream.execution, stream.output, |payload| % 0x1_0000_0000),
                   payload);
  }
}
