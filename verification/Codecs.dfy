/** The encoders and decoders in place: buffers that are appended to and spliced, readers that move, and loops over
    fields. Each does what the layouts say. */
module Codecs {

  import opened Basics
  import opened Wire
  import opened Frames
  import opened Buffers
  import Capabilities
  import CoreSha256
  import Events
  import OptionOrder
  import Requests
  import Sha256Standard

  // ---- Header and extension ----------------------------------------------------------------------------------

  method PutHeader(h: Header, out: Buffer)
    modifies out
    ensures out.bytes == old(out.bytes) + EncodeHeader(h)
  {
    hide HeaderShape, HeaderTree, Write;
    out.PutTree(HeaderShape(), HeaderTree(h));
  }

  method ReadHeader(data: Bytes) returns (h: Option<Header>)
    ensures h == DecodeHeader(data)
  {
    hide HeaderShape, HeaderTree, Read, Fits, HeaderFrom;
    if |data| < HEADER_SIZE { return None; }
    var r := new BufferReader(data[..HEADER_SIZE]);
    var ok, t := r.ReadTree(HeaderShape());
    HeaderWidth();
    FixedReads(HeaderShape(), data[..HEADER_SIZE]);
    WriteBack(HeaderShape(), data[..HEADER_SIZE]);
    h := Some(HeaderFrom(t));
  }

  method PutExtension(e: Extension, out: Buffer)
    modifies out
    ensures out.bytes == old(out.bytes) + EncodeExtension(e)
  {
    hide ExtensionShape, ExtensionTree, Write;
    out.PutTree(ExtensionShape(), ExtensionTree(e.number, e.keyId));
    out.PutRaw(e.mac);
  }

  method ReadExtension(data: Bytes) returns (e: Option<Extension>)
    ensures e == DecodeExtension(data)
  {
    hide Read, Write;
    if |data| < EXTENSION_SIZE { return None; }
    ghost var block := data[..EXTENSION_SIZE];
    var r := new BufferReader(data[..EXTENSION_SIZE]);
    var ok, t := r.ReadTree(ExtensionShape());
    ExtensionWidth();
    FixedReads(ExtensionShape(), block);
    WriteBack(ExtensionShape(), block);
    Powers();
    if t.tail.tail.n != 0 { return None; }
    e := Some(Extension(t.head.n, t.tail.head.n, data[8..24]));
  }

  // ---- Signing in place --------------------------------------------------------------------------------------

  method ComputeMac(key: Key, h: Header, number: U32, keyId: U16, binding: Binding, direction: U8, payload: Bytes)
    returns (mac: Bytes)
    ensures mac == Mac(key, MacInput(h, number, keyId, binding, direction, payload))
  {
    hide EncodeHeader, ExtensionShape, ExtensionTree, BindingShape, BindingTree, Write, Sha256Standard.Hmac;
    if key == [] { return Sha256Standard.Zeros(16); }
    var out := new Buffer();
    PutHeader(h, out);
    out.PutTree(ExtensionShape(), ExtensionTree(number, keyId));
    out.PutTree(BindingShape(), BindingTree(binding, direction));
    out.PutRaw(payload);
    assert out.bytes == MacInput(h, number, keyId, binding, direction, payload);
    var full := CoreSha256.HmacSha256(key, out.bytes);
    mac := full[..16];
    assert mac == full[..][..16];
  }

  /** Marks the header as authenticated and splices the extension in behind it; a buffer that is not signed is
      left as it was. */
  method SignEnvelopeBuffer(buffer: Buffer, binding: Binding, direction: U8, number: U32, keyId: U16, key: Key)
    returns (ok: bool)
    modifies buffer
    ensures var signed := Sign(old(buffer.bytes), binding, direction, number, keyId, key);
            ok == signed.Some? && buffer.bytes == if ok then signed.value else old(buffer.bytes)
  {
    hide EncodeHeader, DecodeHeader, MacInput, Mac, EncodeExtension;
    if |buffer.bytes| < HEADER_SIZE || key == [] || number == 0 { return false; }
    var header := ReadHeader(buffer.bytes);
    var h := header.value;
    if |buffer.bytes| != HEADER_SIZE + h.payloadLen { return false; }
    h := h.WithAuthentication();
    var payload := buffer.bytes[HEADER_SIZE..];
    var mac := ComputeMac(key, h, number, keyId, binding, direction, payload);
    var newHeader := new Buffer();
    var extension := new Buffer();
    PutHeader(h, newHeader);
    PutExtension(Extension(number, keyId, mac), extension);
    Overwrite(buffer, newHeader.bytes);
    Splice(buffer, HEADER_SIZE, extension.bytes);
    ok := true;
  }

  method Overwrite(buffer: Buffer, front: Bytes)
    requires |front| <= |buffer.bytes|
    modifies buffer
    ensures buffer.bytes == front + old(buffer.bytes)[|front|..]
  {
    buffer.bytes := front + buffer.bytes[|front|..];
  }

  method Splice(buffer: Buffer, at: nat, inserted: Bytes)
    requires at <= |buffer.bytes|
    modifies buffer
    ensures buffer.bytes == old(buffer.bytes)[..at] + inserted + old(buffer.bytes)[at..]
  {
    buffer.bytes := buffer.bytes[..at] + inserted + buffer.bytes[at..];
  }

  method VerifyEnvelopeBuffer(data: Bytes, binding: Binding, direction: U8, key: Key) returns (e: Option<Extension>)
    ensures e == Verify(data, binding, direction, key)
  {
    hide DecodeHeader, MacInput, Mac, DecodeExtension;
    if |data| < HEADER_SIZE + EXTENSION_SIZE { return None; }
    var header := ReadHeader(data);
    var h := header.value;
    if !h.Authenticated() || |data| != HEADER_SIZE + EXTENSION_SIZE + h.payloadLen { return None; }
    e := ReadExtension(data[HEADER_SIZE..]);
    if e.None? { return None; }
    var mac := ComputeMac(key, h, e.value.number, e.value.keyId, binding, direction,
                          data[HEADER_SIZE + EXTENSION_SIZE..]);
    if e.value.mac != mac { return None; }
  }

  // ---- Frames ------------------------------------------------------------------------------------------------

  method BuildFrame(kind: U8, stream: StreamId, payload: Bytes) returns (frame: Bytes)
    ensures frame == Frame(kind, stream, payload)
  {
    hide EncodeHeader;
    var out := new Buffer();
    PutHeader(NewHeader(kind, stream.request, stream.execution, stream.output, |payload| % 0x1_0000_0000), out);
    out.PutRaw(payload);
    assert [] + EncodeHeader(NewHeader(kind, stream.request, stream.execution, stream.output,
                                       |payload| % 0x1_0000_0000)) ==
           EncodeHeader(NewHeader(kind, stream.request, stream.execution, stream.output, |payload| % 0x1_0000_0000));
    frame := out.bytes;
  }

  method OpenFrame(data: Bytes, kind: U8) returns (o: Option<Opened>)
    ensures o == Open(data, kind)
  {
    hide DecodeHeader;
    var header := ReadHeader(data);
    if header.None? { return None; }
    var h := header.value;
    if h.magic != MAGIC || h.major != 0 || h.kind != kind { return None; }
    var start := HEADER_SIZE + if h.Authenticated() then EXTENSION_SIZE else 0;
    if |data| < start + h.payloadLen { return None; }
    o := Some(Opened(StreamId(h.request, h.execution, h.output), data[start..start + h.payloadLen]));
  }

  // ---- Requests ----------------------------------------------------------------------------------------------

  method RepeatsNeighbour(e: seq<OptionOrder.Pair>) returns (repeats: bool)
    requires OptionOrder.Ascending(e)
    ensures repeats <==> !OptionOrder.StrictlyAscending(e)
  {
    hide OptionOrder.Less;
    var i := 1;
    while i < |e|
      invariant i >= 1
      invariant forall j :: 0 < j < i && j < |e| ==> OptionOrder.Less(e[j - 1].0, e[j].0)
    {
      OptionOrder.LessTrichotomy(e[i - 1].0, e[i].0);
      if e[i].0 == e[i - 1].0 { return true; }
      i := i + 1;
    }
    repeats := false;
  }

  method EncodeRequest(q: Requests.Request) returns (frame: Option<Bytes>)
    ensures frame == Requests.Encode(q)
  {
    hide Write, Requests.BaseShape, Requests.BaseTree, Requests.OptionsShape, Requests.OptionsTree, Frame,
      OptionOrder.Sort;
    if !q.Valid() { return None; }
    var out := new Buffer();
    out.PutTree(Requests.BaseShape(), Requests.BaseTree(q));
    if q.hasOptions {
      if |q.options.stops| > 0xFFFF || |q.options.extras| > 0xFFFF { return None; }
      var sorted := OptionOrder.Sort(q.options.extras);
      OptionOrder.SortOrders(q.options.extras);
      var repeats := RepeatsNeighbour(sorted);
      if repeats { return None; }
      out.PutTree(Requests.OptionsShape(), Requests.OptionsTree(Requests.ALL_FLAGS, q.options.(extras := sorted)));
    }
    assert out.bytes == Requests.Body(q);
    var bytes := BuildFrame(REQUEST, q.stream, out.bytes);
    frame := Some(bytes);
  }

  method KeysAscend(e: seq<OptionOrder.Pair>) returns (ok: bool)
    ensures ok == OptionOrder.StrictlyAscending(e)
  {
    hide OptionOrder.Less;
    var i := 1;
    while i < |e|
      invariant i >= 1
      invariant forall j :: 0 < j < i && j < |e| ==> OptionOrder.Less(e[j - 1].0, e[j].0)
    {
      if !OptionOrder.Less(e[i - 1].0, e[i].0) { return false; }
      i := i + 1;
    }
    ok := true;
  }

  method DecodeRequest(data: Bytes) returns (q: Option<Requests.Request>)
    ensures q == Requests.Decode(data)
  {
    hide Open, Read, Write, Fits, Requests.BaseShape, Requests.BaseFrom, Requests.OptionsShape, Requests.OptionsFrom,
      OptionOrder.StrictlyAscending;
    var o := OpenFrame(data, REQUEST);
    if o.None? { return None; }
    var r := new BufferReader(o.value.payload);
    var ok, base := r.ReadTree(Requests.BaseShape());
    if !ok { return None; }
    WriteBack(Requests.BaseShape(), o.value.payload);
    var request := Requests.BaseFrom(o.value.stream, base);
    if r.Remaining() == 0 {
      return if request.Valid() then Some(request) else None;
    }
    ghost var rest := r.Rest();
    var options;
    ok, options := r.ReadTree(Requests.OptionsShape());
    if !ok { return None; }
    WriteBack(Requests.OptionsShape(), rest);
    var read := Requests.OptionsFrom(options);
    ok := KeysAscend(read.extras);
    if !ok || r.Remaining() != 0 || !request.Valid() { return None; }
    q := Some(request.(hasOptions := true, options := read));
  }

  // ---- Controls and events -----------------------------------------------------------------------------------

  method EncodeControl(c: Events.Control) returns (frame: Option<Bytes>)
    ensures frame == Events.EncodeControl(c)
  {
    hide Write, Events.ControlShape, Frame;
    if !c.Valid() { return None; }
    var out := new Buffer();
    out.PutTree(Events.ControlShape(), Events.ControlTree(c));
    assert out.bytes == Write(Events.ControlShape(), Events.ControlTree(c));
    var bytes := BuildFrame(CONTROL, c.stream, out.bytes);
    frame := Some(bytes);
  }

  method DecodeControl(data: Bytes) returns (c: Option<Events.Control>)
    ensures c == Events.DecodeControl(data)
  {
    hide Open, Read, Write, Fits, Events.ControlShape, Events.ControlFrom;
    var o := OpenFrame(data, CONTROL);
    if o.None? { return None; }
    var r := new BufferReader(o.value.payload);
    var ok, t := r.ReadTree(Events.ControlShape());
    if !ok { return None; }
    WriteBack(Events.ControlShape(), o.value.payload);
    var control := Events.ControlFrom(o.value.stream, t);
    if r.Remaining() != 0 { return None; }
    return if control.Valid() then Some(control) else None;
  }

  method EncodeEvent(e: Events.Event, visionValid: Events.Vision -> bool) returns (frame: Option<Bytes>)
    ensures frame == Events.EncodeEvent(e, visionValid)
  {
    hide Write, Events.EventShape, Events.EventTree, Events.PartShape, Events.PartTree, Frame;
    if !e.Valid(visionValid) { return None; }
    var out := new Buffer();
    out.PutTree(Events.EventShape(), Events.EventTree(e));
    out.PutTree(Events.PartShape(e.kind), Events.PartTree(e));
    assert out.bytes == Events.EventBody(e);
    var bytes := BuildFrame(EVENT, e.stream, out.bytes);
    frame := Some(bytes);
  }

  method DecodeEvent(data: Bytes, visionValid: Events.Vision -> bool) returns (e: Option<Events.Event>)
    ensures e == Events.DecodeEvent(data, visionValid)
  {
    hide Open, Read, Write, Fits, Events.EventShape, Events.EventFrom, Events.PartShape, Events.WithPart,
      Events.WithinLimits;
    var o := OpenFrame(data, EVENT);
    if o.None? { return None; }
    var r := new BufferReader(o.value.payload);
    var ok, base := r.ReadTree(Events.EventShape());
    if !ok { return None; }
    WriteBack(Events.EventShape(), o.value.payload);
    var event := Events.EventFrom(o.value.stream, base);
    ghost var rest := r.Rest();
    var part;
    ok, part := r.ReadTree(Events.PartShape(event.kind));
    if !ok { return None; }
    WriteBack(Events.PartShape(event.kind), rest);
    event := Events.WithPart(event, part);
    if r.Remaining() != 0 || !Events.WithinLimits(event) { return None; }
    return if event.Valid(visionValid) then Some(event) else None;
  }

  // ---- Capabilities ------------------------------------------------------------------------------------------

  method EncodeCapabilities(d: Capabilities.Descriptor) returns (frame: Bytes)
    ensures frame == Capabilities.Encode(d)
  {
    hide Write, Capabilities.CoreShape, Capabilities.CoreTree, Capabilities.VisionModelShape,
      Capabilities.DecisionModelShape, Frame;
    var out := new Buffer();
    out.PutTree(Capabilities.CoreShape(true), Capabilities.CoreTree(d));
    if d.decisions != [] {
      out.PutTree(List(2, Capabilities.VisionModelShape()), Items(Capabilities.VisionTrees(d.vision)));
      out.PutTree(List(2, Capabilities.DecisionModelShape()), Items(Capabilities.DecisionTrees(d.decisions)));
    } else if d.vision != [] {
      out.PutTree(List(2, Capabilities.VisionModelShape()), Items(Capabilities.VisionTrees(d.vision)));
    }
    assert out.bytes == Capabilities.Payload(d);
    frame := BuildFrame(CAPABILITIES, Capabilities.NO_STREAM, out.bytes);
  }

  method DecodeCapabilitiesPayload(payload: Bytes, five: bool) returns (d: Option<Capabilities.Descriptor>)
    ensures d == Capabilities.ParsePayload(payload, five)
  {
    hide Read, Write, Capabilities.CoreShape, Capabilities.CoreFrom, Capabilities.VisionModelShape,
      Capabilities.DecisionModelShape, Capabilities.VisionFrom, Capabilities.DecisionsFrom, Capabilities.DecisionsValid;
    var r := new BufferReader(payload);
    var ok, core := r.ReadTree(Capabilities.CoreShape(five));
    if !ok { return None; }
    WriteBack(Capabilities.CoreShape(five), payload);
    var descriptor := Capabilities.CoreFrom(five, core);
    if r.Remaining() > 0 {
      ghost var rest := r.Rest();
      var vision;
      ok, vision := r.ReadTree(List(2, Capabilities.VisionModelShape()));
      if !ok { return None; }
      WriteBack(List(2, Capabilities.VisionModelShape()), rest);
      descriptor := descriptor.(vision := Capabilities.VisionFrom(vision.items));
      if r.Remaining() > 0 {
        ghost var last := r.Rest();
        var decisions;
        ok, decisions := r.ReadTree(List(2, Capabilities.DecisionModelShape()));
        if !ok { return None; }
        WriteBack(List(2, Capabilities.DecisionModelShape()), last);
        descriptor := descriptor.(decisions := Capabilities.DecisionsFrom(decisions.items));
        if !Capabilities.DecisionsValid(descriptor.decisions) { return None; }
        if r.Remaining() != 0 { return None; }
      }
    }
    d := Some(descriptor);
  }

  method DecodeCapabilities(data: Bytes) returns (d: Option<Capabilities.Descriptor>)
    ensures d == Capabilities.Decode(data)
  {
    hide Open, Capabilities.ParsePayload;
    var o := OpenFrame(data, CAPABILITIES);
    if o.None? { return None; }
    d := DecodeCapabilitiesPayload(o.value.payload, true);
    if d.None? { d := DecodeCapabilitiesPayload(o.value.payload, false); }
  }
}
