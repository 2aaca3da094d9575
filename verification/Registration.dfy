/** The registration envelope: tagged fields in strictly ascending order, one of which nests a whole
    capabilities frame, and one byte form for every envelope. */
module Registration {

  import opened Basics
  import opened Wire
  import opened Frames
  import Capabilities
  import Counting

  const REGISTER: U8 := 1
  const RESULT: U8 := 2
  const DRAINING: U8 := 3
  const DEREGISTER: U8 := 4
  const CAPACITY_UPDATE: U8 := 5
  const CAPABILITIES_QUERY: U8 := 6

  const MAX_BYTES := 65536
  const MAX_PAYLOAD := 16777216
  const MAX_REASON := 8192
  const FIRST_EXTENSION := 0x8000
  const VISION_PROFILE: U8 := 4
  const DECISION_PROFILE: U8 := 5

  datatype Field = Field(tag: U16, value: Bytes)

  datatype Envelope = Envelope(
    operation: U8, slots: U32, status: U32, reason: Bytes, capabilities: Capabilities.Descriptor,
    extensions: seq<Field>)

  // ---- Validity ----------------------------------------------------------------------------------------------

  predicate Distinct<T(==)>(s: seq<T>) {
    forall i, j :: 0 <= i < j < |s| ==> s[i] != s[j]
  }

  function TextBytes(ss: seq<Bytes>): nat {
    if ss == [] then 0 else |ss[0]| + 2 + TextBytes(ss[1..])
  }

  function SpaceBytes(ss: seq<Capabilities.Space>): nat {
    if ss == [] then 0 else |ss[0].id| + |ss[0].model| + |ss[0].revision| + 12 + SpaceBytes(ss[1..])
  }

  function VisionBytes(vs: seq<Capabilities.VisionModel>): nat {
    if vs == [] then 0
    else |vs[0].model| + |vs[0].revision| + |vs[0].labelSet| + 13 + TextBytes(vs[0].labels) + VisionBytes(vs[1..])
  }

  function DecisionBytes(ds: seq<Capabilities.DecisionModel>): nat {
    if ds == [] then 0 else |ds[0].model| + |ds[0].revision| + |ds[0].decisionType| + 6 + DecisionBytes(ds[1..])
  }

  predicate ValidSpace(s: Capabilities.Space, models: seq<Bytes>) {
    && s.id != [] && s.model != [] && 0 < s.dimensions <= 65536 && s.normalization <= 1 && 1 <= s.metric <= 3
    && s.model in models && |s.id| <= 8192 && |s.model| <= 8192 && |s.revision| <= 8192
  }

  predicate ValidVision(v: Capabilities.VisionModel, models: seq<Bytes>) {
    && 0 < |v.model| <= 256 && |v.revision| <= 256 && 0 < |v.labelSet| <= 256 && v.task == 1
    && 0 < v.maxDetections <= 1000 && |v.labels| <= 2048 && v.model in models
    && forall i :: 0 <= i < |v.labels| ==> |v.labels[i]| <= 256
  }

  function VisionNames(vs: seq<Capabilities.VisionModel>): seq<Bytes> {
    seq(|vs|, (i: nat) requires i < |vs| => vs[i].model)
  }

  function DecisionNames(ds: seq<Capabilities.DecisionModel>): seq<Bytes> {
    seq(|ds|, (i: nat) requires i < |ds| => ds[i].model)
  }

  predicate ValidDescriptor(d: Capabilities.Descriptor) {
    && d.models != [] && d.profiles != []
    && |d.models| <= 2048 && |d.spaces| <= 2048 && |d.vision| <= 2048
    && (forall i :: 0 <= i < |d.spaces| ==> ValidSpace(d.spaces[i], d.models))
    && (VISION_PROFILE in d.profiles <==> d.vision != [])
    && (forall i :: 0 <= i < |d.vision| ==> ValidVision(d.vision[i], d.models)) && Distinct(VisionNames(d.vision))
    && (DECISION_PROFILE in d.profiles <==> d.decisions != [])
    && Capabilities.DecisionsValid(d.decisions) && Distinct(DecisionNames(d.decisions))
    && (forall i :: 0 <= i < |d.decisions| ==> d.decisions[i].model in d.models)
    && (64 + TextBytes(d.models) + SpaceBytes(d.spaces) + VisionBytes(d.vision) + DecisionBytes(d.decisions)
        <= MAX_BYTES - 64)
    && (forall i :: 0 <= i < |d.models| ==> 0 < |d.models[i]| <= 8192) && Distinct(d.models)
    && (forall i :: 0 <= i < |d.profiles| ==> 1 <= d.profiles[i] <= 5) && Distinct(d.profiles)
  }

  predicate Valid(e: Envelope) {
    && 1 <= e.operation <= 6 && |e.reason| <= MAX_REASON
    && if e.operation == RESULT then
         (e.status == 200 || 400 <= e.status <= 599) && e.slots == 0 && e.capabilities == Capabilities.BLANK
       else
         && e.status == 0 && e.reason == []
         && if e.operation != REGISTER then
              e.capabilities == Capabilities.BLANK && (e.operation == CAPACITY_UPDATE || e.slots == 0)
            else e.slots != 0 && ValidDescriptor(e.capabilities)
  }

  // ---- Fields ------------------------------------------------------------------------------------------------

  function FieldShape(): Shape {
    Then(Word(2), Text(4))
  }

  function FieldTree(f: Field): Tree {
    Pair(Number(f.tag), Blob(f.value))
  }

  function FieldBytes(f: Field): (b: Bytes)
    ensures |b| == 6 + |f.value|
  {
    Little(f.tag, 2) + Little(|f.value|, 4) + f.value
  }

  lemma FieldHasShape(f: Field)
    requires |f.value| < 0x1_0000_0000
    ensures Fits(FieldShape(), FieldTree(f)) && FieldBytes(f) == Write(FieldShape(), FieldTree(f))
  {
    hide Little;
    Powers();
    assert f.value[..|f.value|] == f.value;
  }

  function WriteFields(fs: seq<Field>): Bytes {
    if fs == [] then [] else FieldBytes(fs[0]) + WriteFields(fs[1..])
  }

  function FieldFrom(t: Tree): Field
    requires Fits(FieldShape(), t)
  {
    Powers();
    Field(t.head.n, t.tail.bytes)
  }

  /** Fields up to the end of the bytes; a field that does not fit what is left is refused. */
  function ParseFields(b: Bytes): Option<seq<Field>>
    decreases |b|
  {
    if b == [] then Some([])
    else
      match Read(FieldShape(), b)
      case Short => None
      case Got(t, rest) =>
        WriteBack(FieldShape(), b);
        FieldTakesBytes(t, rest, b);
        match ParseFields(rest)
        case None => None
        case Some(fs) => Some([FieldFrom(t)] + fs)
  }

  lemma FieldTakesBytes(t: Tree, rest: Bytes, b: Bytes)
    requires Fits(FieldShape(), t) && b == Write(FieldShape(), t) + rest
    ensures |rest| < |b|
  {
    assert |Write(Word(2), t.head)| == 2;
  }

  predicate Ascending(fs: seq<Field>) {
    (fs != [] ==> fs[0].tag > 0) && forall i :: 0 < i < |fs| ==> fs[i - 1].tag < fs[i].tag
  }

  lemma {:induction false} FieldsReadBack(fs: seq<Field>)
    requires forall i :: 0 <= i < |fs| ==> |fs[i].value| < 0x1_0000_0000
    ensures ParseFields(WriteFields(fs)) == Some(fs)
  {
    hide Write, Read;
    if fs != [] {
      FieldHasShape(fs[0]);
      ReadBack(FieldShape(), FieldTree(fs[0]), WriteFields(fs[1..]));
      FieldTakesBytes(FieldTree(fs[0]), WriteFields(fs[1..]), WriteFields(fs));
      FieldsReadBack(fs[1..]);
      assert [fs[0]] + fs[1..] == fs;
    }
  }

  lemma {:induction false} FieldsWriteBack(b: Bytes)
    requires ParseFields(b).Some?
    ensures WriteFields(ParseFields(b).value) == b
    decreases |b|
  {
    hide Write, Read;
    if b != [] {
      WriteBack(FieldShape(), b);
      var t, rest := Read(FieldShape(), b).tree, Read(FieldShape(), b).rest;
      FieldTakesBytes(t, rest, b);
      FieldsWriteBack(rest);
      var fs := ParseFields(rest).value;
      assert ([FieldFrom(t)] + fs)[1..] == fs;
      assert FieldTree(FieldFrom(t)) == t by { Powers(); }
      assert |t.tail.bytes| < 0x1_0000_0000 by { Powers(); }
      FieldHasShape(FieldFrom(t));
    }
  }

  lemma {:induction false} FieldLengths(fs: seq<Field>, i: nat)
    requires i < |fs|
    ensures |fs[i].value| + 6 <= |WriteFields(fs)|
  {
    hide FieldBytes;
    if i > 0 { FieldLengths(fs[1..], i - 1); }
  }

  // ---- Encoding ----------------------------------------------------------------------------------------------

  /** The fields an operation carries besides extensions. */
  function CoreFields(e: Envelope): seq<Field> {
    if e.operation == REGISTER then
      [Field(1, Little(e.slots, 4)), Field(4, Capabilities.Encode(e.capabilities))]
    else if e.operation == CAPACITY_UPDATE then [Field(1, Little(e.slots, 4))]
    else if e.operation == RESULT then [Field(2, Little(e.status, 4)), Field(3, e.reason)]
    else []
  }

  predicate ValidExtensions(x: seq<Field>) {
    && (x != [] ==> x[0].tag >= FIRST_EXTENSION)
    && (forall i :: 0 < i < |x| ==> x[i - 1].tag < x[i].tag)
    && (forall i :: 0 <= i < |x| ==> |x[i].value| <= MAX_BYTES)
  }

  function Body(e: Envelope): Bytes {
    [1, 0, e.operation, 0] + WriteFields(CoreFields(e) + e.extensions)
  }

  const NO_STREAM := StreamId(0, 0, 0)

  function Encode(e: Envelope): Option<Bytes> {
    if !Valid(e) || !ValidExtensions(e.extensions) || |Body(e)| > MAX_BYTES then None
    else Some(Frame(RUNTIME_REGISTER, NO_STREAM, Body(e)))
  }

  // ---- Decoding ----------------------------------------------------------------------------------------------

  /** A frame of exactly its announced length, with no flag but authentication. */
  predicate WholeFrame(b: Bytes) {
    && |b| >= HEADER_SIZE
    && var h := DecodeHeader(b).value;
       && h.magic == MAGIC && h.major == 0 && h.minor == 2 && h.flags <= 1
       && h.payloadLen <= MAX_PAYLOAD && |b| == Overhead(h) + h.payloadLen
  }

  predicate WholeConnectionFrame(b: Bytes) {
    && WholeFrame(b)
    && var h := DecodeHeader(b).value; h.flags == 0 && h.request == 0 && h.execution == 0 && h.output == 0
  }

  /** One field taken into the envelope. */
  function Take(e: Envelope, f: Field): Option<Envelope> {
    if f.tag == 1 || f.tag == 2 then
      if |f.value| != 4 then None
      else
        FromLittleRoundTrip(f.value);
        Powers();
        Some(if f.tag == 1 then e.(slots := FromLittle(f.value)) else e.(status := FromLittle(f.value)))
    else if f.tag == 3 then
      if |f.value| > MAX_REASON then None else Some(e.(reason := f.value))
    else if f.tag == 4 then
      if !WholeConnectionFrame(f.value) then None
      else match Capabilities.Decode(f.value)
           case None => None
           case Some(d) => if Capabilities.Encode(d) != f.value then None else Some(e.(capabilities := d))
    else if f.tag < FIRST_EXTENSION then None
    else Some(e.(extensions := e.extensions + [f]))
  }

  function TakeAll(e: Envelope, fs: seq<Field>): Option<Envelope>
    decreases |fs|
  {
    if fs == [] then Some(e)
    else match Take(e, fs[0])
         case None => None
         case Some(e') => TakeAll(e', fs[1..])
  }

  function Seen(fs: seq<Field>): set<U16> {
    set i | 0 <= i < |fs| && fs[i].tag <= 4 :: fs[i].tag
  }

  function Expected(operation: U8): set<U16> {
    if operation == REGISTER then {1, 4}
    else if operation == RESULT then {2, 3}
    else if operation == CAPACITY_UPDATE then {1}
    else {}
  }

  function Fresh(operation: U8): Envelope {
    Envelope(operation, 0, 0, [], Capabilities.BLANK, [])
  }

  function ParseBody(body: Bytes): Option<Envelope> {
    if |body| < 4 || body[0] != 1 || body[1] != 0 || body[3] != 0 then None
    else match ParseFields(body[4..])
         case None => None
         case Some(fs) =>
           if !Ascending(fs) then None
           else match TakeAll(Fresh(body[2]), fs)
                case None => None
                case Some(e) => if Seen(fs) != Expected(e.operation) || !Valid(e) then None else Some(e)
  }

  function Decode(b: Bytes): Option<Envelope> {
    if !WholeFrame(b) then None
    else
      var h := DecodeHeader(b).value;
      if h.kind != RUNTIME_REGISTER || h.request != 0 || h.execution != 0 || h.output != 0 then None
      else if h.payloadLen < 4 || h.payloadLen > MAX_BYTES then None
      else ParseBody(b[Overhead(h)..])
  }

  // ---- Decoding what was encoded -----------------------------------------------------------------------------

  lemma {:induction false} DistinctSize<T>(s: seq<T>)
    requires Distinct(s)
    ensures |set x | x in s| == |s|
  {
    if s != [] {
      var rest := s[1..];
      assert Distinct(rest) by {
        forall i, j | 0 <= i < j < |rest| ensures rest[i] != rest[j] { assert s[i + 1] != s[j + 1]; }
      }
      DistinctSize(rest);
      assert s[0] !in rest;
      assert (set x | x in s) == (set x | x in rest) + {s[0]};
    }
  }

  lemma FewProfiles(p: seq<U8>)
    requires Distinct(p) && forall i :: 0 <= i < |p| ==> 1 <= p[i] <= 5
    ensures |p| <= 5
  {
    DistinctSize(p);
    var five: set<U8> := {1, 2, 3, 4, 5};
    var members := set x | x in p;
    assert members <= five;
    Counting.SubsetSize(members, five);
    assert |five| == 5;
  }

  /** A valid registration announces only capabilities that survive their own frame. */
  lemma ValidSurvives(d: Capabilities.Descriptor)
    requires ValidDescriptor(d)
    ensures Capabilities.CoreFits(d) && Capabilities.VisionFits(d) && Capabilities.DecisionsValid(d.decisions)
  {
    FewProfiles(d.profiles);
    hide TextBytes, SpaceBytes, VisionBytes, DecisionBytes, Distinct;
    forall i | 0 <= i < |d.vision| ensures Capabilities.VisionModelFits(d.vision[i]) {
      assert ValidVision(d.vision[i], d.models);
    }
  }

  lemma {:induction false} TakesExtensions(e: Envelope, x: seq<Field>)
    requires forall i :: 0 <= i < |x| ==> x[i].tag >= FIRST_EXTENSION
    ensures TakeAll(e, x) == Some(e.(extensions := e.extensions + x))
    decreases |x|
  {
    if x == [] {
      assert e.extensions + [] == e.extensions;
    } else {
      TakesExtensions(e.(extensions := e.extensions + [x[0]]), x[1..]);
      assert e.extensions + [x[0]] + x[1..] == e.extensions + x;
    }
  }

  lemma {:induction false} ExtensionTags(x: seq<Field>, i: nat)
    requires ValidExtensions(x) && i < |x|
    ensures x[i].tag >= FIRST_EXTENSION
  {
    if i > 0 { ExtensionTags(x, i - 1); }
  }

  lemma CapabilitiesField(d: Capabilities.Descriptor)
    requires ValidDescriptor(d) && |Capabilities.Encode(d)| <= MAX_BYTES
    ensures WholeConnectionFrame(Capabilities.Encode(d)) && Capabilities.Decode(Capabilities.Encode(d)) == Some(d)
  {
    hide ValidDescriptor, Capabilities.Decode, Capabilities.Payload, EncodeHeader, DecodeHeader;
    ValidSurvives(d);
    Capabilities.RoundTrip(d, Binding(0, 0, 0, 0, 0), 0, 1, 0, [0]);
    OpenFrame(CAPABILITIES, Capabilities.NO_STREAM, Capabilities.Payload(d));
  }

  lemma TakesCore(e: Envelope)
    requires Valid(e) && (e.operation == REGISTER ==> |Capabilities.Encode(e.capabilities)| <= MAX_BYTES)
    ensures TakeAll(Fresh(e.operation), CoreFields(e) + e.extensions) == TakeAll(e.(extensions := []), e.extensions)
  {
    hide ValidDescriptor, WholeConnectionFrame, Capabilities.Encode, Capabilities.Decode, Little, FromLittle;
    Powers();
    LittleRoundTrip(e.slots, 4);
    LittleRoundTrip(e.status, 4);
    var fs, x := CoreFields(e) + e.extensions, e.extensions;
    if e.operation == REGISTER {
      CapabilitiesField(e.capabilities);
      assert fs[1..] == [fs[1]] + x && fs[1..][1..] == x;
      var e1 := Fresh(e.operation).(slots := e.slots);
      assert Take(Fresh(e.operation), fs[0]) == Some(e1);
      assert TakeAll(e1, fs[1..]) == TakeAll(e1.(capabilities := e.capabilities), x);
    } else if e.operation == RESULT {
      assert fs[1..] == [fs[1]] + x && fs[1..][1..] == x;
      var e1 := Fresh(e.operation).(status := e.status);
      assert Take(Fresh(e.operation), fs[0]) == Some(e1);
      assert TakeAll(e1, fs[1..]) == TakeAll(e1.(reason := e.reason), x);
    } else if e.operation == CAPACITY_UPDATE {
      assert fs[1..] == x;
      assert Take(Fresh(e.operation), fs[0]) == Some(Fresh(e.operation).(slots := e.slots));
    } else {
      assert fs == x;
    }
  }

  lemma CoreTags(e: Envelope)
    ensures Ascending(CoreFields(e)) && Seen(CoreFields(e)) == Expected(e.operation)
    ensures forall i :: 0 <= i < |CoreFields(e)| ==> CoreFields(e)[i].tag <= 4
  {
    hide Capabilities.Encode, Little;
    var c := CoreFields(e);
    if |c| > 0 { assert c[0].tag in Seen(c); }
    if |c| > 1 { assert c[1].tag in Seen(c); }
  }

  /** Extensions put behind known fields keep the order and add no known tag. */
  lemma ExtensionsBehind(c: seq<Field>, x: seq<Field>)
    requires Ascending(c) && (forall i :: 0 <= i < |c| ==> c[i].tag <= 4) && ValidExtensions(x)
    ensures Ascending(c + x)
  {
    var fs := c + x;
    forall i | 0 <= i < |x| ensures x[i].tag >= FIRST_EXTENSION { ExtensionTags(x, i); }
    forall i | 0 < i < |fs| ensures fs[i - 1].tag < fs[i].tag {
      if i > |c| { assert fs[i - 1] == x[i - 1 - |c|] && fs[i] == x[i - |c|]; }
    }
  }

  lemma ExtensionsUnseen(c: seq<Field>, x: seq<Field>)
    requires ValidExtensions(x)
    ensures Seen(c + x) == Seen(c)
  {
    hide ValidExtensions;
    var fs := c + x;
    forall i | 0 <= i < |x| ensures x[i].tag > 4 { ExtensionTags(x, i); }
    assert forall i :: 0 <= i < |fs| ==> fs[i] == if i < |c| then c[i] else x[i - |c|];
    forall t | t in Seen(c) ensures t in Seen(fs) {
      var i :| 0 <= i < |c| && c[i].tag <= 4 && c[i].tag == t;
      assert fs[i].tag == t;
    }
  }

  lemma AllFields(e: Envelope)
    requires Encode(e).Some?
    ensures var fs := CoreFields(e) + e.extensions;
            Ascending(fs) && Seen(fs) == Expected(e.operation)
  {
    hide Valid, Body, CoreFields, Ascending, Seen, Expected, ValidExtensions;
    CoreTags(e);
    ExtensionsBehind(CoreFields(e), e.extensions);
    ExtensionsUnseen(CoreFields(e), e.extensions);
  }

  lemma FieldValuesFit(e: Envelope)
    requires Encode(e).Some?
    ensures var fs := CoreFields(e) + e.extensions; forall i :: 0 <= i < |fs| ==> |fs[i].value| <= MAX_BYTES
    ensures e.operation == REGISTER ==> |Capabilities.Encode(e.capabilities)| <= MAX_BYTES
  {
    hide Capabilities.Encode, Valid, ValidExtensions, Little, WriteFields;
    var fs := CoreFields(e) + e.extensions;
    forall i | 0 <= i < |fs| ensures |fs[i].value| <= MAX_BYTES { FieldLengths(fs, i); }
    if e.operation == REGISTER { assert fs[1].value == Capabilities.Encode(e.capabilities); }
  }

  lemma BodyParses(e: Envelope)
    requires Encode(e).Some?
    ensures ParseBody(Body(e)) == Some(e)
  {
    hide Valid, WriteFields, ParseFields, CoreFields, Take, TakeAll, Ascending, Seen, ValidExtensions,
      Capabilities.Encode;
    var fs := CoreFields(e) + e.extensions;
    FieldValuesFit(e);
    FieldsReadBack(fs);
    AllFields(e);
    TakesCoreOf(e);
    assert Body(e)[4..] == WriteFields(fs);
  }

  lemma TakesCoreOf(e: Envelope)
    requires Encode(e).Some?
    ensures TakeAll(Fresh(e.operation), CoreFields(e) + e.extensions) == Some(e)
  {
    hide ValidDescriptor, WriteFields, CoreFields, Take, TakeAll, Capabilities.Encode;
    FieldValuesFit(e);
    TakesCore(e);
    forall i | 0 <= i < |e.extensions| ensures e.extensions[i].tag >= FIRST_EXTENSION {
      ExtensionTags(e.extensions, i);
    }
    TakesExtensions(e.(extensions := []), e.extensions);
    assert [] + e.extensions == e.extensions;
  }

  /** Whenever an envelope encodes, its bytes decode to it again: operation, slots, status, reason, the nested
      capabilities and every extension. */
  lemma DecodesBack(e: Envelope)
    requires Encode(e).Some?
    ensures Decode(Encode(e).value) == Some(e)
  {
    hide Valid, Body, ParseBody, EncodeHeader, DecodeHeader, ValidExtensions;
    var b := Encode(e).value;
    OpenFrame(RUNTIME_REGISTER, NO_STREAM, Body(e));
    BodyParses(e);
    assert b[HEADER_SIZE..] == Body(e);
    assert |Body(e)| >= 4 by { BodyHasPrefix(e); }
  }

  /** So do they after the frame was signed. */
  lemma DecodesBackSigned(e: Envelope, binding: Binding, direction: U8, number: U32, keyId: U16, key: Key)
    requires Encode(e).Some? && key != [] && number != 0
    ensures var signed := Sign(Encode(e).value, binding, direction, number, keyId, key);
            signed.Some? && Decode(signed.value) == Some(e)
  {
    hide Valid, Body, ParseBody, EncodeHeader, DecodeHeader, ValidExtensions, MacInput, Mac, EncodeExtension,
      DecodeExtension;
    OpenFrame(RUNTIME_REGISTER, NO_STREAM, Body(e));
    OpenSigned(RUNTIME_REGISTER, NO_STREAM, Body(e), binding, direction, number, keyId, key);
    SignedFrameVerifies(Encode(e).value, binding, direction, number, keyId, key);
    BodyParses(e);
    BodyHasPrefix(e);
    assert Encode(e).value[HEADER_SIZE..] == Body(e);
  }

  lemma BodyHasPrefix(e: Envelope)
    ensures |Body(e)| >= 4
  {
  }

  // ---- Encoding what was decoded -----------------------------------------------------------------------------

  lemma {:induction false} AscendingOrder(fs: seq<Field>, i: nat, j: nat)
    requires Ascending(fs) && i < j < |fs|
    ensures fs[i].tag < fs[j].tag && fs[0].tag > 0
    decreases j
  {
    if i < j - 1 { AscendingOrder(fs, i, j - 1); }
  }

  /** The least known tag that was seen is the tag of the first field, and the others come after it. */
  lemma LeadingTag(fs: seq<Field>, t: U16)
    requires Ascending(fs) && t in Seen(fs) && forall s :: s in Seen(fs) ==> t <= s
    ensures fs != [] && fs[0].tag == t && Ascending(fs[1..]) && Seen(fs[1..]) == Seen(fs) - {t}
  {
    var i :| 0 <= i < |fs| && fs[i].tag <= 4 && fs[i].tag == t;
    assert fs[0].tag in Seen(fs) || fs[0].tag > 4;
    if i > 0 { AscendingOrder(fs, 0, i); }
    var rest := fs[1..];
    assert forall k :: 0 < k < |rest| ==> rest[k - 1] == fs[k] && rest[k] == fs[k + 1];
    forall s | s in Seen(rest) ensures s in Seen(fs) - {t} {
      var k :| 0 <= k < |rest| && rest[k].tag <= 4 && rest[k].tag == s;
      AscendingOrder(fs, 0, k + 1);
      assert fs[k + 1].tag == s;
    }
    forall s | s in Seen(fs) - {t} ensures s in Seen(rest) {
      var k :| 0 <= k < |fs| && fs[k].tag <= 4 && fs[k].tag == s;
      assert rest[k - 1].tag == s;
    }
  }

  /** Past the known tags only extensions are taken, and they are kept as they are. */
  lemma {:induction false} OnlyExtensionsLeft(e: Envelope, x: seq<Field>)
    requires Seen(x) == {} && TakeAll(e, x).Some?
    ensures forall i :: 0 <= i < |x| ==> x[i].tag >= FIRST_EXTENSION
    ensures TakeAll(e, x) == Some(e.(extensions := e.extensions + x))
    decreases |x|
  {
    if x == [] {
      assert e.extensions + [] == e.extensions;
    } else {
      forall k | 0 <= k < |x| ensures x[k].tag > 4 {
        assert x[k].tag in Seen(x) || x[k].tag > 4;
      }
      assert forall k :: 0 <= k < |x[1..]| ==> x[1..][k] == x[k + 1];
      OnlyExtensionsLeft(e.(extensions := e.extensions + [x[0]]), x[1..]);
      assert e.extensions + [x[0]] + x[1..] == e.extensions + x;
    }
  }

  lemma TakeCases(e: Envelope, fs: seq<Field>)
    requires fs != [] && TakeAll(e, fs).Some?
    ensures Take(e, fs[0]).Some? && TakeAll(e, fs) == TakeAll(Take(e, fs[0]).value, fs[1..])
  {
  }

  lemma NumberField(v: Bytes)
    requires |v| == 4
    ensures FromLittle(v) < 0x1_0000_0000 && Little(FromLittle(v), 4) == v
  {
    FromLittleRoundTrip(v);
    Powers();
  }

  /** Taken fields are exactly the fields the envelope is written with. */
  lemma FieldsAreWritten(operation: U8, fs: seq<Field>)
    requires Ascending(fs) && TakeAll(Fresh(operation), fs).Some? && Seen(fs) == Expected(operation)
    ensures var e := TakeAll(Fresh(operation), fs).value;
            e.operation == operation && fs == CoreFields(e) + e.extensions
  {
    hide Ascending, Seen, Little, FromLittle, WholeConnectionFrame, Capabilities.Encode, Capabilities.Decode;
    var e0 := Fresh(operation);
    if operation == REGISTER {
      LeadingTag(fs, 1);
      TakeCases(e0, fs);
      NumberField(fs[0].value);
      var e1 := Take(e0, fs[0]).value;
      LeadingTag(fs[1..], 4);
      TakeCases(e1, fs[1..]);
      OnlyExtensionsLeft(Take(e1, fs[1]).value, fs[1..][1..]);
      assert fs == [fs[0]] + [fs[1]] + fs[1..][1..];
    } else if operation == RESULT {
      LeadingTag(fs, 2);
      TakeCases(e0, fs);
      NumberField(fs[0].value);
      var e1 := Take(e0, fs[0]).value;
      LeadingTag(fs[1..], 3);
      TakeCases(e1, fs[1..]);
      OnlyExtensionsLeft(Take(e1, fs[1]).value, fs[1..][1..]);
      assert fs == [fs[0]] + [fs[1]] + fs[1..][1..];
    } else if operation == CAPACITY_UPDATE {
      LeadingTag(fs, 1);
      TakeCases(e0, fs);
      NumberField(fs[0].value);
      OnlyExtensionsLeft(Take(e0, fs[0]).value, fs[1..]);
      assert fs == [fs[0]] + fs[1..];
    } else {
      OnlyExtensionsLeft(e0, fs);
      assert [] + fs == fs;
    }
  }

  lemma {:induction false} TakeKeepsOperation(e: Envelope, fs: seq<Field>)
    requires TakeAll(e, fs).Some?
    ensures TakeAll(e, fs).value.operation == e.operation
    decreases |fs|
  {
    hide WholeConnectionFrame, Capabilities.Encode, Capabilities.Decode, FromLittle;
    if fs != [] { TakeKeepsOperation(Take(e, fs[0]).value, fs[1..]); }
  }

  lemma BodyIsWritten(body: Bytes)
    requires ParseBody(body).Some? && |body| <= MAX_BYTES
    ensures var e := ParseBody(body).value; Body(e) == body && Encode(e).Some?
  {
    hide Valid, WriteFields, ParseFields, CoreFields, Take, TakeAll, Ascending, Seen, Expected;
    TakeKeepsOperation(Fresh(body[2]), ParseFields(body[4..]).value);
    var fs := ParseFields(body[4..]).value;
    var e := ParseBody(body).value;
    FieldsWriteBack(body[4..]);
    FieldsAreWritten(body[2], fs);
    assert body == [1, 0, body[2], 0] + body[4..];
    KeptExtensionsAreValid(e, fs);
  }

  lemma KeptExtensionsAreValid(e: Envelope, fs: seq<Field>)
    requires Ascending(fs) && TakeAll(Fresh(e.operation), fs) == Some(e) && fs == CoreFields(e) + e.extensions
    requires |WriteFields(fs)| <= MAX_BYTES
    ensures ValidExtensions(e.extensions)
  {
    hide Take, Capabilities.Encode, Little, WriteFields, FieldBytes;
    var c := |CoreFields(e)|;
    forall i | 0 <= i < |e.extensions|
      ensures |e.extensions[i].value| <= MAX_BYTES && (i > 0 ==> e.extensions[i - 1].tag < e.extensions[i].tag)
    {
      assert fs[c + i] == e.extensions[i];
      FieldLengths(fs, c + i);
      if i > 0 { assert fs[c + i - 1] == e.extensions[i - 1]; }
    }
    ExtensionsAreTagged(Fresh(e.operation), fs);
  }

  /** Everything the envelope keeps as an extension has an extension's tag. */
  lemma {:induction false} ExtensionsAreTagged(e: Envelope, fs: seq<Field>)
    requires TakeAll(e, fs).Some? && forall i :: 0 <= i < |e.extensions| ==> e.extensions[i].tag >= FIRST_EXTENSION
    ensures var x := TakeAll(e, fs).value.extensions; forall i :: 0 <= i < |x| ==> x[i].tag >= FIRST_EXTENSION
    decreases |fs|
  {
    hide WholeConnectionFrame, Capabilities.Encode, Capabilities.Decode, FromLittle;
    if fs != [] { ExtensionsAreTagged(Take(e, fs[0]).value, fs[1..]); }
  }

  /** Every unsigned frame that decodes is the one frame its envelope encodes to: no second byte form is
      accepted, in the envelope or in the capabilities nested in it. */
  lemma EncodesBack(b: Bytes)
    requires Decode(b).Some? && !DecodeHeader(b).value.Authenticated()
    ensures Encode(Decode(b).value) == Some(b)
  {
    hide Valid, Body, ParseBody, EncodeHeader, DecodeHeader, ValidExtensions;
    var h := DecodeHeader(b).value;
    BodyIsWritten(b[HEADER_SIZE..]);
    HeaderWriteBack(b);
    assert h == NewHeader(RUNTIME_REGISTER, 0, 0, 0, |b| - HEADER_SIZE);
    assert b == b[..HEADER_SIZE] + b[HEADER_SIZE..];
  }

  /** So decoding tells unsigned frames apart exactly as far as their bytes differ. */
  lemma DecodeIsInjective(b: Bytes, c: Bytes)
    requires Decode(b).Some? && Decode(b) == Decode(c)
    requires !DecodeHeader(b).value.Authenticated() && !DecodeHeader(c).value.Authenticated()
    ensures b == c
  {
    EncodesBack(b);
    EncodesBack(c);
  }
}
