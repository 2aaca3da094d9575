/** The event and control envelopes. Floats are carried as their 32-bit words; whether a vision
    result is well formed is a parameter, since that is decided on its floats and label tables. */
module Events {

  import opened Basics
  import opened Wire
  import opened Frames

  // ---- Control -----------------------------------------------------------------------------------------------

  datatype Control = Control(stream: StreamId, kind: U8, reason: Bytes, offset: U64)
  {
    predicate Valid() { stream.Valid() && kind != 0 }
  }

  function ControlShape(): Shape {
    Then(Word(1), Then(Text(2), Word(8)))
  }

  function ControlTree(c: Control): Tree {
    Pair(Number(c.kind), Pair(Blob(c.reason), Number(c.offset)))
  }

  function ControlFrom(stream: StreamId, t: Tree): Control
    requires Fits(ControlShape(), t)
  {
    Powers();
    Control(stream, t.head.n, t.tail.head.bytes, t.tail.tail.n)
  }

  function EncodeControl(c: Control): Option<Bytes> {
    if !c.Valid() then None else Some(Frame(CONTROL, c.stream, Write(ControlShape(), ControlTree(c))))
  }

  function ParseControl(stream: StreamId, payload: Bytes): Option<Control> {
    match Read(ControlShape(), payload)
    case Short => None
    case Got(t, rest) =>
      WriteBack(ControlShape(), payload);
      var c := ControlFrom(stream, t);
      if rest != [] || !c.Valid() then None else Some(c)
  }

  function DecodeControl(data: Bytes): Option<Control> {
    match Open(data, CONTROL)
    case None => None
    case Some(o) => ParseControl(o.stream, o.payload)
  }

  lemma ControlTreeRoundTrip(c: Control)
    requires |c.reason| < 0x1_0000
    ensures Fits(ControlShape(), ControlTree(c)) && ControlFrom(c.stream, ControlTree(c)) == c
    ensures |Write(ControlShape(), ControlTree(c))| < 0x1_0000_0000
  {
    Powers();
  }

  lemma ControlParses(c: Control)
    requires c.Valid() && |c.reason| < 0x1_0000
    ensures ParseControl(c.stream, Write(ControlShape(), ControlTree(c))) == Some(c)
  {
    hide ControlShape, Write, Read, Fits;
    ControlTreeRoundTrip(c);
    ReadBack(ControlShape(), ControlTree(c), []);
    assert Write(ControlShape(), ControlTree(c)) + [] == Write(ControlShape(), ControlTree(c));
  }

  lemma ParsedReasonFits(stream: StreamId, payload: Bytes)
    requires ParseControl(stream, payload).Some?
    ensures |ParseControl(stream, payload).value.reason| < 0x1_0000
    ensures payload == Write(ControlShape(), ControlTree(ParseControl(stream, payload).value))
  {
    Powers();
    hide Write, Read, Power256;
    WriteBack(ControlShape(), payload);
    var t := Read(ControlShape(), payload).tree;
    assert ControlTree(ControlFrom(stream, t)) == t;
    assert Write(ControlShape(), t) + [] == Write(ControlShape(), t);
  }

  /** A control comes back from its frame, before and after signing, exactly when its reason fits. */
  lemma ControlRoundTrip(c: Control, binding: Binding, direction: U8, number: U32, keyId: U16, key: Key)
    requires c.Valid() && key != [] && number != 0
    ensures DecodeControl(EncodeControl(c).value) == Some(c) <==> |c.reason| < 0x1_0000
    ensures var signed := Sign(EncodeControl(c).value, binding, direction, number, keyId, key);
            |c.reason| < 0x1_0000 ==> signed.Some? && DecodeControl(signed.value) == Some(c)
  {
    hide ParseControl, ControlShape, Frame, Open, Sign, Write;
    if |c.reason| < 0x1_0000 {
      var payload := Write(ControlShape(), ControlTree(c));
      ControlTreeRoundTrip(c);
      OpenFrame(CONTROL, c.stream, payload);
      OpenSigned(CONTROL, c.stream, payload, binding, direction, number, keyId, key);
      ControlParses(c);
    } else if DecodeControl(EncodeControl(c).value) == Some(c) {
      var o := Open(EncodeControl(c).value, CONTROL).value;
      ParsedReasonFits(o.stream, o.payload);
    }
  }

  /** A payload that parses is the one its control is written as: the layout is canonical. */
  lemma ControlIsCanonical(stream: StreamId, payload: Bytes)
    requires ParseControl(stream, payload).Some? && |payload| < 0x1_0000_0000
    ensures EncodeControl(ParseControl(stream, payload).value) ==
            Some(Frame(CONTROL, stream, payload))
  {
    ParsedReasonFits(stream, payload);
  }

  // ---- Events ------------------------------------------------------------------------------------------------

  const EMBEDDING_RESULT: U8 := 7
  const COMPLETED: U8 := 10
  const CANCELLED: U8 := 11
  const FAILED: U8 := 12
  const VISION_RESULT: U8 := 13
  const DECISION_RESULT: U8 := 14

  const DETECT: U8 := 1
  const MAX_DIMENSIONS := 65536
  const MAX_DETECTIONS := 1000

  datatype Embedding = Embedding(space: Bytes, model: Bytes, revision: Bytes, dimensions: U32, normalization: U8,
                                 metric: U8, vector: seq<U32>)
  {
    predicate Valid() { space != [] && dimensions > 0 && |vector| == dimensions }
  }

  datatype Detection = Detection(classId: U32, score: U32, xMin: U32, yMin: U32, xMax: U32, yMax: U32, name: Bytes)

  datatype Vision = Vision(task: U8, model: Bytes, revision: Bytes, labelSet: Bytes, width: U32, height: U32,
                           detections: seq<Detection>)

  datatype Event = Event(
    stream: StreamId, number: U64, kind: U8, outcome: U8, category: U8, code: U32, message: Bytes,
    diagnostic: Bytes, payload: Bytes, timestamp: U64, embedding: Embedding, vision: Vision)
  {
    predicate IsTerminal() { kind == COMPLETED || kind == CANCELLED || kind == FAILED }

    predicate Valid(visionValid: Vision -> bool) {
      && (stream.Valid() || stream.ConnectionLevel()) && kind != 0
      && (!stream.ConnectionLevel() ==> number != 0)
      && (kind == EMBEDDING_RESULT ==> embedding.Valid())
      && (kind == VISION_RESULT ==> vision.task == DETECT && visionValid(vision))
      && (kind == DECISION_RESULT ==> payload != [])
    }
  }

  const NO_EMBEDDING := Embedding([], [], [], 0, 0, 0, [])
  const NO_VISION := Vision(0, [], [], [], 0, 0, [])

  function EventShape(): Shape {
    Then(Word(8), Then(Word(1), Then(Word(1), Then(Word(1), Then(Word(4), Then(Text(2), Then(Text(2), Then(Text(4),
    Word(8)))))))))
  }

  function EventTree(e: Event): Tree {
    Pair(Number(e.number), Pair(Number(e.kind), Pair(Number(e.outcome), Pair(Number(e.category), Pair(Number(e.code),
    Pair(Blob(e.message), Pair(Blob(e.diagnostic), Pair(Blob(e.payload), Number(e.timestamp)))))))))
  }

  function EmbeddingShape(): Shape {
    Then(Text(2), Then(Text(2), Then(Text(2), Then(Word(4), Then(Word(1), Then(Word(1), List(4, Word(4))))))))
  }

  function EmbeddingTree(e: Embedding): Tree {
    Pair(Blob(e.space), Pair(Blob(e.model), Pair(Blob(e.revision), Pair(Number(e.dimensions),
    Pair(Number(e.normalization), Pair(Number(e.metric), Items(NumberTrees(e.vector))))))))
  }

  function DetectionShape(): Shape {
    Then(Word(4), Then(Word(4), Then(Word(4), Then(Word(4), Then(Word(4), Then(Word(4), Text(2)))))))
  }

  function DetectionTree(d: Detection): Tree {
    Pair(Number(d.classId), Pair(Number(d.score), Pair(Number(d.xMin), Pair(Number(d.yMin), Pair(Number(d.xMax),
    Pair(Number(d.yMax), Blob(d.name)))))))
  }

  function DetectionFrom(t: Tree): Detection {
    if Fits(DetectionShape(), t) then
      Powers();
      var u := t.tail.tail.tail;
      Detection(t.head.n, t.tail.head.n, t.tail.tail.head.n, u.head.n, u.tail.head.n, u.tail.tail.head.n,
                u.tail.tail.tail.bytes)
    else Detection(0, 0, 0, 0, 0, 0, [])
  }

  function DetectionTrees(ds: seq<Detection>): (ts: seq<Tree>)
    ensures |ts| == |ds| && forall i :: 0 <= i < |ts| ==> ts[i] == DetectionTree(ds[i])
  {
    seq(|ds|, (i: nat) requires i < |ds| => DetectionTree(ds[i]))
  }

  function DetectionsFrom(ts: seq<Tree>): (ds: seq<Detection>)
    ensures |ds| == |ts| && forall i :: 0 <= i < |ts| ==> ds[i] == DetectionFrom(ts[i])
  {
    seq(|ts|, (i: nat) requires i < |ts| => DetectionFrom(ts[i]))
  }

  function VisionShape(): Shape {
    Then(Word(1), Then(Text(2), Then(Text(2), Then(Text(2), Then(Word(4), Then(Word(4), List(4, DetectionShape())))))))
  }

  function VisionTree(v: Vision): Tree {
    Pair(Number(v.task), Pair(Blob(v.model), Pair(Blob(v.revision), Pair(Blob(v.labelSet), Pair(Number(v.width),
    Pair(Number(v.height), Items(DetectionTrees(v.detections))))))))
  }

  /** What follows the common fields depends on the kind of event. */
  function PartShape(kind: U8): Shape {
    if kind == EMBEDDING_RESULT then EmbeddingShape() else if kind == VISION_RESULT then VisionShape() else Empty
  }

  function PartTree(e: Event): Tree {
    if e.kind == EMBEDDING_RESULT then EmbeddingTree(e.embedding)
    else if e.kind == VISION_RESULT then VisionTree(e.vision)
    else Nothing
  }

  function EventFrom(stream: StreamId, t: Tree): Event
    requires Fits(EventShape(), t)
  {
    Powers();
    var u := t.tail.tail.tail.tail;
    Event(stream, t.head.n, t.tail.head.n, t.tail.tail.head.n, t.tail.tail.tail.head.n, u.head.n, u.tail.head.bytes,
          u.tail.tail.head.bytes, u.tail.tail.tail.head.bytes, u.tail.tail.tail.tail.n, NO_EMBEDDING, NO_VISION)
  }

  function EmbeddingFrom(t: Tree): Embedding
    requires Fits(EmbeddingShape(), t)
  {
    Powers();
    var u := t.tail.tail.tail;
    Embedding(t.head.bytes, t.tail.head.bytes, t.tail.tail.head.bytes, u.head.n, u.tail.head.n, u.tail.tail.head.n,
              NumbersFrom(u.tail.tail.tail.items))
  }

  function VisionFrom(t: Tree): Vision
    requires Fits(VisionShape(), t)
  {
    Powers();
    var u := t.tail.tail.tail;
    Vision(t.head.n, t.tail.head.bytes, t.tail.tail.head.bytes, u.head.bytes, u.tail.head.n, u.tail.tail.head.n,
           DetectionsFrom(u.tail.tail.tail.items))
  }

  function WithPart(e: Event, t: Tree): Event
    requires Fits(PartShape(e.kind), t)
  {
    if e.kind == EMBEDDING_RESULT then e.(embedding := EmbeddingFrom(t))
    else if e.kind == VISION_RESULT then e.(vision := VisionFrom(t))
    else e
  }

  /** The limits the decoder sets on counts. That a count also has to be covered by the bytes left is no
      condition of its own: otherwise the items run short. */
  predicate WithinLimits(e: Event) {
    && (e.kind == EMBEDDING_RESULT ==>
          |e.embedding.vector| <= MAX_DIMENSIONS && |e.embedding.vector| == e.embedding.dimensions)
    && (e.kind == VISION_RESULT ==> e.vision.task == DETECT && |e.vision.detections| <= MAX_DETECTIONS)
  }

  function EventBody(e: Event): Bytes {
    Write(EventShape(), EventTree(e)) + Write(PartShape(e.kind), PartTree(e))
  }

  function EncodeEvent(e: Event, visionValid: Vision -> bool): Option<Bytes> {
    if !e.Valid(visionValid) then None else Some(Frame(EVENT, e.stream, EventBody(e)))
  }

  function ParseEvent(stream: StreamId, payload: Bytes, visionValid: Vision -> bool): Option<Event> {
    match Read(EventShape(), payload)
    case Short => None
    case Got(t, rest) =>
      WriteBack(EventShape(), payload);
      var e := EventFrom(stream, t);
      match Read(PartShape(e.kind), rest)
      case Short => None
      case Got(part, rest') =>
        WriteBack(PartShape(e.kind), rest);
        var whole := WithPart(e, part);
        if rest' != [] || !WithinLimits(whole) || !whole.Valid(visionValid) then None else Some(whole)
  }

  function DecodeEvent(data: Bytes, visionValid: Vision -> bool): Option<Event> {
    match Open(data, EVENT)
    case None => None
    case Some(o) => ParseEvent(o.stream, o.payload, visionValid)
  }

  /** An event as its bytes tell it: without the parts its kind does not have. */
  function CanonicalEvent(e: Event): Event {
    e.(embedding := if e.kind == EMBEDDING_RESULT then e.embedding else NO_EMBEDDING,
       vision := if e.kind == VISION_RESULT then e.vision else NO_VISION)
  }

  predicate PartFits(e: Event) {
    && (e.kind == EMBEDDING_RESULT ==>
          |e.embedding.space| < 0x1_0000 && |e.embedding.model| < 0x1_0000 && |e.embedding.revision| < 0x1_0000)
    && (e.kind == VISION_RESULT ==>
          && |e.vision.model| < 0x1_0000 && |e.vision.revision| < 0x1_0000 && |e.vision.labelSet| < 0x1_0000
          && forall i :: 0 <= i < |e.vision.detections| ==> |e.vision.detections[i].name| < 0x1_0000)
  }

  predicate TextsFit(e: Event) {
    |e.message| < 0x1_0000 && |e.diagnostic| < 0x1_0000 && |e.payload| < 0x1_0000_0000 && PartFits(e)
  }

  predicate EncodableEvent(e: Event) {
    TextsFit(e) && WithinLimits(e) && |EventBody(e)| < 0x1_0000_0000
  }

  lemma EventTreeRoundTrip(e: Event)
    requires |e.message| < 0x1_0000 && |e.diagnostic| < 0x1_0000 && |e.payload| < 0x1_0000_0000
    ensures Fits(EventShape(), EventTree(e))
    ensures EventFrom(e.stream, EventTree(e)) == e.(embedding := NO_EMBEDDING, vision := NO_VISION)
  {
    Powers();
  }

  lemma EmbeddingRoundTrip(e: Embedding)
    requires |e.space| < 0x1_0000 && |e.model| < 0x1_0000 && |e.revision| < 0x1_0000 && |e.vector| < 0x1_0000_0000
    ensures Fits(EmbeddingShape(), EmbeddingTree(e)) && EmbeddingFrom(EmbeddingTree(e)) == e
  {
    Powers();
    hide Power256;
    assert NumbersFrom(NumberTrees(e.vector)) == e.vector;
    assert forall i :: 0 <= i < |e.vector| ==> Fits(Word(4), NumberTrees(e.vector)[i]);
  }

  lemma DetectionRoundTrip(d: Detection)
    requires |d.name| < 0x1_0000
    ensures Fits(DetectionShape(), DetectionTree(d)) && DetectionFrom(DetectionTree(d)) == d
  {
    Powers();
  }

  lemma VisionRoundTrip(v: Vision)
    requires |v.model| < 0x1_0000 && |v.revision| < 0x1_0000 && |v.labelSet| < 0x1_0000
    requires |v.detections| < 0x1_0000_0000
    requires forall i :: 0 <= i < |v.detections| ==> |v.detections[i].name| < 0x1_0000
    ensures Fits(VisionShape(), VisionTree(v)) && VisionFrom(VisionTree(v)) == v
  {
    Powers();
    hide Power256, DetectionShape, DetectionTree, DetectionFrom;
    var ts := DetectionTrees(v.detections);
    forall i | 0 <= i < |ts| ensures Fits(DetectionShape(), ts[i]) && DetectionFrom(ts[i]) == v.detections[i] {
      DetectionRoundTrip(v.detections[i]);
    }
    assert DetectionsFrom(ts) == v.detections;
  }

  lemma PartRoundTrip(e: Event)
    requires PartFits(e) && WithinLimits(e)
    ensures Fits(PartShape(e.kind), PartTree(e))
    ensures WithPart(e.(embedding := NO_EMBEDDING, vision := NO_VISION), PartTree(e)) == CanonicalEvent(e)
  {
    hide EmbeddingShape, EmbeddingTree, EmbeddingFrom, VisionShape, VisionTree, VisionFrom;
    if e.kind == EMBEDDING_RESULT { EmbeddingRoundTrip(e.embedding); }
    else if e.kind == VISION_RESULT { VisionRoundTrip(e.vision); }
  }

  lemma EventParses(e: Event, visionValid: Vision -> bool)
    requires e.Valid(visionValid) && EncodableEvent(e)
    ensures ParseEvent(e.stream, EventBody(e), visionValid) == Some(CanonicalEvent(e))
  {
    hide Write, Read, Fits, EventShape, EventTree, EventFrom, PartShape, PartTree, WithPart;
    EventTreeRoundTrip(e);
    PartRoundTrip(e);
    var part := Write(PartShape(e.kind), PartTree(e));
    ReadBack(EventShape(), EventTree(e), part);
    ReadBack(PartShape(e.kind), PartTree(e), []);
    assert part + [] == part;
  }

  lemma ParsedDetectionsFit(ts: seq<Tree>)
    requires forall i :: 0 <= i < |ts| ==> Fits(DetectionShape(), ts[i])
    ensures DetectionTrees(DetectionsFrom(ts)) == ts
    ensures forall i :: 0 <= i < |ts| ==> |DetectionsFrom(ts)[i].name| < 0x1_0000
  {
    forall i | 0 <= i < |ts|
      ensures DetectionTree(DetectionFrom(ts[i])) == ts[i] && |DetectionFrom(ts[i]).name| < 0x1_0000
    {
      Powers();
    }
    hide DetectionTree, DetectionFrom;
  }

  lemma ParsedPartFits(e: Event, t: Tree)
    requires Fits(PartShape(e.kind), t)
    ensures PartFits(WithPart(e, t)) && PartTree(WithPart(e, t)) == t
  {
    Powers();
    hide Power256, DetectionShape;
    if e.kind == EMBEDDING_RESULT {
      var ns := t.tail.tail.tail.tail.tail.tail.items;
      assert NumberTrees(NumbersFrom(ns)) == ns;
    } else if e.kind == VISION_RESULT {
      ParsedDetectionsFit(t.tail.tail.tail.tail.tail.tail.items);
    }
  }

  lemma ParsedBaseFits(stream: StreamId, t: Tree)
    requires Fits(EventShape(), t)
    ensures var e := EventFrom(stream, t);
            && EventTree(e) == t && e.stream == stream && e.embedding == NO_EMBEDDING && e.vision == NO_VISION
            && |e.message| < 0x1_0000 && |e.diagnostic| < 0x1_0000 && |e.payload| < 0x1_0000_0000
  {
    Powers();
  }

  lemma BaseTreeIgnoresPart(e: Event, part: Tree)
    requires Fits(PartShape(e.kind), part)
    ensures EventTree(WithPart(e, part)) == EventTree(e)
  {
    hide EmbeddingFrom, VisionFrom;
  }

  /** What decodes as an event carries only texts that fit, stays within the limits, and is written as exactly
      the payload it came from. */
  lemma ParsedEventFits(stream: StreamId, payload: Bytes, visionValid: Vision -> bool)
    requires ParseEvent(stream, payload, visionValid).Some?
    ensures var e := ParseEvent(stream, payload, visionValid).value;
            TextsFit(e) && WithinLimits(e) && EventBody(e) == payload && e == CanonicalEvent(e) && e.stream == stream
  {
    hide Write, Read, PartShape, PartTree, EventShape, EventTree, EventFrom;
    WriteBack(EventShape(), payload);
    var t, rest := Read(EventShape(), payload).tree, Read(EventShape(), payload).rest;
    var e := EventFrom(stream, t);
    WriteBack(PartShape(e.kind), rest);
    var part := Read(PartShape(e.kind), rest).tree;
    ParsedPartFits(e, part);
    ParsedBaseFits(stream, t);
    BaseTreeIgnoresPart(e, part);
    assert Write(PartShape(e.kind), part) + [] == Write(PartShape(e.kind), part);
  }

  /** An event comes back from its frame, before and after signing, exactly when its texts fit, its counts are
      within the decoder's limits and its payload fits the frame. */
  lemma EventRoundTrip(e: Event, visionValid: Vision -> bool, binding: Binding, direction: U8, number: U32, keyId: U16,
                       key: Key)
    requires e.Valid(visionValid) && key != [] && number != 0
    ensures DecodeEvent(EncodeEvent(e, visionValid).value, visionValid) == Some(CanonicalEvent(e)) <==>
            EncodableEvent(e)
    ensures var signed := Sign(EncodeEvent(e, visionValid).value, binding, direction, number, keyId, key);
            EncodableEvent(e) ==> signed.Some? && DecodeEvent(signed.value, visionValid) == Some(CanonicalEvent(e))
  {
    hide ParseEvent, EventBody, Frame, Open, Sign;
    if EncodableEvent(e) {
      OpenFrame(EVENT, e.stream, EventBody(e));
      OpenSigned(EVENT, e.stream, EventBody(e), binding, direction, number, keyId, key);
      EventParses(e, visionValid);
    } else if DecodeEvent(EncodeEvent(e, visionValid).value, visionValid) == Some(CanonicalEvent(e)) {
      var o := Open(EncodeEvent(e, visionValid).value, EVENT).value;
      ParsedEventFits(o.stream, o.payload, visionValid);
      assert EventBody(CanonicalEvent(e)) == EventBody(e) by { CanonicalBody(e); }
      if |EventBody(e)| >= 0x1_0000_0000 { OpenOverlong(EVENT, e.stream, EventBody(e)); }
    }
  }

  lemma CanonicalBody(e: Event)
    ensures EventBody(CanonicalEvent(e)) == EventBody(e)
  {
    hide Write;
  }
}
