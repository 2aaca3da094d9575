/** The capabilities envelope: a layout that grew at its end twice, and in its middle once. */
module Capabilities {

  import opened Basics
  import opened Wire
  import opened Frames

  const MAX_DECISION_MODELS := 1024
  const MAX_DECISION_STRING := 256

  datatype Space = Space(id: Bytes, model: Bytes, revision: Bytes, dimensions: U32, normalization: U8, metric: U8)

  datatype VisionModel = VisionModel(model: Bytes, revision: Bytes, labelSet: Bytes, task: U8, maxDetections: U32,
                                     labels: seq<Bytes>)

  datatype DecisionModel = DecisionModel(model: Bytes, revision: Bytes, decisionType: Bytes)
  {
    predicate Valid() {
      && 0 < |model| <= MAX_DECISION_STRING && |revision| <= MAX_DECISION_STRING
      && 0 < |decisionType| <= MAX_DECISION_STRING
    }
  }

  datatype Descriptor = Descriptor(
    profiles: seq<U8>, maxContext: U32, maxOutput: U32, streaming: bool, cancellation: bool, tools: bool,
    reasoning: bool, structured: bool, models: seq<Bytes>, spaces: seq<Space>, vision: seq<VisionModel>,
    decisions: seq<DecisionModel>)

  /** The descriptor nothing was said about. */
  const BLANK := Descriptor([], 0, 0, true, true, false, false, false, [], [], [], [])

  // ---- Layout ------------------------------------------------------------------------------------------------

  function SpaceShape(): Shape {
    Then(Text(2), Then(Text(2), Then(Text(2), Then(Word(4), Then(Word(1), Word(1))))))
  }

  function VisionModelShape(): Shape {
    Then(Text(2), Then(Text(2), Then(Text(2), Then(Word(1), Then(Word(4), List(2, Text(2)))))))
  }

  function DecisionModelShape(): Shape {
    Then(Text(2), Then(Text(2), Text(2)))
  }

  function FlagsShape(five: bool): Shape {
    Then(Word(1), Then(Word(1), Then(Word(1), Then(Word(1), if five then Word(1) else Empty))))
  }

  function SettingsShape(five: bool): Shape {
    Then(Word(4), Then(Word(4), FlagsShape(five)))
  }

  function CoreShape(five: bool): Shape {
    Then(List(2, Word(1)), Then(SettingsShape(five), Then(List(2, Text(2)), List(2, SpaceShape()))))
  }

  function BoolTree(b: bool): Tree {
    Number(if b then 1 else 0)
  }

  function SpaceTree(s: Space): Tree {
    Pair(Blob(s.id), Pair(Blob(s.model), Pair(Blob(s.revision), Pair(Number(s.dimensions), Pair(Number(s.normalization),
    Number(s.metric))))))
  }

  function VisionModelTree(v: VisionModel): Tree {
    Pair(Blob(v.model), Pair(Blob(v.revision), Pair(Blob(v.labelSet), Pair(Number(v.task), Pair(Number(v.maxDetections),
    Items(TextTrees(v.labels)))))))
  }

  function DecisionModelTree(d: DecisionModel): Tree {
    Pair(Blob(d.model), Pair(Blob(d.revision), Blob(d.decisionType)))
  }

  function SpaceTrees(ss: seq<Space>): (ts: seq<Tree>)
    ensures |ts| == |ss| && forall i :: 0 <= i < |ts| ==> ts[i] == SpaceTree(ss[i])
  {
    seq(|ss|, (i: nat) requires i < |ss| => SpaceTree(ss[i]))
  }

  function VisionTrees(vs: seq<VisionModel>): (ts: seq<Tree>)
    ensures |ts| == |vs| && forall i :: 0 <= i < |ts| ==> ts[i] == VisionModelTree(vs[i])
  {
    seq(|vs|, (i: nat) requires i < |vs| => VisionModelTree(vs[i]))
  }

  function DecisionTrees(ds: seq<DecisionModel>): (ts: seq<Tree>)
    ensures |ts| == |ds| && forall i :: 0 <= i < |ts| ==> ts[i] == DecisionModelTree(ds[i])
  {
    seq(|ds|, (i: nat) requires i < |ds| => DecisionModelTree(ds[i]))
  }

  function FlagsTree(d: Descriptor): Tree {
    Pair(BoolTree(d.streaming), Pair(BoolTree(d.cancellation), Pair(BoolTree(d.tools), Pair(BoolTree(d.reasoning),
    BoolTree(d.structured)))))
  }

  function SettingsTree(d: Descriptor): (t: Tree)
    ensures Fits(SettingsShape(true), t)
  {
    Powers();
    Pair(Number(d.maxContext), Pair(Number(d.maxOutput), FlagsTree(d)))
  }

  function CoreTree(d: Descriptor): Tree {
    Pair(Items(NumberTrees(d.profiles)),
    Pair(SettingsTree(d), Pair(Items(TextTrees(d.models)), Items(SpaceTrees(d.spaces)))))
  }

  // ---- Encoding ----------------------------------------------------------------------------------------------

  /** The vision list is written when it or the decision list has entries, the decision list when it has. */
  function Tail(d: Descriptor): Bytes {
    if d.decisions != [] then
      Write(List(2, VisionModelShape()), Items(VisionTrees(d.vision))) +
      Write(List(2, DecisionModelShape()), Items(DecisionTrees(d.decisions)))
    else if d.vision != [] then Write(List(2, VisionModelShape()), Items(VisionTrees(d.vision)))
    else []
  }

  function Payload(d: Descriptor): Bytes {
    Write(CoreShape(true), CoreTree(d)) + Tail(d)
  }

  const NO_STREAM := StreamId(0, 0, 0)

  function Encode(d: Descriptor): Bytes {
    Frame(CAPABILITIES, NO_STREAM, Payload(d))
  }

  // ---- Decoding ----------------------------------------------------------------------------------------------

  function ByteOf(t: Tree): U8 {
    if t.Number? && t.n < 256 then t.n else 0
  }

  function BytesFrom(ts: seq<Tree>): (b: Bytes)
    ensures |b| == |ts| && forall i :: 0 <= i < |ts| ==> b[i] == ByteOf(ts[i])
  {
    seq(|ts|, (i: nat) requires i < |ts| => ByteOf(ts[i]))
  }

  function SpaceOf(t: Tree): Space {
    if Fits(SpaceShape(), t) then
      Powers();
      var u := t.tail.tail.tail;
      Space(t.head.bytes, t.tail.head.bytes, t.tail.tail.head.bytes, u.head.n, u.tail.head.n, u.tail.tail.n)
    else Space([], [], [], 0, 0, 0)
  }

  function VisionModelOf(t: Tree): VisionModel {
    if Fits(VisionModelShape(), t) then
      Powers();
      var u := t.tail.tail.tail;
      VisionModel(t.head.bytes, t.tail.head.bytes, t.tail.tail.head.bytes, u.head.n, u.tail.head.n,
                  TextsFrom(u.tail.tail.items))
    else VisionModel([], [], [], 0, 0, [])
  }

  function DecisionModelOf(t: Tree): DecisionModel {
    if Fits(DecisionModelShape(), t) then DecisionModel(t.head.bytes, t.tail.head.bytes, t.tail.tail.bytes)
    else DecisionModel([], [], [])
  }

  function SpacesFrom(ts: seq<Tree>): (ss: seq<Space>)
    ensures |ss| == |ts| && forall i :: 0 <= i < |ts| ==> ss[i] == SpaceOf(ts[i])
  {
    seq(|ts|, (i: nat) requires i < |ts| => SpaceOf(ts[i]))
  }

  function VisionFrom(ts: seq<Tree>): (vs: seq<VisionModel>)
    ensures |vs| == |ts| && forall i :: 0 <= i < |ts| ==> vs[i] == VisionModelOf(ts[i])
  {
    seq(|ts|, (i: nat) requires i < |ts| => VisionModelOf(ts[i]))
  }

  function DecisionsFrom(ts: seq<Tree>): (ds: seq<DecisionModel>)
    ensures |ds| == |ts| && forall i :: 0 <= i < |ts| ==> ds[i] == DecisionModelOf(ts[i])
  {
    seq(|ts|, (i: nat) requires i < |ts| => DecisionModelOf(ts[i]))
  }

  function SettingsFrom(five: bool, t: Tree): Descriptor
    requires Fits(SettingsShape(five), t)
  {
    Powers();
    assert Fits(FlagsShape(five), t.tail.tail);
    var f := t.tail.tail;
    assert Fits(Then(Word(1), Then(Word(1), if five then Word(1) else Empty)), f.tail.tail);
    Descriptor([], t.head.n, t.tail.head.n, f.head.n != 0, f.tail.head.n != 0, f.tail.tail.head.n != 0,
               f.tail.tail.tail.head.n != 0, five && f.tail.tail.tail.tail.n != 0, [], [], [], [])
  }

  lemma SettingsRoundTrip(d: Descriptor)
    ensures SettingsFrom(true, SettingsTree(d)) ==
            d.(profiles := [], models := [], spaces := [], vision := [], decisions := [])
  {
  }

  function CoreFrom(five: bool, t: Tree): Descriptor
    requires Fits(CoreShape(five), t)
  {
    SettingsFrom(five, t.tail.head).(profiles := BytesFrom(t.head.items), models := TextsFrom(t.tail.tail.head.items),
                                     spaces := SpacesFrom(t.tail.tail.tail.items))
  }

  predicate DecisionsValid(ds: seq<DecisionModel>) {
    |ds| <= MAX_DECISION_MODELS && forall i :: 0 <= i < |ds| ==> ds[i].Valid()
  }

  /** A list is there when bytes are left for it. */
  function ParseTail(d: Descriptor, b: Bytes): Option<Descriptor> {
    if b == [] then Some(d)
    else
      match Read(List(2, VisionModelShape()), b)
      case Short => None
      case Got(v, rest) =>
        WriteBack(List(2, VisionModelShape()), b);
        var d1 := d.(vision := VisionFrom(v.items));
        if rest == [] then Some(d1)
        else
          match Read(List(2, DecisionModelShape()), rest)
          case Short => None
          case Got(t, rest') =>
            WriteBack(List(2, DecisionModelShape()), rest);
            var d2 := d1.(decisions := DecisionsFrom(t.items));
            if rest' != [] || !DecisionsValid(d2.decisions) then None else Some(d2)
  }

  function ParsePayload(b: Bytes, five: bool): Option<Descriptor> {
    match Read(CoreShape(five), b)
    case Short => None
    case Got(t, rest) =>
      WriteBack(CoreShape(five), b);
      ParseTail(CoreFrom(five, t), rest)
  }

  /** The present layout is tried first, then the one from before the fifth flag. */
  function Decode(data: Bytes): Option<Descriptor> {
    match Open(data, CAPABILITIES)
    case None => None
    case Some(o) =>
      if ParsePayload(o.payload, true).Some? then ParsePayload(o.payload, true) else ParsePayload(o.payload, false)
  }

  // ---- Round trip --------------------------------------------------------------------------------------------

  predicate TextFits(t: Bytes) { |t| < 0x1_0000 }

  predicate SpaceFits(s: Space) { TextFits(s.id) && TextFits(s.model) && TextFits(s.revision) }

  predicate VisionModelFits(v: VisionModel) {
    && TextFits(v.model) && TextFits(v.revision) && TextFits(v.labelSet) && |v.labels| < 0x1_0000
    && forall i :: 0 <= i < |v.labels| ==> TextFits(v.labels[i])
  }

  predicate CoreFits(d: Descriptor) {
    && |d.profiles| < 0x1_0000 && |d.models| < 0x1_0000 && |d.spaces| < 0x1_0000
    && (forall i :: 0 <= i < |d.models| ==> TextFits(d.models[i]))
    && (forall i :: 0 <= i < |d.spaces| ==> SpaceFits(d.spaces[i]))
  }

  predicate VisionFits(d: Descriptor) {
    |d.vision| < 0x1_0000 && forall i :: 0 <= i < |d.vision| ==> VisionModelFits(d.vision[i])
  }

  /** Everything fits its prefix and the frame, and the decoder's own limits on decision models hold. */
  predicate Encodable(d: Descriptor) {
    CoreFits(d) && VisionFits(d) && DecisionsValid(d.decisions) && |Payload(d)| < 0x1_0000_0000
  }

  lemma SpaceRoundTrip(s: Space)
    requires SpaceFits(s)
    ensures Fits(SpaceShape(), SpaceTree(s)) && SpaceOf(SpaceTree(s)) == s
  {
    Powers();
  }

  lemma VisionModelRoundTrip(v: VisionModel)
    requires VisionModelFits(v)
    ensures Fits(VisionModelShape(), VisionModelTree(v)) && VisionModelOf(VisionModelTree(v)) == v
  {
    Powers();
    hide Power256;
    TextsRoundTrip(v.labels);
    assert forall i :: 0 <= i < |v.labels| ==> Fits(Text(2), TextTrees(v.labels)[i]);
  }

  lemma DecisionModelRoundTrip(d: DecisionModel)
    requires d.Valid()
    ensures Fits(DecisionModelShape(), DecisionModelTree(d)) && DecisionModelOf(DecisionModelTree(d)) == d
  {
    Powers();
  }

  lemma SpacesRoundTrip(ss: seq<Space>)
    requires |ss| < 0x1_0000 && forall i :: 0 <= i < |ss| ==> SpaceFits(ss[i])
    ensures Fits(List(2, SpaceShape()), Items(SpaceTrees(ss))) && SpacesFrom(SpaceTrees(ss)) == ss
  {
    Powers();
    hide Power256, SpaceShape, SpaceTree, SpaceOf, SpaceFits;
    forall i | 0 <= i < |ss| ensures Fits(SpaceShape(), SpaceTree(ss[i])) && SpaceOf(SpaceTree(ss[i])) == ss[i] {
      SpaceRoundTrip(ss[i]);
    }
  }

  lemma VisionRoundTrip(vs: seq<VisionModel>)
    requires |vs| < 0x1_0000 && forall i :: 0 <= i < |vs| ==> VisionModelFits(vs[i])
    ensures Fits(List(2, VisionModelShape()), Items(VisionTrees(vs))) && VisionFrom(VisionTrees(vs)) == vs
  {
    Powers();
    hide Power256, VisionModelShape, VisionModelTree, VisionModelOf, VisionModelFits;
    forall i | 0 <= i < |vs|
      ensures Fits(VisionModelShape(), VisionModelTree(vs[i])) && VisionModelOf(VisionModelTree(vs[i])) == vs[i]
    {
      VisionModelRoundTrip(vs[i]);
    }
  }

  lemma DecisionsRoundTrip(ds: seq<DecisionModel>)
    requires DecisionsValid(ds)
    ensures Fits(List(2, DecisionModelShape()), Items(DecisionTrees(ds))) && DecisionsFrom(DecisionTrees(ds)) == ds
  {
    Powers();
    hide Power256, DecisionModelShape, DecisionModelTree, DecisionModelOf;
    forall i | 0 <= i < |ds|
      ensures Fits(DecisionModelShape(), DecisionModelTree(ds[i])) && DecisionModelOf(DecisionModelTree(ds[i])) == ds[i]
    {
      DecisionModelRoundTrip(ds[i]);
    }
  }

  lemma ProfilesRoundTrip(p: seq<U8>)
    requires |p| < 0x1_0000
    ensures Fits(List(2, Word(1)), Items(NumberTrees(p))) && BytesFrom(NumberTrees(p)) == p
  {
    Powers();
    hide Power256;
  }

  lemma ModelsRoundTrip(m: seq<Bytes>)
    requires |m| < 0x1_0000 && forall i :: 0 <= i < |m| ==> TextFits(m[i])
    ensures Fits(List(2, Text(2)), Items(TextTrees(m))) && TextsFrom(TextTrees(m)) == m
  {
    Powers();
    hide Power256;
  }

  lemma CoreRoundTrip(d: Descriptor)
    requires CoreFits(d)
    ensures Fits(CoreShape(true), CoreTree(d)) && CoreFrom(true, CoreTree(d)) == d.(vision := [], decisions := [])
  {
    hide SettingsShape, SettingsTree, SettingsFrom, SpaceShape, SpaceFits, SpaceTrees, TextTrees, NumberTrees,
      SpacesFrom,
      TextsFrom, BytesFrom;
    SettingsRoundTrip(d);
    SpacesRoundTrip(d.spaces);
    ModelsRoundTrip(d.models);
    ProfilesRoundTrip(d.profiles);
  }

  lemma ListNotEmpty(item: Shape, ts: seq<Tree>)
    ensures |Write(List(2, item), Items(ts))| >= 2
  {
  }

  lemma TailParses(d: Descriptor)
    requires VisionFits(d) && DecisionsValid(d.decisions)
    ensures ParseTail(d.(vision := [], decisions := []), Tail(d)) == Some(d)
  {
    hide Write, Read, Fits, VisionModelShape, DecisionModelShape;
    var v, t := Items(VisionTrees(d.vision)), Items(DecisionTrees(d.decisions));
    VisionRoundTrip(d.vision);
    DecisionsRoundTrip(d.decisions);
    ListNotEmpty(VisionModelShape(), v.items);
    ListNotEmpty(DecisionModelShape(), t.items);
    var decisions := Write(List(2, DecisionModelShape()), t);
    if d.decisions != [] {
      ReadBack(List(2, VisionModelShape()), v, decisions);
      ReadBack(List(2, DecisionModelShape()), t, []);
      assert decisions + [] == decisions;
    } else if d.vision != [] {
      ReadBack(List(2, VisionModelShape()), v, []);
      assert Tail(d) + [] == Tail(d);
    }
  }

  lemma PayloadParses(d: Descriptor)
    requires CoreFits(d) && VisionFits(d) && DecisionsValid(d.decisions)
    ensures ParsePayload(Payload(d), true) == Some(d)
  {
    hide Write, Read, Fits, CoreShape, CoreTree, CoreFrom, Tail, ParseTail;
    CoreRoundTrip(d);
    ReadBack(CoreShape(true), CoreTree(d), Tail(d));
    TailParses(d);
  }

  /** Capabilities come back from their frame, before and after signing: the older layout is never mistaken
      for them. */
  lemma RoundTrip(d: Descriptor, binding: Binding, direction: U8, number: U32, keyId: U16, key: Key)
    requires Encodable(d) && key != [] && number != 0
    ensures Decode(Encode(d)) == Some(d)
    ensures var signed := Sign(Encode(d), binding, direction, number, keyId, key);
            signed.Some? && Decode(signed.value) == Some(d)
  {
    hide ParsePayload, Payload, Frame, Open, Sign;
    OpenFrame(CAPABILITIES, NO_STREAM, Payload(d));
    OpenSigned(CAPABILITIES, NO_STREAM, Payload(d), binding, direction, number, keyId, key);
    PayloadParses(d);
  }

  // ---- Exactly when ------------------------------------------------------------------------------------------

  lemma ParsedCoreFits(five: bool, t: Tree)
    requires Fits(CoreShape(five), t)
    ensures CoreFits(CoreFrom(five, t)) && CoreFrom(five, t).vision == [] && CoreFrom(five, t).decisions == []
  {
    Powers();
    hide Power256, SpaceShape, SettingsShape;
    var models, spaces := t.tail.tail.head.items, t.tail.tail.tail.items;
    forall i | 0 <= i < |spaces| ensures SpaceFits(SpaceOf(spaces[i])) { ParsedSpaceFits(spaces[i]); }
    assert forall i :: 0 <= i < |models| ==> Fits(Text(2), models[i]);
  }

  lemma ParsedSpaceFits(t: Tree)
    ensures SpaceFits(SpaceOf(t))
  {
    Powers();
  }

  lemma ParsedVisionModelFits(t: Tree)
    ensures VisionModelFits(VisionModelOf(t))
  {
    Powers();
    hide Power256;
    if Fits(VisionModelShape(), t) {
      var labels := t.tail.tail.tail.tail.tail.items;
      assert forall i :: 0 <= i < |labels| ==> Fits(Text(2), labels[i]);
    }
  }

  lemma ParsedTailFits(d: Descriptor, b: Bytes)
    requires CoreFits(d) && d.vision == [] && d.decisions == [] && ParseTail(d, b).Some?
    ensures var r := ParseTail(d, b).value; CoreFits(r) && VisionFits(r) && DecisionsValid(r.decisions)
  {
    Powers();
    hide Power256, Write, Read, VisionModelShape, VisionModelOf, VisionModelFits, SpaceFits, TextFits;
    if b != [] {
      WriteBack(List(2, VisionModelShape()), b);
      var ts := Read(List(2, VisionModelShape()), b).tree.items;
      forall i | 0 <= i < |ts| ensures VisionModelFits(VisionModelOf(ts[i])) { ParsedVisionModelFits(ts[i]); }
    }
  }

  /** Whatever decodes, in either layout, holds only what fits and only valid decision models. */
  lemma ParsedFits(b: Bytes, five: bool)
    requires ParsePayload(b, five).Some?
    ensures var d := ParsePayload(b, five).value; CoreFits(d) && VisionFits(d) && DecisionsValid(d.decisions)
  {
    hide Write, Read, CoreShape, CoreFrom, ParseTail;
    WriteBack(CoreShape(five), b);
    var t, rest := Read(CoreShape(five), b).tree, Read(CoreShape(five), b).rest;
    ParsedCoreFits(five, t);
    ParsedTailFits(CoreFrom(five, t), rest);
  }

  // ---- Lengths -----------------------------------------------------------------------------------------------

  lemma SpaceBack(t: Tree)
    requires Fits(SpaceShape(), t)
    ensures SpaceTree(SpaceOf(t)) == t
  {
    Powers();
  }

  lemma LabelsBack(ts: seq<Tree>)
    requires Fits(List(2, Text(2)), Items(ts))
    ensures TextTrees(TextsFrom(ts)) == ts
  {
    hide Power256;
    assert forall i :: 0 <= i < |ts| ==> Fits(Text(2), ts[i]);
  }

  lemma VisionModelBack(t: Tree)
    requires Fits(VisionModelShape(), t)
    ensures VisionModelTree(VisionModelOf(t)) == t
  {
    Powers();
    hide Power256, TextTrees, TextsFrom;
    LabelsBack(t.tail.tail.tail.tail.tail.items);
  }

  lemma DecisionModelBack(t: Tree)
    requires Fits(DecisionModelShape(), t)
    ensures DecisionModelTree(DecisionModelOf(t)) == t
  {
    Powers();
  }

  lemma SpacesBack(ts: seq<Tree>)
    requires Fits(List(2, SpaceShape()), Items(ts))
    ensures SpaceTrees(SpacesFrom(ts)) == ts
  {
    hide Power256, SpaceShape, SpaceTree, SpaceOf;
    forall i | 0 <= i < |ts| ensures SpaceTree(SpaceOf(ts[i])) == ts[i] { SpaceBack(ts[i]); }
  }

  lemma VisionBack(ts: seq<Tree>)
    requires Fits(List(2, VisionModelShape()), Items(ts))
    ensures VisionTrees(VisionFrom(ts)) == ts
  {
    hide Power256, VisionModelShape, VisionModelTree, VisionModelOf;
    forall i | 0 <= i < |ts| ensures VisionModelTree(VisionModelOf(ts[i])) == ts[i] { VisionModelBack(ts[i]); }
  }

  lemma DecisionsBack(ts: seq<Tree>)
    requires Fits(List(2, DecisionModelShape()), Items(ts))
    ensures DecisionTrees(DecisionsFrom(ts)) == ts
  {
    hide Power256, DecisionModelShape, DecisionModelTree, DecisionModelOf;
    forall i | 0 <= i < |ts| ensures DecisionModelTree(DecisionModelOf(ts[i])) == ts[i] { DecisionModelBack(ts[i]); }
  }

  lemma ProfilesBack(ts: seq<Tree>)
    requires Fits(List(2, Word(1)), Items(ts))
    ensures NumberTrees(BytesFrom(ts)) == ts
  {
    Powers();
    hide Power256;
    assert forall i :: 0 <= i < |ts| ==> Fits(Word(1), ts[i]);
  }

  lemma SettingsWidth(five: bool)
    ensures Fixed(SettingsShape(five)) && Width(SettingsShape(five)) == if five then 13 else 12
  {
  }

  lemma CoreWrites(five: bool, t: Tree)
    requires t.Pair? && t.tail.Pair? && t.tail.tail.Pair?
    ensures |Write(CoreShape(five), t)| ==
            |Write(List(2, Word(1)), t.head)| + |Write(SettingsShape(five), t.tail.head)| +
            |Write(List(2, Text(2)), t.tail.tail.head)| + |Write(List(2, SpaceShape()), t.tail.tail.tail)|
  {
    hide SettingsShape, SpaceShape;
    var lists := Then(List(2, Text(2)), List(2, SpaceShape()));
    assert |Write(lists, t.tail.tail)| ==
           |Write(List(2, Text(2)), t.tail.tail.head)| + |Write(List(2, SpaceShape()), t.tail.tail.tail)|;
    assert |Write(Then(SettingsShape(five), lists), t.tail)| ==
           |Write(SettingsShape(five), t.tail.head)| + |Write(lists, t.tail.tail)|;
  }

  /** What was read as the fixed part is written in as many bytes, or one more if it was read in the older layout. */
  lemma CoreIsNoLonger(five: bool, t: Tree)
    requires Fits(CoreShape(five), t)
    ensures |Write(CoreShape(true), CoreTree(CoreFrom(five, t)))| <= |Write(CoreShape(five), t)| + 1
  {
    hide Power256, Write, SettingsShape, SettingsTree, SpaceShape, SpaceTrees, SpacesFrom, TextTrees, TextsFrom,
      NumberTrees, BytesFrom;
    var d := CoreFrom(five, t);
    ProfilesBack(t.head.items);
    LabelsBack(t.tail.tail.head.items);
    SpacesBack(t.tail.tail.tail.items);
    SettingsWidth(five);
    SettingsWidth(true);
    FixedWrites(SettingsShape(five), t.tail.head);
    FixedWrites(SettingsShape(true), SettingsTree(d));
    CoreWrites(five, t);
    CoreWrites(true, CoreTree(d));
  }

  lemma TailIsNoLonger(d: Descriptor, b: Bytes)
    requires d.vision == [] && d.decisions == [] && ParseTail(d, b).Some?
    ensures |Tail(ParseTail(d, b).value)| <= |b|
  {
    hide Power256, Write, Read, Fits, VisionModelShape, DecisionModelShape, VisionTrees, VisionFrom, DecisionTrees,
      DecisionsFrom, DecisionsValid;
    if b != [] {
      WriteBack(List(2, VisionModelShape()), b);
      var v, rest := Read(List(2, VisionModelShape()), b).tree, Read(List(2, VisionModelShape()), b).rest;
      assert v.Items? by { ListTrees(VisionModelShape(), v); }
      VisionBack(v.items);
      if rest != [] {
        WriteBack(List(2, DecisionModelShape()), rest);
        var t := Read(List(2, DecisionModelShape()), rest).tree;
        assert t.Items? by { ListTrees(DecisionModelShape(), t); }
        DecisionsBack(t.items);
      }
    }
  }

  lemma ListTrees(item: Shape, t: Tree)
    requires Fits(List(2, item), t)
    ensures t.Items?
  {
  }

  /** Whatever decodes would be written in at most one byte more than it was read from. */
  lemma ParsedIsNoLonger(b: Bytes, five: bool)
    requires ParsePayload(b, five).Some?
    ensures |Payload(ParsePayload(b, five).value)| <= |b| + 1
  {
    hide Write, Read, CoreShape, CoreFrom, CoreTree, Tail, ParseTail;
    WriteBack(CoreShape(five), b);
    var t, rest := Read(CoreShape(five), b).tree, Read(CoreShape(five), b).rest;
    ParsedCoreFits(five, t);
    CoreIsNoLonger(five, t);
    TailIsNoLonger(CoreFrom(five, t), rest);
    TailKeepsCore(CoreFrom(five, t), rest);
  }

  lemma TailKeepsCore(d: Descriptor, b: Bytes)
    requires ParseTail(d, b).Some?
    ensures CoreTree(ParseTail(d, b).value) == CoreTree(d)
  {
    hide Read, Write, VisionFrom, DecisionsFrom, DecisionsValid;
  }

  /** Capabilities come back exactly when their texts and lists and the whole payload fit and their decision models are
      valid and not too many. */
  lemma RoundTripsExactly(d: Descriptor)
    ensures Decode(Encode(d)) == Some(d) <==> Encodable(d)
  {
    hide ParsePayload, Payload, Frame, Open;
    if Encodable(d) {
      RoundTrip(d, Binding(0, 0, 0, 0, 0), 0, 1, 0, [0]);
    } else if Decode(Encode(d)) == Some(d) {
      var b := Open(Encode(d), CAPABILITIES).value.payload;
      ParsedFits(b, ParsePayload(b, true).Some?);
      ParsedIsNoLonger(b, ParsePayload(b, true).Some?);
      if |Payload(d)| >= 0x1_0000_0000 { OpenOverlong(CAPABILITIES, NO_STREAM, Payload(d)); }
    }
  }
}
