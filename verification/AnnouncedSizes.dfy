/** The size check of a registration adds up what its capabilities take when they are written. */
module AnnouncedSizes {

  import opened Basics
  import opened Wire
  import opened Capabilities
  import Frames
  import R = Registration

  lemma TextSize(text: Bytes)
    requires TextFits(text)
    ensures |Write(Text(2), Blob(text))| == 2 + |text|
  {
    Powers();
    hide Little;
  }

  lemma {:induction false} TextsSize(ss: seq<Bytes>)
    requires forall i :: 0 <= i < |ss| ==> TextFits(ss[i])
    ensures |WriteAll(Text(2), TextTrees(ss))| == R.TextBytes(ss)
  {
    hide Write;
    if ss != [] {
      assert TextTrees(ss)[0] == Blob(ss[0]) && TextTrees(ss)[1..] == TextTrees(ss[1..]);
      TextSize(ss[0]);
      TextsSize(ss[1..]);
    }
  }

  lemma PairSize(a: Shape, b: Shape, x: Tree, y: Tree)
    ensures |Write(Then(a, b), Pair(x, y))| == |Write(a, x)| + |Write(b, y)|
  {
  }

  lemma WordSize(w: nat, n: nat)
    ensures |Write(Word(w), Number(n))| == w
  {
  }

  lemma ListSize(count: nat, item: Shape, ts: seq<Tree>)
    ensures |Write(List(count, item), Items(ts))| == count + |WriteAll(item, ts)|
  {
  }

  lemma SpaceSize(s: Space)
    requires SpaceFits(s)
    ensures |Write(SpaceShape(), SpaceTree(s))| == |s.id| + |s.model| + |s.revision| + 12
  {
    hide Write;
    TextSize(s.id);
    TextSize(s.model);
    TextSize(s.revision);
    WordSize(4, s.dimensions);
    WordSize(1, s.normalization);
    WordSize(1, s.metric);
    var end, ends := Then(Word(1), Word(1)), Pair(Number(s.normalization), Number(s.metric));
    PairSize(Word(1), Word(1), Number(s.normalization), Number(s.metric));
    PairSize(Word(4), end, Number(s.dimensions), ends);
    PairSize(Text(2), Then(Word(4), end), Blob(s.revision), Pair(Number(s.dimensions), ends));
    PairSize(Text(2), Then(Text(2), Then(Word(4), end)), Blob(s.model),
             Pair(Blob(s.revision), Pair(Number(s.dimensions), ends)));
    PairSize(Text(2), Then(Text(2), Then(Text(2), Then(Word(4), end))), Blob(s.id),
             Pair(Blob(s.model), Pair(Blob(s.revision), Pair(Number(s.dimensions), ends))));
  }

  lemma {:induction false} SpacesSize(ss: seq<Space>)
    requires forall i :: 0 <= i < |ss| ==> SpaceFits(ss[i])
    ensures |WriteAll(SpaceShape(), SpaceTrees(ss))| == R.SpaceBytes(ss)
  {
    hide Write, SpaceShape, SpaceTree;
    if ss != [] {
      assert SpaceTrees(ss)[0] == SpaceTree(ss[0]) && SpaceTrees(ss)[1..] == SpaceTrees(ss[1..]);
      SpaceSize(ss[0]);
      SpacesSize(ss[1..]);
    }
  }

  lemma VisionModelSize(v: VisionModel)
    requires VisionModelFits(v)
    ensures |Write(VisionModelShape(), VisionModelTree(v))| ==
            |v.model| + |v.revision| + |v.labelSet| + 13 + R.TextBytes(v.labels)
  {
    hide Write;
    TextSize(v.model);
    TextSize(v.revision);
    TextSize(v.labelSet);
    WordSize(1, v.task);
    WordSize(4, v.maxDetections);
    TextsSize(v.labels);
    var labels, shape := Items(TextTrees(v.labels)), List(2, Text(2));
    ListSize(2, Text(2), TextTrees(v.labels));
    PairSize(Word(4), shape, Number(v.maxDetections), labels);
    var end, ends := Then(Word(4), shape), Pair(Number(v.maxDetections), labels);
    PairSize(Word(1), end, Number(v.task), ends);
    PairSize(Text(2), Then(Word(1), end), Blob(v.labelSet), Pair(Number(v.task), ends));
    PairSize(Text(2), Then(Text(2), Then(Word(1), end)), Blob(v.revision),
             Pair(Blob(v.labelSet), Pair(Number(v.task), ends)));
    PairSize(Text(2), Then(Text(2), Then(Text(2), Then(Word(1), end))), Blob(v.model),
             Pair(Blob(v.revision), Pair(Blob(v.labelSet), Pair(Number(v.task), ends))));
  }

  lemma {:induction false} VisionSize(vs: seq<VisionModel>)
    requires forall i :: 0 <= i < |vs| ==> VisionModelFits(vs[i])
    ensures |WriteAll(VisionModelShape(), VisionTrees(vs))| == R.VisionBytes(vs)
  {
    hide Write, VisionModelShape, VisionModelTree, VisionModelFits;
    if vs != [] {
      assert VisionTrees(vs)[0] == VisionModelTree(vs[0]) && VisionTrees(vs)[1..] == VisionTrees(vs[1..]);
      VisionModelSize(vs[0]);
      VisionSize(vs[1..]);
    }
  }

  lemma DecisionModelSize(m: DecisionModel)
    requires m.Valid()
    ensures |Write(DecisionModelShape(), DecisionModelTree(m))| == |m.model| + |m.revision| + |m.decisionType| + 6
  {
    hide Write;
    TextSize(m.model);
    TextSize(m.revision);
    TextSize(m.decisionType);
    PairSize(Text(2), Text(2), Blob(m.revision), Blob(m.decisionType));
    PairSize(Text(2), Then(Text(2), Text(2)), Blob(m.model), Pair(Blob(m.revision), Blob(m.decisionType)));
  }

  lemma {:induction false} DecisionsSize(ms: seq<DecisionModel>)
    requires forall i :: 0 <= i < |ms| ==> ms[i].Valid()
    ensures |WriteAll(DecisionModelShape(), DecisionTrees(ms))| == R.DecisionBytes(ms)
  {
    hide Write, DecisionModelShape, DecisionModelTree, DecisionModel.Valid;
    if ms != [] {
      assert DecisionTrees(ms)[0] == DecisionModelTree(ms[0]) && DecisionTrees(ms)[1..] == DecisionTrees(ms[1..]);
      DecisionModelSize(ms[0]);
      DecisionsSize(ms[1..]);
    }
  }

  lemma {:induction false} NumbersSize(ns: seq<U8>)
    ensures |WriteAll(Word(1), NumberTrees(ns))| == |ns|
  {
    hide Write;
    if ns != [] {
      assert NumberTrees(ns)[0] == Number(ns[0]) && NumberTrees(ns)[1..] == NumberTrees(ns[1..]);
      WordSize(1, ns[0]);
      NumbersSize(ns[1..]);
    }
  }

  lemma SettingsSize(d: Descriptor)
    ensures |Write(SettingsShape(true), SettingsTree(d))| == 13
  {
    hide Little;
  }

  lemma CoreSize(d: Descriptor)
    requires CoreFits(d)
    ensures |Write(CoreShape(true), CoreTree(d))| ==
            19 + |d.profiles| + R.TextBytes(d.models) + R.SpaceBytes(d.spaces)
  {
    hide Write, SettingsShape, SettingsTree, SpaceShape, SpaceTrees, NumberTrees, TextTrees;
    NumbersSize(d.profiles);
    TextsSize(d.models);
    SpacesSize(d.spaces);
    SettingsSize(d);
    ListSize(2, Word(1), NumberTrees(d.profiles));
    ListSize(2, Text(2), TextTrees(d.models));
    ListSize(2, SpaceShape(), SpaceTrees(d.spaces));
    var models, spaces := Items(TextTrees(d.models)), Items(SpaceTrees(d.spaces));
    PairSize(List(2, Text(2)), List(2, SpaceShape()), models, spaces);
    PairSize(SettingsShape(true), Then(List(2, Text(2)), List(2, SpaceShape())), SettingsTree(d), Pair(models, spaces));
    PairSize(List(2, Word(1)), Then(SettingsShape(true), Then(List(2, Text(2)), List(2, SpaceShape()))),
             Items(NumberTrees(d.profiles)), Pair(SettingsTree(d), Pair(models, spaces)));
  }

  /** The size of the payload that carries capabilities: 19 bytes, one for each profile, what the size check adds up for
      models and spaces, and for the two lists at the end, when they are written, two more than it adds up. */
  lemma PayloadSize(d: Descriptor)
    requires CoreFits(d) && VisionFits(d) && DecisionsValid(d.decisions)
    ensures |Payload(d)| ==
            19 + |d.profiles| + R.TextBytes(d.models) + R.SpaceBytes(d.spaces) +
            (if d.vision != [] || d.decisions != [] then 2 + R.VisionBytes(d.vision) else 0) +
            (if d.decisions != [] then 2 + R.DecisionBytes(d.decisions) else 0)
  {
    hide Write, CoreShape, CoreTree, VisionModelShape, VisionTrees, DecisionModelShape, DecisionTrees, CoreFits,
      VisionModelFits, DecisionModel.Valid;
    CoreSize(d);
    VisionSize(d.vision);
    DecisionsSize(d.decisions);
    ListSize(2, VisionModelShape(), VisionTrees(d.vision));
    ListSize(2, DecisionModelShape(), DecisionTrees(d.decisions));
  }

  /** So the size check does what it is for: capabilities that pass it take less than 65536 bytes with their header, and
      a registration announces them in full. */
  lemma ValidCapabilitiesAreSmall(d: Descriptor)
    requires R.ValidDescriptor(d)
    ensures |Encode(d)| < 65536
    ensures |Encode(d)| <= Frames.HEADER_SIZE + 28 + R.TextBytes(d.models) + R.SpaceBytes(d.spaces) +
                           R.VisionBytes(d.vision) + R.DecisionBytes(d.decisions)
  {
    R.ValidSurvives(d);
    R.FewProfiles(d.profiles);
    hide Payload, Frames.EncodeHeader, R.TextBytes, R.SpaceBytes, R.VisionBytes, R.DecisionBytes, R.ValidSpace,
      R.ValidVision, R.Distinct, CoreFits, VisionFits, DecisionsValid;
    PayloadSize(d);
  }
}
