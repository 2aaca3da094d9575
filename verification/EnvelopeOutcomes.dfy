/** What the encoders refuse and what a receiver may rely on once an envelope was decoded. */
module EnvelopeOutcomes {

  import opened Basics
  import opened Frames
  import Capabilities
  import Events
  import OptionOrder
  import R = Registration
  import Requests

  // ---- Requests ----------------------------------------------------------------------------------------------

  predicate KeysRepeat(extras: seq<OptionOrder.Pair>) {
    exists i, j :: 0 <= i < j < |extras| && extras[i].0 == extras[j].0
  }

  /** A request is encoded exactly if it names its request, execution, profile and model, and if it has options, lists
      at most 65535 stops and extra options and no extra option twice. */
  lemma RequestsEncodeExactly(q: Requests.Request)
    ensures Requests.Encode(q).Some? <==>
            && q.stream.request != 0 && q.stream.execution != 0 && q.profile != 0 && q.model != []
            && (q.hasOptions ==>
                  |q.options.stops| <= 65535 && |q.options.extras| <= 65535 && !KeysRepeat(q.options.extras))
  {
    hide OptionOrder.Less, OptionOrder.Sort, OptionOrder.StrictlyAscending, Requests.Body, Frame;
    OptionOrder.DuplicatesAreFound(q.options.extras);
    assert OptionOrder.DistinctKeys(q.options.extras) <==> !KeysRepeat(q.options.extras);
  }

  /** A decoded request names its request, execution, profile and model, and its extra options are in strict key
      order. */
  lemma RequestsPromise(data: Bytes)
    requires Requests.Decode(data).Some?
    ensures var q := Requests.Decode(data).value;
            && q.stream.request != 0 && q.stream.execution != 0 && q.profile != 0 && q.model != []
            && (q.hasOptions ==> OptionOrder.StrictlyAscending(q.options.extras))
            && (!q.hasOptions ==> q.options == Requests.DEFAULTS)
  {
    hide Open, OptionOrder.StrictlyAscending, Requests.OptionsShape, Requests.BaseShape;
  }

  // ---- Events and controls -----------------------------------------------------------------------------------

  /** An event of a stream with a number, or one of the connection; with its result if it is of a kind that has one. */
  predicate Meaningful(e: Events.Event, visionValid: Events.Vision -> bool) {
    && ((e.stream.request != 0 && e.stream.execution != 0 && e.number != 0) ||
        (e.stream.request == 0 && e.stream.execution == 0 && e.stream.output == 0))
    && e.kind != 0
    && (e.kind == Events.EMBEDDING_RESULT ==>
          e.embedding.space != [] && |e.embedding.vector| == e.embedding.dimensions > 0)
    && (e.kind == Events.VISION_RESULT ==> e.vision.task == Events.DETECT && visionValid(e.vision))
    && (e.kind == Events.DECISION_RESULT ==> e.payload != [])
  }

  /** Exactly the meaningful events are encoded, and every decoded one is meaningful and within the decoder's limits. */
  lemma EventsExactly(e: Events.Event, data: Bytes, visionValid: Events.Vision -> bool)
    ensures Events.EncodeEvent(e, visionValid).Some? <==> Meaningful(e, visionValid)
    ensures Events.DecodeEvent(data, visionValid).Some? ==>
              var d := Events.DecodeEvent(data, visionValid).value;
              && Meaningful(d, visionValid)
              && (d.kind == Events.EMBEDDING_RESULT ==> |d.embedding.vector| <= 65536)
              && (d.kind == Events.VISION_RESULT ==> |d.vision.detections| <= 1000)
  {
    hide Open, Events.EventShape, Events.PartShape, Events.EventBody, Frame, Events.EventFrom, Events.WithPart;
  }

  /** A meaningful event stays within the limits exactly with at most 65536 values or 1000 detections. */
  lemma LimitsExactly(e: Events.Event, visionValid: Events.Vision -> bool)
    requires Meaningful(e, visionValid)
    ensures Events.WithinLimits(e) <==>
            && (e.kind == Events.EMBEDDING_RESULT ==> |e.embedding.vector| <= 65536)
            && (e.kind == Events.VISION_RESULT ==> |e.vision.detections| <= 1000)
  {
  }

  /** Exactly the controls that name a request, an execution and a kind are encoded, and only such are decoded. */
  lemma ControlsExactly(c: Events.Control, data: Bytes)
    ensures Events.EncodeControl(c).Some? <==> c.stream.request != 0 && c.stream.execution != 0 && c.kind != 0
    ensures Events.DecodeControl(data).Some? ==>
              var d := Events.DecodeControl(data).value;
              d.stream.request != 0 && d.stream.execution != 0 && d.kind != 0
  {
    hide Open, Events.ControlShape, Events.ControlTree, Frame, Events.ControlFrom;
  }

  /** The kinds that end a stream. */
  lemma TerminalExactly(e: Events.Event)
    ensures e.IsTerminal() <==> e.kind in {Events.COMPLETED, Events.CANCELLED, Events.FAILED}
  {
  }

  // ---- Capabilities ------------------------------------------------------------------------------------------

  /** A capabilities frame decodes exactly if its payload is of the present layout or of the one before the fifth
      flag, and is taken for the older only if it is not of the present. */
  lemma BothLayoutsDecode(data: Bytes)
    requires Open(data, CAPABILITIES).Some?
    ensures var payload := Open(data, CAPABILITIES).value.payload;
            var present, older := Capabilities.ParsePayload(payload, true), Capabilities.ParsePayload(payload, false);
            && (Capabilities.Decode(data).Some? <==> present.Some? || older.Some?)
            && (present.Some? ==> Capabilities.Decode(data) == present)
            && (present.None? ==> Capabilities.Decode(data) == older)
  {
    hide Capabilities.ParsePayload, Open;
  }

  // ---- Registrations -----------------------------------------------------------------------------------------

  predicate Sized(text: Bytes, most: nat) { 0 < |text| <= most }

  predicate NoRepeats<T(==)>(s: seq<T>) { forall i, j :: 0 <= i < |s| && 0 <= j < |s| && s[i] == s[j] ==> i == j }

  predicate Offers(d: Capabilities.Descriptor, model: Bytes) { model in d.models }

  predicate SpacePresentable(d: Capabilities.Descriptor, s: Capabilities.Space) {
    && Offers(d, s.model) && Sized(s.id, 8192) && Sized(s.model, 8192) && |s.revision| <= 8192
    && 1 <= s.dimensions <= 65536 && s.normalization in {0, 1} && s.metric in {1, 2, 3}
  }

  predicate VisionPresentable(d: Capabilities.Descriptor, v: Capabilities.VisionModel) {
    && Offers(d, v.model) && Sized(v.model, 256) && |v.revision| <= 256 && Sized(v.labelSet, 256) && v.task == 1
    && 1 <= v.maxDetections <= 1000 && |v.labels| <= 2048 && forall name :: name in v.labels ==> |name| <= 256
  }

  predicate DecisionPresentable(d: Capabilities.Descriptor, m: Capabilities.DecisionModel) {
    Offers(d, m.model) && Sized(m.model, 256) && |m.revision| <= 256 && Sized(m.decisionType, 256)
  }

  predicate OneVisionEach(vs: seq<Capabilities.VisionModel>) {
    forall i, j :: 0 <= i < |vs| && 0 <= j < |vs| && vs[i].model == vs[j].model ==> i == j
  }

  predicate OneEach(ms: seq<Capabilities.DecisionModel>) {
    forall i, j :: 0 <= i < |ms| && 0 <= j < |ms| && ms[i].model == ms[j].model ==> i == j
  }

  function Weight(d: Capabilities.Descriptor): nat {
    128 + R.TextBytes(d.models) + R.SpaceBytes(d.spaces) + R.VisionBytes(d.vision) + R.DecisionBytes(d.decisions)
  }

  /** What a worker may announce: models and profiles, each once; spaces, vision and decision models only for models
      it has, the latter two exactly if their profile is announced and at most one for a model; all of it of bounded
      size. */
  predicate Presentable(d: Capabilities.Descriptor) {
    && 1 <= |d.models| <= 2048 && NoRepeats(d.models) && (forall m :: m in d.models ==> Sized(m, 8192))
    && 1 <= |d.profiles| && NoRepeats(d.profiles) && (forall p :: p in d.profiles ==> p in {1, 2, 3, 4, 5})
    && |d.spaces| <= 2048 && (forall s :: s in d.spaces ==> SpacePresentable(d, s))
    && |d.vision| <= 2048 && (forall v :: v in d.vision ==> VisionPresentable(d, v))
    && OneVisionEach(d.vision)
    && (4 in d.profiles <==> d.vision != [])
    && |d.decisions| <= 1024 && (forall m :: m in d.decisions ==> DecisionPresentable(d, m))
    && OneEach(d.decisions)
    && (5 in d.profiles <==> d.decisions != [])
    && Weight(d) <= 65536
  }

  lemma DistinctExactly<T>(s: seq<T>)
    ensures R.Distinct(s) <==> NoRepeats(s)
  {
    if R.Distinct(s) {
      forall i, j | 0 <= i < |s| && 0 <= j < |s| && s[i] == s[j] ensures i == j { }
    }
  }

  lemma SpacesExactly(d: Capabilities.Descriptor)
    ensures (forall i :: 0 <= i < |d.spaces| ==> R.ValidSpace(d.spaces[i], d.models)) <==>
            (forall s :: s in d.spaces ==> SpacePresentable(d, s))
  {
    forall s: Capabilities.Space ensures R.ValidSpace(s, d.models) <==> SpacePresentable(d, s) { }
    hide R.ValidSpace, SpacePresentable;
  }

  lemma VisionExactly(d: Capabilities.Descriptor)
    ensures (forall i :: 0 <= i < |d.vision| ==> R.ValidVision(d.vision[i], d.models)) <==>
            (forall v :: v in d.vision ==> VisionPresentable(d, v))
    ensures R.Distinct(R.VisionNames(d.vision)) <==>
            OneVisionEach(d.vision)
  {
    forall v: Capabilities.VisionModel ensures R.ValidVision(v, d.models) <==> VisionPresentable(d, v) { }
    hide R.ValidVision, VisionPresentable;
    DistinctExactly(R.VisionNames(d.vision));
    assert forall i :: 0 <= i < |d.vision| ==> R.VisionNames(d.vision)[i] == d.vision[i].model;
  }

  lemma DecisionsExactly(d: Capabilities.Descriptor)
    ensures (&& (forall i :: 0 <= i < |d.decisions| ==> d.decisions[i].Valid())
             && (forall i :: 0 <= i < |d.decisions| ==> d.decisions[i].model in d.models)) <==>
            (forall m :: m in d.decisions ==> DecisionPresentable(d, m))
    ensures R.Distinct(R.DecisionNames(d.decisions)) <==>
            OneEach(d.decisions)
  {
    forall m: Capabilities.DecisionModel
      ensures m.Valid() && m.model in d.models <==> DecisionPresentable(d, m) { }
    hide DecisionPresentable;
    DistinctExactly(R.DecisionNames(d.decisions));
    assert forall i :: 0 <= i < |d.decisions| ==> R.DecisionNames(d.decisions)[i] == d.decisions[i].model;
  }

  lemma DescriptorsExactly(d: Capabilities.Descriptor)
    ensures R.ValidDescriptor(d) <==> Presentable(d)
  {
    SpacesExactly(d);
    VisionExactly(d);
    DecisionsExactly(d);
    DistinctExactly(d.models);
    DistinctExactly(d.profiles);
    hide R.ValidSpace, R.ValidVision, SpacePresentable, VisionPresentable, DecisionPresentable, R.Distinct, NoRepeats,
      R.VisionNames, R.DecisionNames, R.TextBytes, R.SpaceBytes, R.VisionBytes, R.DecisionBytes;
    ModelsExactly(d.models);
    ProfilesExactly(d.profiles);
  }

  lemma ModelsExactly(models: seq<Bytes>)
    ensures (forall i :: 0 <= i < |models| ==> 0 < |models[i]| <= 8192) <==> forall m :: m in models ==> Sized(m, 8192)
  {
    if forall m :: m in models ==> Sized(m, 8192) {
      forall i | 0 <= i < |models| ensures 0 < |models[i]| <= 8192 { assert Sized(models[i], 8192); }
    }
  }

  lemma ProfilesExactly(profiles: seq<U8>)
    ensures (forall i :: 0 <= i < |profiles| ==> 1 <= profiles[i] <= 5) <==>
            forall p :: p in profiles ==> p in {1, 2, 3, 4, 5}
  {
    if forall p :: p in profiles ==> p in {1, 2, 3, 4, 5} {
      forall i | 0 <= i < |profiles| ensures 1 <= profiles[i] <= 5 { assert profiles[i] in profiles; }
    }
  }

  /** What each operation may say: a registration has slots and presentable capabilities, a result a status and a
      reason, a capacity update slots, and the others nothing. */
  predicate Says(e: R.Envelope) {
    match e.operation
    case 1 => e.slots != 0 && Presentable(e.capabilities) && e.status == 0 && e.reason == []
    case 2 => && (e.status == 200 || 400 <= e.status < 600) && |e.reason| <= 8192
              && e.slots == 0 && e.capabilities == Capabilities.BLANK
    case 5 => e.status == 0 && e.reason == [] && e.capabilities == Capabilities.BLANK
    case _ => && e.operation in {3, 4, 6}
              && e.slots == 0 && e.status == 0 && e.reason == [] && e.capabilities == Capabilities.BLANK
  }

  /** Extensions have their own tags, each once and in order. */
  predicate Extended(x: seq<R.Field>) {
    && (forall f :: f in x ==> f.tag >= 0x8000 && |f.value| <= 65536)
    && forall i, j :: 0 <= i < j < |x| ==> x[i].tag < x[j].tag
  }

  lemma ExtensionsExactly(x: seq<R.Field>)
    ensures R.ValidExtensions(x) <==> Extended(x)
  {
    if R.ValidExtensions(x) {
      forall i, j | 0 <= i < j < |x| ensures x[i].tag < x[j].tag { TagsRise(x, i, j); }
      forall f | f in x ensures f.tag >= 0x8000 {
        var i :| 0 <= i < |x| && x[i] == f;
        if i > 0 { TagsRise(x, 0, i); }
      }
    }
  }

  lemma {:induction false} TagsRise(x: seq<R.Field>, i: nat, j: nat)
    requires R.ValidExtensions(x) && i < j < |x|
    ensures x[i].tag < x[j].tag
  {
    if i < j - 1 { TagsRise(x, i, j - 1); }
    assert x[j - 1].tag < x[j].tag;
  }

  /** A registration envelope is encoded exactly if it says what its operation may say, its extensions are in order
      and its body is at most 65536 bytes long; and a frame decodes to such envelopes only. */
  lemma RegistrationsExactly(e: R.Envelope, data: Bytes)
    ensures R.Encode(e).Some? <==> Says(e) && Extended(e.extensions) && |R.Body(e)| <= 65536
    ensures R.Decode(data).Some? ==> Says(R.Decode(data).value)
  {
    hide R.ValidDescriptor, Presentable, R.Body, Frame, R.ValidExtensions, Extended, R.WholeFrame, R.ParseFields,
      R.TakeAll, R.Ascending, R.Seen, DecodeHeader;
    DescriptorsExactly(e.capabilities);
    ExtensionsExactly(e.extensions);
    if R.Decode(data).Some? { DescriptorsExactly(R.Decode(data).value.capabilities); }
  }

  /** An unsigned frame decodes exactly if it is the encoding of some envelope. */
  lemma RegistrationFramesExactly(data: Bytes)
    requires |data| >= HEADER_SIZE && !DecodeHeader(data).value.Authenticated()
    ensures R.Decode(data).Some? <==> exists e :: R.Encode(e) == Some(data)
  {
    hide R.Encode, R.Decode;
    if R.Decode(data).Some? { R.EncodesBack(data); }
    if exists e :: R.Encode(e) == Some(data) {
      var e :| R.Encode(e) == Some(data);
      R.DecodesBack(e);
    }
  }
}
