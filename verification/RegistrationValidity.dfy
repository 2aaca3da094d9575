/** The validity check of a registration in place: loops that look at every entry, collect names in sets and add up
    the bytes. */
module RegistrationValidity {

  import opened Basics
  import opened Registration
  import Capabilities

  method CountTexts(texts: seq<Bytes>) returns (bytes: nat)
    ensures bytes == TextBytes(texts)
  {
    bytes := 0;
    for i := 0 to |texts|
      invariant bytes + TextBytes(texts[i..]) == TextBytes(texts)
    {
      bytes := bytes + |texts[i]| + 2;
    }
  }

  method CheckSpaces(spaces: seq<Capabilities.Space>, models: seq<Bytes>) returns (ok: bool, bytes: nat)
    ensures ok <==> forall i :: 0 <= i < |spaces| ==> ValidSpace(spaces[i], models)
    ensures ok ==> bytes == SpaceBytes(spaces)
  {
    bytes := 0;
    for i := 0 to |spaces|
      invariant bytes + SpaceBytes(spaces[i..]) == SpaceBytes(spaces)
      invariant forall j :: 0 <= j < i ==> ValidSpace(spaces[j], models)
    {
      var s := spaces[i];
      if s.id == [] || s.model == [] || s.dimensions == 0 || s.dimensions > 65536 || s.normalization > 1 ||
         s.metric < 1 || s.metric > 3 || s.model !in models || |s.id| > 8192 || |s.model| > 8192 || |s.revision| > 8192
      {
        assert !ValidSpace(spaces[i], models);
        return false, 0;
      }
      bytes := bytes + |s.id| + |s.model| + |s.revision| + 12;
    }
    ok := true;
  }

  method CheckLabels(labels: seq<Bytes>) returns (ok: bool, bytes: nat)
    ensures ok <==> forall i :: 0 <= i < |labels| ==> |labels[i]| <= 256
    ensures ok ==> bytes == TextBytes(labels)
  {
    bytes := 0;
    for i := 0 to |labels|
      invariant bytes + TextBytes(labels[i..]) == TextBytes(labels)
      invariant forall j :: 0 <= j < i ==> |labels[j]| <= 256
    {
      if |labels[i]| > 256 { return false, 0; }
      bytes := bytes + |labels[i]| + 2;
    }
    ok := true;
  }

  /** A name is new when inserting it changes the set. */
  lemma NewName(names: seq<Bytes>, seen: set<Bytes>, i: nat)
    requires i < |names| && seen == (set j | 0 <= j < i :: names[j])
    requires forall j, k :: 0 <= j < k < i ==> names[j] != names[k]
    ensures names[i] !in seen ==> forall j, k :: 0 <= j < k < i + 1 ==> names[j] != names[k]
    ensures names[i] in seen ==> !Distinct(names)
    ensures seen + {names[i]} == set j | 0 <= j < i + 1 :: names[j]
  {
  }

  method CheckVision(vision: seq<Capabilities.VisionModel>, models: seq<Bytes>) returns (ok: bool, bytes: nat)
    ensures ok <==> (forall i :: 0 <= i < |vision| ==> ValidVision(vision[i], models)) && Distinct(VisionNames(vision))
    ensures ok ==> bytes == VisionBytes(vision)
  {
    hide TextBytes;
    bytes := 0;
    ghost var all := VisionNames(vision);
    var names: set<Bytes> := {};
    for i := 0 to |vision|
      invariant bytes + VisionBytes(vision[i..]) == VisionBytes(vision)
      invariant forall j :: 0 <= j < i ==> ValidVision(vision[j], models)
      invariant names == (set j | 0 <= j < i :: all[j])
      invariant forall j, k :: 0 <= j < k < i ==> all[j] != all[k]
    {
      var v := vision[i];
      NewName(all, names, i);
      if v.model == [] || |v.model| > 256 || |v.revision| > 256 || v.labelSet == [] || |v.labelSet| > 256 ||
         v.task != 1 || v.maxDetections == 0 || v.maxDetections > 1000 || |v.labels| > 2048 || v.model in names ||
         v.model !in models
      {
        assert !ValidVision(vision[i], models) || v.model in names;
        return false, 0;
      }
      names := names + {v.model};
      var fine, labelBytes := CheckLabels(v.labels);
      if !fine {
        assert !ValidVision(vision[i], models);
        return false, 0;
      }
      bytes := bytes + |v.model| + |v.revision| + |v.labelSet| + 13 + labelBytes;
    }
    ok := true;
  }

  method CheckDecisions(decisions: seq<Capabilities.DecisionModel>, models: seq<Bytes>) returns (ok: bool, bytes: nat)
    ensures ok <==> (forall i :: 0 <= i < |decisions| ==> decisions[i].Valid() && decisions[i].model in models) &&
                    Distinct(DecisionNames(decisions))
    ensures ok ==> bytes == DecisionBytes(decisions)
  {
    bytes := 0;
    ghost var all := DecisionNames(decisions);
    var names: set<Bytes> := {};
    for i := 0 to |decisions|
      invariant bytes + DecisionBytes(decisions[i..]) == DecisionBytes(decisions)
      invariant forall j :: 0 <= j < i ==> decisions[j].Valid() && decisions[j].model in models
      invariant names == (set j | 0 <= j < i :: all[j])
      invariant forall j, k :: 0 <= j < k < i ==> all[j] != all[k]
    {
      var d := decisions[i];
      NewName(all, names, i);
      if d.model == [] || |d.model| > 256 || |d.revision| > 256 || d.decisionType == [] || |d.decisionType| > 256 ||
         d.model in names || d.model !in models
      {
        assert !(decisions[i].Valid() && decisions[i].model in models) || d.model in names;
        return false, 0;
      }
      names := names + {d.model};
      bytes := bytes + |d.model| + |d.revision| + |d.decisionType| + 6;
    }
    ok := true;
  }

  method CheckModels(models: seq<Bytes>) returns (ok: bool)
    ensures ok <==> (forall i :: 0 <= i < |models| ==> 0 < |models[i]| <= 8192) && Distinct(models)
  {
    var names: set<Bytes> := {};
    for i := 0 to |models|
      invariant forall j :: 0 <= j < i ==> 0 < |models[j]| <= 8192
      invariant names == (set j | 0 <= j < i :: models[j])
      invariant forall j, k :: 0 <= j < k < i ==> models[j] != models[k]
    {
      NewName(models, names, i);
      if models[i] == [] || |models[i]| > 8192 || models[i] in names { return false; }
      names := names + {models[i]};
    }
    ok := true;
  }

  method CheckProfiles(profiles: seq<U8>) returns (ok: bool)
    ensures ok <==> (forall i :: 0 <= i < |profiles| ==> 1 <= profiles[i] <= 5) && Distinct(profiles)
  {
    var seen: set<U8> := {};
    for i := 0 to |profiles|
      invariant forall j :: 0 <= j < i ==> 1 <= profiles[j] <= 5
      invariant seen == (set j | 0 <= j < i :: profiles[j])
      invariant forall j, k :: 0 <= j < k < i ==> profiles[j] != profiles[k]
    {
      if profiles[i] < 1 || profiles[i] > 5 || profiles[i] in seen { return false; }
      seen := seen + {profiles[i]};
    }
    ok := true;
  }

  method CheckDescriptor(d: Capabilities.Descriptor) returns (ok: bool)
    ensures ok == ValidDescriptor(d)
  {
    hide ValidSpace, ValidVision, Distinct, TextBytes, SpaceBytes, VisionBytes, DecisionBytes,
      Capabilities.DecisionModel.Valid;
    if d.models == [] || d.profiles == [] { return false; }
    if |d.models| > 2048 || |d.spaces| > 2048 || |d.vision| > 2048 || |d.decisions| > Capabilities.MAX_DECISION_MODELS {
      return false;
    }
    var modelBytes := CountTexts(d.models);
    var spacesOk, spaceBytes := CheckSpaces(d.spaces, d.models);
    if !spacesOk { return false; }
    if (VISION_PROFILE in d.profiles) != (d.vision != []) { return false; }
    var visionOk, visionBytes := CheckVision(d.vision, d.models);
    if !visionOk { return false; }
    if (DECISION_PROFILE in d.profiles) != (d.decisions != []) { return false; }
    var decisionsOk, decisionBytes := CheckDecisions(d.decisions, d.models);
    if !decisionsOk { return false; }
    if 64 + modelBytes + spaceBytes + visionBytes + decisionBytes > MAX_BYTES - 64 { return false; }
    var modelsOk := CheckModels(d.models);
    if !modelsOk { return false; }
    ok := CheckProfiles(d.profiles);
  }

  method CheckEnvelope(e: Envelope) returns (ok: bool)
    ensures ok == Valid(e)
  {
    hide ValidDescriptor;
    if e.operation < 1 || e.operation > 6 || |e.reason| > MAX_REASON { return false; }
    var blank := e.capabilities == Capabilities.BLANK;
    if e.operation == RESULT {
      return (e.status == 200 || 400 <= e.status <= 599) && e.slots == 0 && blank;
    }
    if e.status != 0 || e.reason != [] { return false; }
    if e.operation != REGISTER {
      return blank && (e.operation == CAPACITY_UPDATE || e.slots == 0);
    }
    if e.slots == 0 { return false; }
    ok := CheckDescriptor(e.capabilities);
  }
}
