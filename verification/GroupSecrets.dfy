/** The secrets of a group over a run: which founding secret and which entropy every key comes from, and when two keys
    are the same. */
module GroupSecrets {

  import opened Basics
  import opened Wire
  import opened GroupSecurity
  import opened GroupProvider
  import opened GroupHistory
  import opened GroupRatchets
  import Sha256Standard

  // ---- Where secrets come from -------------------------------------------------------------------------------

  /** A change that made a new epoch: what it was for, the transcript after it and its entropy. */
  datatype Step = Step(purpose: Purpose, transcript: Bytes, entropy: Bytes)

  /** What a leaf secret was made of: the entropy of the founding, the addition or the last rekey of its member. */
  datatype Leaf = Leaf(entropy: Bytes, updated: bool)

  datatype Epochs = Epochs(secret: Bytes, transcript: Bytes, steps: seq<Step>)

  datatype Lineage = Lineage(epochs: Epochs, leaves: map<Endpoint, Leaf>)

  function Founds(op: Op): Lineage
    requires op.CreateGroup?
  {
    Lineage(Epochs(op.secret, InitialTranscript(op.id, op.kind, op.suite, op.coordinator), []),
            map[op.coordinator.endpoint := Leaf(op.secret, false)])
  }

  function Then(x: Epochs, step: Step): Epochs {
    x.(steps := x.steps + [step])
  }

  /** What an operation that left the group with this transcript adds to its lineage. */
  function After(l: Lineage, op: Op, transcript: Bytes): Lineage {
    match op
    case AddMember(_, m, _, entropy, _) =>
      Lineage(Then(l.epochs, Step(AdvanceAdd, transcript, entropy)), l.leaves[m.endpoint := Leaf(entropy, false)])
    case RemoveMember(_, e, entropy) =>
      Lineage(Then(l.epochs, Step(AdvanceRemove, transcript, entropy)), l.leaves - {e})
    case RekeyGroup(_, e, entropy) =>
      Lineage(Then(l.epochs, Step(AdvanceRekey, transcript, entropy)), l.leaves[e := Leaf(entropy, true)])
    case _ => l
  }

  function LineageOf(ops: seq<Op>, id: U64): Option<Lineage> {
    if ops == [] then None
    else
      var before, op := ops[..|ops| - 1], ops[|ops| - 1];
      var p, l := ApplyAll(before), LineageOf(before, id);
      if op.UnprotectMessage? || op.id != id then l
      else if op.CreateGroup? then if Created(p, op).Some? then Some(Founds(op)) else l
      else if id in p.groups && Changed(p.groups[id], op).Some? && l.Some?
      then Some(After(l.value, op, Changed(p.groups[id], op).value.transcript))
      else l
  }

  /** The secret of the last epoch. */
  function SecretOf(x: Epochs): Bytes
    decreases |x.steps|
  {
    if x.steps == [] then Derive(x.secret, InitialEpoch, x.transcript)
    else
      var last := x.steps[|x.steps| - 1];
      Derive(SecretOf(Earlier(x)), last.purpose, last.transcript + last.entropy)
  }

  function Earlier(x: Epochs): Epochs
    requires x.steps != []
  {
    x.(steps := x.steps[..|x.steps| - 1])
  }

  function LeafOf(e: Endpoint, leaf: Leaf): Bytes {
    Derive(leaf.entropy, if leaf.updated then LeafUpdate else LeafSecret, EndpointBytes(e))
  }

  predicate Tells(g: Group, l: Lineage) {
    && g.epochSecret == SecretOf(l.epochs) && g.epoch == |l.epochs.steps| + 1
    && g.leaves.Keys == l.leaves.Keys
    && forall e :: e in g.leaves ==> g.leaves[e] == LeafOf(e, l.leaves[e])
  }

  lemma FoundedTells(p: Provider, op: Op)
    requires op.CreateGroup? && Created(p, op).Some?
    ensures Tells(Created(p, op).value, Founds(op))
  {
    hide Derive, InitialTranscript, EndpointBytes;
  }

  /** What an operation does to the secrets of a group that stays open. */
  lemma SecretsMove(g: Group, op: Op)
    requires !op.UnprotectMessage? && Changed(g, op).Some? && Changed(g, op).value.life != Closed
    ensures var g' := Changed(g, op).value;
            match op
            case AddMember(_, m, _, entropy, _) =>
              && g'.epochSecret == Derive(g.epochSecret, AdvanceAdd, g'.transcript + entropy)
              && g'.epoch == g.epoch + 1
              && g'.leaves == g.leaves[m.endpoint := Derive(entropy, LeafSecret, EndpointBytes(m.endpoint))]
            case RemoveMember(_, e, entropy) =>
              && g'.epochSecret == Derive(g.epochSecret, AdvanceRemove, g'.transcript + entropy)
              && g'.epoch == g.epoch + 1 && g'.leaves == g.leaves - {e}
            case RekeyGroup(_, e, entropy) =>
              && g'.epochSecret == Derive(g.epochSecret, AdvanceRekey, g'.transcript + entropy)
              && g'.epoch == g.epoch + 1 && g'.leaves == g.leaves[e := Derive(entropy, LeafUpdate, EndpointBytes(e))]
            case _ => g'.epochSecret == g.epochSecret && g'.epoch == g.epoch && g'.leaves == g.leaves
  {
    hide Derive, EndpointBytes, NextTranscript, Crypt, Tag, AuthInput, MessageKeyOf, BindingValid, ActiveAt,
      Member.Valid, Sha256Standard.Sha256;
  }

  lemma NextSecret(x: Epochs, step: Step)
    ensures SecretOf(Then(x, step)) == Derive(SecretOf(x), step.purpose, step.transcript + step.entropy)
  {
    hide Derive;
    assert Earlier(Then(x, step)) == x;
  }

  lemma ChangeTells(g: Group, op: Op, l: Lineage)
    requires Tells(g, l) && !op.UnprotectMessage? && Changed(g, op).Some? && Changed(g, op).value.life != Closed
    ensures Tells(Changed(g, op).value, After(l, op, Changed(g, op).value.transcript))
  {
    hide Derive, EndpointBytes, SecretOf, Changed;
    SecretsMove(g, op);
    var transcript := Changed(g, op).value.transcript;
    match op {
      case AddMember(_, _, _, entropy, _) => NextSecret(l.epochs, Step(AdvanceAdd, transcript, entropy));
      case RemoveMember(_, _, entropy) => NextSecret(l.epochs, Step(AdvanceRemove, transcript, entropy));
      case RekeyGroup(_, _, entropy) => NextSecret(l.epochs, Step(AdvanceRekey, transcript, entropy));
      case _ =>
    }
  }

  lemma ClosedForGood(g: Group, op: Op)
    requires !op.UnprotectMessage? && Changed(g, op).Some? && g.life == Closed
    ensures Changed(g, op).value.life == Closed
  {
    hide Derive, EndpointBytes, NextTranscript, Crypt, Tag, AuthInput, MessageKeyOf, BindingValid,
      Sha256Standard.Sha256;
  }

  /** In every run the secrets of a group that is not closed are those of its lineage. */
  lemma {:induction false} SecretsTellLineage(ops: seq<Op>, id: U64)
    requires id in ApplyAll(ops).groups
    ensures LineageOf(ops, id).Some?
    ensures ApplyAll(ops).groups[id].life != Closed ==> Tells(ApplyAll(ops).groups[id], LineageOf(ops, id).value)
  {
    hide Tells, Changed, Created, Unprotected, After, Founds;
    if ops != [] {
      var before, op := ops[..|ops| - 1], ops[|ops| - 1];
      var p := ApplyAll(before);
      if id in p.groups { SecretsTellLineage(before, id); }
      UnprotectLeavesGroups(p, op);
      if !op.UnprotectMessage? && op.id == id {
        if op.CreateGroup? {
          if Created(p, op).Some? { FoundedTells(p, op); }
        } else if id in p.groups && Changed(p.groups[id], op).Some? {
          var g := p.groups[id];
          if g.life == Closed {
            ClosedForGood(g, op);
          } else if Changed(g, op).value.life != Closed {
            ChangeTells(g, op, LineageOf(before, id).value);
          }
        }
      }
    }
  }

  /** Entropy is what the caller gave, and what was drawn only if the caller gave none. */
  lemma EntropyIsGivenOrDrawn(given: Bytes, drawn: Bytes)
    ensures given != [] ==> Entropy(given, drawn) == given
    ensures drawn != [] ==> Entropy(given, drawn) != []
    ensures Entropy([], drawn) == drawn
  {
  }

  // ---- Purposes apart ----------------------------------------------------------------------------------------

  /** Where the names of the purposes differ. */
  lemma PurposeStarts(p: Purpose)
    ensures var b := PurposeBytes(p);
            match p
            case InitialEpoch => |b| == 16 && b[4] == 0x45 && b[5] == 0x50 && b[10] == 0x31
            case LeafSecret => |b| == 22 && b[4] == 0x4D && b[5] == 0x45 && b[6] == 0x4D && b[16] == 0x53
            case LeafUpdate => |b| == 22 && b[4] == 0x4D && b[5] == 0x45 && b[6] == 0x4D && b[16] == 0x55
            case AdvanceAdd => |b| == 21 && b[4] == 0x45 && b[5] == 0x50 && b[10] == 0x41 && b[18] == 0x41
            case AdvanceRemove =>
              |b| == 24 && b[4] == 0x45 && b[5] == 0x50 && b[10] == 0x41 && b[18] == 0x52 && b[20] == 0x4D
            case AdvanceRekey =>
              |b| == 23 && b[4] == 0x45 && b[5] == 0x50 && b[10] == 0x41 && b[18] == 0x52 && b[20] == 0x4B
            case SigningKey => |b| == 22 && b[4] == 0x53
            case MessageKey => |b| == 15 && b[4] == 0x4D && b[5] == 0x45 && b[6] == 0x53
            case Keystream => |b| == 18 && b[4] == 0x45 && b[5] == 0x4E
  {
  }

  lemma PurposesDiffer(p: Purpose, q: Purpose, s: Bytes)
    requires PurposeBytes(p) <= s && PurposeBytes(q) <= s
    ensures p == q
  {
    PurposeStarts(p);
    PurposeStarts(q);
    hide PurposeBytes;
  }

  /** No purpose can be taken for another, whatever follows it. */
  lemma PurposesApart(p: Purpose, context: Bytes, q: Purpose, context': Bytes)
    requires PurposeBytes(p) + context == PurposeBytes(q) + context'
    ensures p == q && context == context'
  {
    hide PurposeBytes;
    var s, t := PurposeBytes(p) + context, PurposeBytes(q) + context';
    PurposesDiffer(p, q, s);
    assert context == s[|PurposeBytes(p)|..] && context' == t[|PurposeBytes(q)|..];
  }

  // ---- Equal keys, equal origins -----------------------------------------------------------------------------

  /** A derivation: the parent key and what is authenticated under it. */
  datatype Input = Input(parent: Bytes, text: Bytes)

  function For(parent: Bytes, purpose: Purpose, context: Bytes): Input {
    Input(parent, PurposeBytes(purpose) + context)
  }

  /** No two of these derivations give the same key. */
  predicate NoTagCollision(inputs: set<Input>) {
    forall x, y :: x in inputs && y in inputs && Tag(x.parent, x.text) == Tag(y.parent, y.text) ==> x == y
  }

  lemma SameDerivation(inputs: set<Input>, parent: Bytes, purpose: Purpose, context: Bytes,
                       parent': Bytes, purpose': Purpose, context': Bytes)
    requires NoTagCollision(inputs)
    requires For(parent, purpose, context) in inputs && For(parent', purpose', context') in inputs
    requires Derive(parent, purpose, context) == Derive(parent', purpose', context')
    ensures parent == parent' && purpose == purpose' && context == context'
  {
    hide PurposeBytes, Tag;
    PurposesApart(purpose, context, purpose', context');
  }

  /** What the secrets of the epochs are derived with. */
  function EpochInputs(x: Epochs): set<Input>
    decreases |x.steps|
  {
    if x.steps == [] then {For(x.secret, InitialEpoch, x.transcript)}
    else
      var last := x.steps[|x.steps| - 1];
      EpochInputs(Earlier(x)) + {For(SecretOf(Earlier(x)), last.purpose, last.transcript + last.entropy)}
  }

  /** Changes are for changes, and every transcript is a digest. */
  predicate EpochsOk(x: Epochs) {
    |x.transcript| == 32 &&
    forall k :: 0 <= k < |x.steps| ==>
      x.steps[k].purpose in {AdvanceAdd, AdvanceRemove, AdvanceRekey} && |x.steps[k].transcript| == 32
  }

  /** Without collisions the secret of an epoch determines the founding secret and everything that led to the epoch. */
  lemma {:induction false} EpochsAgree(x: Epochs, y: Epochs, inputs: set<Input>)
    requires EpochsOk(x) && EpochsOk(y) && SecretOf(x) == SecretOf(y)
    requires NoTagCollision(inputs) && EpochInputs(x) <= inputs && EpochInputs(y) <= inputs
    ensures x == y
    decreases |x.steps|
  {
    hide Derive, PurposeBytes, NoTagCollision, For;
    if x.steps == [] && y.steps == [] {
      SameDerivation(inputs, x.secret, InitialEpoch, x.transcript, y.secret, InitialEpoch, y.transcript);
    } else if x.steps == [] {
      var b := y.steps[|y.steps| - 1];
      SameDerivation(inputs, x.secret, InitialEpoch, x.transcript, SecretOf(Earlier(y)), b.purpose,
                     b.transcript + b.entropy);
    } else if y.steps == [] {
      var a := x.steps[|x.steps| - 1];
      SameDerivation(inputs, SecretOf(Earlier(x)), a.purpose, a.transcript + a.entropy, y.secret, InitialEpoch,
                     y.transcript);
    } else {
      var a, b := x.steps[|x.steps| - 1], y.steps[|y.steps| - 1];
      SameDerivation(inputs, SecretOf(Earlier(x)), a.purpose, a.transcript + a.entropy, SecretOf(Earlier(y)), b.purpose,
                     b.transcript + b.entropy);
      SplitsAt32(a.transcript, a.entropy, b.transcript, b.entropy);
      EpochsAgree(Earlier(x), Earlier(y), inputs);
      assert x.steps == Earlier(x).steps + [a] && y.steps == Earlier(y).steps + [b];
    }
  }

  lemma SplitsAt32(t: Bytes, e: Bytes, t': Bytes, e': Bytes)
    requires |t| == |t'| == 32 && t + e == t' + e'
    ensures t == t' && e == e'
  {
    assert t == (t + e)[..32] && t' == (t' + e')[..32] && e == (t + e)[32..] && e' == (t' + e')[32..];
  }

  lemma DigestSize(text: Bytes)
    ensures |Sha256Standard.Sha256(text)| == 32
  {
  }

  lemma AfterIsOk(g: Group, op: Op, l: Lineage)
    requires EpochsOk(l.epochs) && !op.UnprotectMessage? && Changed(g, op).Some?
    ensures EpochsOk(After(l, op, Changed(g, op).value.transcript).epochs)
  {
    hide Derive, EndpointBytes, Sha256Standard.Sha256, Crypt, Tag, AuthInput, MessageKeyOf, BindingValid, Little;
    forall text: Bytes ensures |Sha256Standard.Sha256(text)| == 32 { DigestSize(text); }
  }

  lemma {:induction false} LineagesAreOk(ops: seq<Op>, id: U64)
    requires LineageOf(ops, id).Some?
    ensures EpochsOk(LineageOf(ops, id).value.epochs)
  {
    hide Changed, Created, After, EpochsOk, Apply, InitialTranscript;
    if ops != [] {
      var before, op := ops[..|ops| - 1], ops[|ops| - 1];
      var p := ApplyAll(before);
      if LineageOf(before, id).Some? { LineagesAreOk(before, id); }
      if !op.UnprotectMessage? && op.id == id {
        if op.CreateGroup? {
          FoundedIsOk(op);
        } else if id in p.groups && Changed(p.groups[id], op).Some? && LineageOf(before, id).Some? {
          AfterIsOk(p.groups[id], op, LineageOf(before, id).value);
        }
      }
    }
  }

  lemma FoundedIsOk(op: Op)
    requires op.CreateGroup?
    ensures EpochsOk(Founds(op).epochs)
  {
    hide Sha256Standard.Sha256, EndpointBytes, Little;
    DigestSize(Little(op.id, 8) + [op.kind] + Little(op.suite, 2) + EndpointBytes(op.coordinator.endpoint) +
               Little(op.coordinator.subject, 8));
  }

  // ---- Message keys and key streams --------------------------------------------------------------------------

  function StreamOf(epochSecret: Bytes, e: Endpoint, generation: U32): Bytes {
    Derive(epochSecret, Keystream, SenderInfo(e, generation))
  }

  /** Everything derived on the way to the key and the key stream of a sender's generation. */
  function KeyInputs(l: Lineage, e: Endpoint, generation: U32): set<Input>
    requires e in l.leaves
  {
    var leaf, secret := l.leaves[e], SecretOf(l.epochs);
    EpochInputs(l.epochs) +
    {For(leaf.entropy, if leaf.updated then LeafUpdate else LeafSecret, EndpointBytes(e)),
     For(LeafOf(e, leaf), SigningKey, secret),
     For(Derive(LeafOf(e, leaf), SigningKey, secret), MessageKey, SenderInfo(e, generation)),
     For(secret, Keystream, SenderInfo(e, generation))}
  }

  /** The key and the key stream that the lineage gives a sender's generation. */
  function KeyFrom(l: Lineage, e: Endpoint, generation: U32): Bytes
    requires e in l.leaves
  {
    MessageKeyOf(LeafOf(e, l.leaves[e]), SecretOf(l.epochs), e, generation)
  }

  function StreamFrom(l: Lineage, e: Endpoint, generation: U32): Bytes {
    StreamOf(SecretOf(l.epochs), e, generation)
  }

  /** Without collisions a message key determines the sender, the generation, all that led to the epoch and the entropy
      of the sender's leaf, a key stream all of these but the leaf, and a key is never a key stream. */
  lemma EqualKeysEqualOrigins(l: Lineage, e: Endpoint, n: U32, l': Lineage, e': Endpoint, n': U32)
    requires EpochsOk(l.epochs) && EpochsOk(l'.epochs) && e in l.leaves && e' in l'.leaves
    requires NoTagCollision(KeyInputs(l, e, n) + KeyInputs(l', e', n'))
    ensures KeyFrom(l, e, n) == KeyFrom(l', e', n') <==>
            e == e' && n == n' && l.epochs == l'.epochs && l.leaves[e] == l'.leaves[e']
    ensures StreamFrom(l, e, n) == StreamFrom(l', e', n') <==> e == e' && n == n' && l.epochs == l'.epochs
    ensures KeyFrom(l, e, n) != StreamFrom(l', e', n')
  {
    hide PurposeBytes, NoTagCollision, For, EpochsOk, SenderInfo, EndpointBytes, EpochInputs, Derive, SecretOf;
    var inputs := KeyInputs(l, e, n) + KeyInputs(l', e', n');
    var s, s' := SecretOf(l.epochs), SecretOf(l'.epochs);
    var leaf, leaf' := LeafOf(e, l.leaves[e]), LeafOf(e', l'.leaves[e']);
    var k, k' := Derive(leaf, SigningKey, s), Derive(leaf', SigningKey, s');
    if KeyFrom(l, e, n) == StreamFrom(l', e', n') {
      SameDerivation(inputs, k, MessageKey, SenderInfo(e, n), s', Keystream, SenderInfo(e', n'));
    }
    if StreamFrom(l, e, n) == StreamFrom(l', e', n') {
      SameDerivation(inputs, s, Keystream, SenderInfo(e, n), s', Keystream, SenderInfo(e', n'));
      InfoIsInjective(e, n, e', n');
      EpochsAgree(l.epochs, l'.epochs, inputs);
    }
    if KeyFrom(l, e, n) == KeyFrom(l', e', n') {
      SameDerivation(inputs, k, MessageKey, SenderInfo(e, n), k', MessageKey, SenderInfo(e', n'));
      InfoIsInjective(e, n, e', n');
      SameDerivation(inputs, leaf, SigningKey, s, leaf', SigningKey, s');
      EpochsAgree(l.epochs, l'.epochs, inputs);
      var a, b := l.leaves[e], l'.leaves[e'];
      SameDerivation(inputs, a.entropy, if a.updated then LeafUpdate else LeafSecret, EndpointBytes(e),
                     b.entropy, if b.updated then LeafUpdate else LeafSecret, EndpointBytes(e'));
    }
  }

  /** The lineage of the group a message was protected in, at that moment. */
  function OriginOf(ops: seq<Op>, i: nat): Option<Lineage>
    requires i < |ops|
  {
    if ops[i].ProtectMessage? then LineageOf(ops[..i], ops[i].id) else None
  }

  /** The tag of every message in a run is made with the key of its group's lineage, and a confidential body with the
      key stream. */
  lemma SentWithItsKeys(ops: seq<Op>, i: nat)
    requires i < |ops| && Sent(ops, i).Some?
    ensures OriginOf(ops, i).Some? && EpochsOk(OriginOf(ops, i).value.epochs)
    ensures var m, l, g := Sent(ops, i).value, OriginOf(ops, i).value, ApplyAll(ops[..i]).groups[ops[i].id];
            && m.sender in l.leaves && m.epoch == |l.epochs.steps| + 1 && Tells(g, l)
            && ActiveAt(g.members, m.sender) < |g.members|
            && m.tag == Tag(KeyFrom(l, m.sender, m.generation),
                            AuthInput(m.group, m.epoch, g.members[ActiveAt(g.members, m.sender)], ops[i].messageClass,
                                      m.number, m.generation, m.body))
            && (m.mode == Confidential ==>
                  m.body == XorStream(ops[i].payload, StreamFrom(l, m.sender, m.generation)))
  {
    hide ApplyAll, LineageOf, Tag, AuthInput, BindingValid, XorStream, SecretOf, LeafOf, Derive, MessageKeyOf, EpochsOk;
    SecretsTellLineage(ops[..i], ops[i].id);
    LineagesAreOk(ops[..i], ops[i].id);
    SentTurns(ops, i);
  }

  function KeyAt(ops: seq<Op>, i: nat): Bytes
    requires i < |ops| && Sent(ops, i).Some? && OriginOf(ops, i).Some?
    requires Sent(ops, i).value.sender in OriginOf(ops, i).value.leaves
  {
    KeyFrom(OriginOf(ops, i).value, Sent(ops, i).value.sender, Sent(ops, i).value.generation)
  }

  function StreamAt(ops: seq<Op>, i: nat): Bytes
    requires i < |ops| && Sent(ops, i).Some? && OriginOf(ops, i).Some?
  {
    StreamFrom(OriginOf(ops, i).value, Sent(ops, i).value.sender, Sent(ops, i).value.generation)
  }

  /** Within an epoch a group that still runs gives the same keys. */
  lemma SameEpochSameKeys(g: Group, l: Lineage, g': Group, l': Lineage, e: Endpoint, generation: U32)
    requires Tells(g, l) && Tells(g', l') && SameEpoch(g, g') && e in l.leaves && e in l'.leaves
    ensures KeyFrom(l, e, generation) == KeyFrom(l', e, generation)
    ensures StreamFrom(l, e, generation) == StreamFrom(l', e, generation)
  {
    hide MessageKeyOf, StreamOf, LeafOf, SecretOf;
  }

  lemma SentInSameEpoch(ops: seq<Op>, i: nat, j: nat)
    requires i < j < |ops| && Sent(ops, i).Some? && Sent(ops, j).Some?
    requires Sent(ops, i).value.group == Sent(ops, j).value.group
    requires Sent(ops, i).value.epoch == Sent(ops, j).value.epoch
    ensures ops[i].ProtectMessage? && ops[j].ProtectMessage? && ops[i].id == ops[j].id == Sent(ops, i).value.group
    ensures ops[i].id in ApplyAll(ops[..i]).groups && ops[j].id in ApplyAll(ops[..j]).groups
    ensures SameEpoch(ApplyAll(ops[..i]).groups[ops[i].id], ApplyAll(ops[..j]).groups[ops[j].id])
  {
    hide ApplyAll, SameEpoch, Turns, RatchetOf, Sent;
    SentTurns(ops, i);
    SentTurns(ops, j);
    assert ops[..j][..i] == ops[..i];
    EpochsPinDownGroups(ops[..j], i, ops[i].id);
  }

  /** Two messages of one sender in one epoch, with the same generation, have the same key and key stream. */
  lemma SameGenerationSameKeys(ops: seq<Op>, i: nat, j: nat, l: Lineage, l': Lineage)
    requires i < j < |ops| && Sent(ops, i).Some? && Sent(ops, j).Some?
    requires OriginOf(ops, i) == Some(l) && OriginOf(ops, j) == Some(l')
    requires var m, m' := Sent(ops, i).value, Sent(ops, j).value;
             && m.group == m'.group && m.epoch == m'.epoch && m.sender == m'.sender && m.generation == m'.generation
             && m.sender in l.leaves && m.sender in l'.leaves
    ensures var m := Sent(ops, i).value;
            && KeyFrom(l, m.sender, m.generation) == KeyFrom(l', m.sender, m.generation)
            && StreamFrom(l, m.sender, m.generation) == StreamFrom(l', m.sender, m.generation)
  {
    hide ApplyAll, Sent, OriginOf, SameEpoch, EpochsOk, KeyFrom, StreamFrom, Tells, ActiveAt, Tag, AuthInput, XorStream,
      Turns, RatchetOf, LineageOf;
    SentInSameEpoch(ops, i, j);
    var m, g, g' := Sent(ops, i).value, ApplyAll(ops[..i]).groups[ops[i].id], ApplyAll(ops[..j]).groups[ops[j].id];
    assert Tells(g, l) by { SentWithItsKeys(ops, i); }
    assert Tells(g', l') by { SentWithItsKeys(ops, j); }
    SameEpochSameKeys(g, l, g', l', m.sender, m.generation);
  }

  predicate OriginKnown(ops: seq<Op>, i: nat, l: Lineage)
    requires i < |ops| && Sent(ops, i).Some?
  {
    var m := Sent(ops, i).value;
    OriginOf(ops, i) == Some(l) && EpochsOk(l.epochs) && m.sender in l.leaves && m.epoch == |l.epochs.steps| + 1
  }

  lemma OriginIsKnown(ops: seq<Op>, i: nat)
    requires i < |ops| && Sent(ops, i).Some?
    ensures OriginOf(ops, i).Some? && OriginKnown(ops, i, OriginOf(ops, i).value)
  {
    hide ApplyAll, Sent, OriginOf, EpochsOk, KeyFrom, StreamFrom, Tells;
    SentWithItsKeys(ops, i);
  }

  /** In the whole life of a group, through all its epochs, two messages share their key or their key stream exactly if
      one sender protected both in one epoch and a multiple of 2^32 turns of its ratchet lies between them; this without
      collisions among the derivations the two messages go back to. */
  lemma KeysRepeatExactly(ops: seq<Op>, i: nat, j: nat)
    requires i < j < |ops| && Sent(ops, i).Some? && Sent(ops, j).Some?
    requires Sent(ops, i).value.group == Sent(ops, j).value.group
    requires OriginOf(ops, i).Some? && OriginOf(ops, j).Some?
    requires var l, l', m, m' := OriginOf(ops, i).value, OriginOf(ops, j).value, Sent(ops, i).value, Sent(ops, j).value;
             m.sender in l.leaves && m'.sender in l'.leaves &&
             NoTagCollision(KeyInputs(l, m.sender, m.generation) + KeyInputs(l', m'.sender, m'.generation))
    ensures var m, m' := Sent(ops, i).value, Sent(ops, j).value;
            var repeats := && m.epoch == m'.epoch && m.sender == m'.sender
                           && TurnsBetween(ops, i, j, m.group, m.sender) % TWO_32 == 0;
            && (KeyAt(ops, i) == KeyAt(ops, j) <==> repeats) && (StreamAt(ops, i) == StreamAt(ops, j) <==> repeats)
            && KeyAt(ops, i) != StreamAt(ops, j) && StreamAt(ops, i) != KeyAt(ops, j)
  {
    hide ApplyAll, Sent, OriginOf, KeyInputs, NoTagCollision, TurnsBetween, EpochsOk, KeyFrom, StreamFrom;
    OriginIsKnown(ops, i);
    OriginIsKnown(ops, j);
    var l, l', m, m' := OriginOf(ops, i).value, OriginOf(ops, j).value, Sent(ops, i).value, Sent(ops, j).value;
    EqualKeysEqualOrigins(l, m.sender, m.generation, l', m'.sender, m'.generation);
    Swapped(KeyInputs(l, m.sender, m.generation), KeyInputs(l', m'.sender, m'.generation));
    EqualKeysEqualOrigins(l', m'.sender, m'.generation, l, m.sender, m.generation);
    if m.epoch == m'.epoch && m.sender == m'.sender {
      GenerationsRepeatExactly(ops, i, j);
      if m.generation == m'.generation { SameGenerationSameKeys(ops, i, j, l, l'); }
    }
  }

  lemma Swapped(a: set<Input>, b: set<Input>)
    ensures NoTagCollision(a + b) ==> NoTagCollision(b + a)
  {
    hide Tag;
    assert a + b == b + a;
  }
}
