/** Execution groups: members, epochs and leaf secrets, and messages protected with keys derived from them. */
module GroupSecurity {

  import opened Basics
  import opened Wire
  import W = ReplayWindow
  import Sha256Standard

  // ---- State -------------------------------------------------------------------------------------------------

  datatype Endpoint = Endpoint(node: U64, runtime: U64, endpoint: U32)

  datatype Standing = NoStanding | ActiveMember | SuspendedMember | RemovedMember | QuarantinedMember

  const NO_ROLE: U8 := 0
  const COORDINATOR: U8 := 1

  datatype Member = Member(endpoint: Endpoint, trustDomain: U32, subject: U64, role: U8, standing: Standing,
                           joinedEpoch: nat, addedAt: U64, publicKey: Bytes)
  {
    predicate Valid() {
      && endpoint.node != 0 && endpoint.runtime != 0 && endpoint.endpoint != 0 && trustDomain != 0 && subject != 0
      && role != NO_ROLE && standing != NoStanding
    }

    predicate Active() { standing == ActiveMember }
  }

  datatype Life = Running | Suspended | Closed

  /** Epochs do not wrap. */
  datatype Group = Group(epoch: nat, life: Life, members: seq<Member>, epochSecret: Bytes, leaves: map<Endpoint, Bytes>,
                         ratchets: map<Endpoint, U32>, transcript: Bytes, stateHash: Bytes)

  // ---- Derivation --------------------------------------------------------------------------------------------

  datatype Purpose = InitialEpoch | LeafSecret | LeafUpdate | AdvanceAdd | AdvanceRemove | AdvanceRekey | SigningKey |
                   MessageKey | Keystream

  function Ascii(s: string): Bytes {
    seq(|s|, (i: nat) requires i < |s| => (s[i] as nat) % 256)
  }

  function PurposeBytes(l: Purpose): Bytes {
    match l
    case InitialEpoch => Ascii("MLS_EPOCH_1_INIT")
    case LeafSecret => Ascii("MLS_MEMBER_LEAF_SECRET")
    case LeafUpdate => Ascii("MLS_MEMBER_LEAF_UPDATE")
    case AdvanceAdd => Ascii("MLS_EPOCH_ADVANCE_ADD")
    case AdvanceRemove => Ascii("MLS_EPOCH_ADVANCE_REMOVE")
    case AdvanceRekey => Ascii("MLS_EPOCH_ADVANCE_REKEY")
    case SigningKey => Ascii("MLS_SENDER_SIGNING_KEY")
    case MessageKey => Ascii("MLS_MESSAGE_KEY")
    case Keystream => Ascii("MLS_ENCRYPT_STREAM")
  }

  /** HMAC-SHA-256 cut to 16 bytes. */
  function Tag(key: Bytes, input: Bytes): (t: Bytes)
    ensures |t| == 16
  {
    Sha256Standard.Hmac(key, input)[..16]
  }

  function Derive(parent: Bytes, purpose: Purpose, context: Bytes): (key: Bytes)
    ensures |key| == 16
  {
    Tag(parent, PurposeBytes(purpose) + context)
  }

  function EndpointBytes(e: Endpoint): Bytes {
    Little(e.node, 8) + Little(e.runtime, 8) + Little(e.endpoint, 4)
  }

  lemma EndpointSplits(e: Endpoint)
    ensures |EndpointBytes(e)| == 20 && EndpointBytes(e)[..8] == Little(e.node, 8)
    ensures EndpointBytes(e)[8..16] == Little(e.runtime, 8) && EndpointBytes(e)[16..] == Little(e.endpoint, 4)
  {
    hide Little;
  }

  lemma EndpointsApart(e: Endpoint, e': Endpoint)
    requires EndpointBytes(e) == EndpointBytes(e')
    ensures e == e'
  {
    Powers();
    EndpointSplits(e);
    EndpointSplits(e');
    hide Power256, Little, EndpointBytes;
    LittleRoundTrip(e.node, 8);
    LittleRoundTrip(e'.node, 8);
    LittleRoundTrip(e.runtime, 8);
    LittleRoundTrip(e'.runtime, 8);
    LittleRoundTrip(e.endpoint, 4);
    LittleRoundTrip(e'.endpoint, 4);
  }

  datatype Change = Adds(member: Member) | Removes(removed: Endpoint) | Rekeys(updater: Endpoint)

  /** The public transcript after a change that leads to the given epoch. */
  function NextTranscript(previous: Bytes, change: Change, epoch: nat): Bytes {
    Sha256Standard.Sha256(previous + match change
      case Adds(m) => [2] + Little(epoch, 8) + EndpointBytes(m.endpoint) + Little(m.subject, 8) + [m.role]
      case Removes(e) => [3] + Little(epoch, 8) + EndpointBytes(e)
      case Rekeys(e) => [5] + Little(epoch, 8) + EndpointBytes(e))
  }

  /** Entropy comes from the caller or, if the caller gives none, from the system. */
  function Entropy(given: Bytes, drawn: Bytes): Bytes {
    if given == [] then drawn else given
  }

  // ---- Membership --------------------------------------------------------------------------------------------

  predicate IsActive(g: Group, e: Endpoint) {
    exists i :: 0 <= i < |g.members| && g.members[i].endpoint == e && g.members[i].Active()
  }

  /** Where the active entry of an endpoint is, or the number of members. */
  function ActiveAt(members: seq<Member>, e: Endpoint): (i: nat)
    ensures i <= |members|
    ensures i < |members| ==> members[i].endpoint == e && members[i].Active()
    ensures forall j :: 0 <= j < i ==> !(members[j].endpoint == e && members[j].Active())
  {
    if members == [] then 0
    else if members[0].endpoint == e && members[0].Active() then 0
    else
      var i := ActiveAt(members[1..], e);
      assert forall j :: 0 < j < i + 1 ==> members[j] == members[1..][j - 1];
      i + 1
  }

  /** Where the first entry of an endpoint is, whatever its standing, or the number of members. */
  function FirstAt(members: seq<Member>, e: Endpoint): (i: nat)
    ensures i <= |members|
    ensures i < |members| ==> members[i].endpoint == e
    ensures forall j :: 0 <= j < i ==> members[j].endpoint != e
  {
    if members == [] then 0
    else if members[0].endpoint == e then 0
    else
      var i := FirstAt(members[1..], e);
      assert forall j :: 0 < j < i + 1 ==> members[j] == members[1..][j - 1];
      i + 1
  }

  function Create(coordinator: Member, secret: Bytes, transcript: Bytes, now: U64): Option<Group> {
    if !coordinator.Valid() || !coordinator.Active() || coordinator.role != COORDINATOR then None
    else Some(Group(1, Running, [coordinator.(joinedEpoch := 1, addedAt := now)],
                    Derive(secret, InitialEpoch, transcript),
                    map[coordinator.endpoint := Derive(secret, LeafSecret, EndpointBytes(coordinator.endpoint))],
                    map[coordinator.endpoint := 0], transcript, transcript))
  }

  function Advance(g: Group, change: Change, purpose: Purpose, entropy: Bytes): Group {
    var transcript := NextTranscript(g.transcript, change, g.epoch + 1);
    g.(epoch := g.epoch + 1, transcript := transcript, stateHash := transcript,
       epochSecret := Derive(g.epochSecret, purpose, transcript + entropy))
  }

  function Add(g: Group, m: Member, publicKey: Bytes, entropy: Bytes, now: U64): Option<Group> {
    if g.life != Running || !m.Valid() || ActiveAt(g.members, m.endpoint) < |g.members| then None
    else
      Some(Advance(g, Adds(m), AdvanceAdd, entropy).(
        members := g.members +
          [m.(standing := ActiveMember, joinedEpoch := g.epoch + 1, addedAt := now, publicKey := publicKey)],
        leaves := g.leaves[m.endpoint := Derive(entropy, LeafSecret, EndpointBytes(m.endpoint))],
        ratchets := g.ratchets[m.endpoint := 0]))
  }

  function Remove(g: Group, e: Endpoint, entropy: Bytes): Option<Group> {
    var i := ActiveAt(g.members, e);
    if g.life != Running || i == |g.members| then None
    else
      Some(Advance(g, Removes(e), AdvanceRemove, entropy).(
        members := g.members[i := g.members[i].(standing := RemovedMember)],
        leaves := g.leaves - {e}, ratchets := g.ratchets - {e}))
  }

  function UpdateRole(g: Group, e: Endpoint, role: U8): Option<Group> {
    var i := ActiveAt(g.members, e);
    if g.life != Running || role == NO_ROLE || i == |g.members| then None
    else
      Some(g.(members := g.members[i := g.members[i].(role := role)],
              stateHash := Sha256Standard.Sha256(g.stateHash + [4] + Little(g.epoch, 8) + EndpointBytes(e) + [role])))
  }

  function Rekey(g: Group, e: Endpoint, entropy: Bytes): Option<Group> {
    if g.life != Running || ActiveAt(g.members, e) == |g.members| then None
    else
      Some(Advance(g, Rekeys(e), AdvanceRekey, entropy).(
        leaves := g.leaves[e := Derive(entropy, LeafUpdate, EndpointBytes(e))]))
  }

  function Close(g: Group): Option<Group> {
    if g.life == Closed then None
    else Some(g.(life := Closed, epochSecret := Sha256Standard.Zeros(|g.epochSecret|), leaves := map[],
                 ratchets := map[]))
  }

  // ---- What membership keeps ---------------------------------------------------------------------------------

  /** In a running group each active endpoint is listed as active once, and it, and only it, has a leaf secret
      and a ratchet. */
  ghost predicate GroupOk(g: Group) {
    g.epoch >= 1 && MembersOk(g.members) && (g.life == Running ==> SecretsOk(g))
  }

  ghost predicate MembersOk(members: seq<Member>) {
    && (forall i :: 0 <= i < |members| ==> members[i].Valid())
    && (forall i, j :: 0 <= i < j < |members| && members[i].Active() && members[j].Active() ==>
          members[i].endpoint != members[j].endpoint)
  }

  ghost predicate SecretsOk(g: Group) {
    && |g.epochSecret| == 16
    && (forall e :: e in g.leaves <==> IsActive(g, e)) && (forall e :: e in g.leaves ==> |g.leaves[e]| == 16)
    && (forall e :: e in g.ratchets <==> IsActive(g, e))
  }

  lemma CreatedOk(coordinator: Member, secret: Bytes, transcript: Bytes, now: U64)
    ensures var g := Create(coordinator, secret, transcript, now); g.Some? ==> GroupOk(g.value) && g.value.epoch == 1
  {
    hide Derive, EndpointBytes;
    var g := Create(coordinator, secret, transcript, now);
    if g.Some? { assert g.value.members[0].endpoint == coordinator.endpoint; }
  }

  lemma ActiveMeansActive(g: Group, e: Endpoint)
    ensures IsActive(g, e) <==> ActiveAt(g.members, e) < |g.members|
  {
  }

  lemma AddedOk(g: Group, m: Member, publicKey: Bytes, entropy: Bytes, now: U64)
    requires GroupOk(g) && Add(g, m, publicKey, entropy, now).Some?
    ensures var g' := Add(g, m, publicKey, entropy, now).value;
            GroupOk(g') && g'.epoch == g.epoch + 1 && IsActive(g', m.endpoint)
  {
    hide Derive, EndpointBytes, NextTranscript;
    var g' := Add(g, m, publicKey, entropy, now).value;
    assert forall i :: 0 <= i < |g.members| ==> g'.members[i] == g.members[i];
    assert g'.members[|g.members|].endpoint == m.endpoint;
    forall e ensures IsActive(g', e) <==> IsActive(g, e) || e == m.endpoint {
      if IsActive(g, e) {
        var i :| 0 <= i < |g.members| && g.members[i].endpoint == e && g.members[i].Active();
        assert g'.members[i].endpoint == e;
      }
    }
  }

  /** Marking the active entry of an endpoint as removed takes it, and only it, out of the active ones. */
  lemma RemovalDeactivates(g: Group, e: Endpoint, members: seq<Member>, x: Endpoint)
    requires MembersOk(g.members)
    requires var at := ActiveAt(g.members, e);
             at < |g.members| && members == g.members[at := g.members[at].(standing := RemovedMember)]
    ensures IsActive(g.(members := members), x) <==> IsActive(g, x) && x != e
  {
    var g' := g.(members := members);
    if IsActive(g, x) && x != e {
      var i :| 0 <= i < |g.members| && g.members[i].endpoint == x && g.members[i].Active();
      assert g'.members[i] == g.members[i];
    }
    if IsActive(g', x) {
      var i :| 0 <= i < |g'.members| && g'.members[i].endpoint == x && g'.members[i].Active();
      assert g.members[i] == g'.members[i];
    }
  }

  lemma RemovedOk(g: Group, e: Endpoint, entropy: Bytes)
    requires GroupOk(g) && Remove(g, e, entropy).Some?
    ensures var g' := Remove(g, e, entropy).value;
            GroupOk(g') && g'.epoch == g.epoch + 1 && !IsActive(g', e) && e !in g'.leaves
  {
    hide Derive, EndpointBytes, NextTranscript;
    var g' := Remove(g, e, entropy).value;
    forall x ensures IsActive(g', x) <==> IsActive(g, x) && x != e { RemovalDeactivates(g, e, g'.members, x); }
    hide IsActive;
    assert MembersOk(g'.members) by { MarkingKeepsMembers(g.members, ActiveAt(g.members, e)); }
  }

  lemma MarkingKeepsMembers(members: seq<Member>, at: nat)
    requires MembersOk(members) && at < |members|
    ensures MembersOk(members[at := members[at].(standing := RemovedMember)])
  {
  }

  lemma RoleUpdatedOk(g: Group, e: Endpoint, role: U8)
    requires GroupOk(g) && UpdateRole(g, e, role).Some?
    ensures GroupOk(UpdateRole(g, e, role).value) && UpdateRole(g, e, role).value.epoch == g.epoch
  {
    hide Derive, EndpointBytes, Sha256Standard.Sha256;
    var g' := UpdateRole(g, e, role).value;
    var at := ActiveAt(g.members, e);
    assert forall i :: 0 <= i < |g.members| ==>
      g'.members[i].endpoint == g.members[i].endpoint && g'.members[i].standing == g.members[i].standing;
    forall x ensures IsActive(g', x) <==> IsActive(g, x) {
      if IsActive(g, x) {
        var i :| 0 <= i < |g.members| && g.members[i].endpoint == x && g.members[i].Active();
        assert g'.members[i].endpoint == x && g'.members[i].Active();
      }
    }
  }

  lemma RekeyedOk(g: Group, e: Endpoint, entropy: Bytes)
    requires GroupOk(g) && Rekey(g, e, entropy).Some?
    ensures GroupOk(Rekey(g, e, entropy).value) && Rekey(g, e, entropy).value.epoch == g.epoch + 1
  {
    hide Derive, EndpointBytes, NextTranscript;
    var g' := Rekey(g, e, entropy).value;
    assert g'.members == g.members;
    forall x ensures IsActive(g', x) <==> IsActive(g, x) { }
  }

  lemma ClosedOk(g: Group)
    requires GroupOk(g) && Close(g).Some?
    ensures GroupOk(Close(g).value) && Close(g).value.epoch == g.epoch && Close(g).value.life == Closed
    ensures Close(g).value.leaves == map[] && Close(g).value.ratchets == map[]
    ensures |Close(g).value.epochSecret| == |g.epochSecret|
    ensures forall i :: 0 <= i < |g.epochSecret| ==> Close(g).value.epochSecret[i] == 0
  {
  }

  // ---- Messages ----------------------------------------------------------------------------------------------

  datatype Mode = NoMode | AuthenticatedOnly | Confidential

  datatype Message = Message(group: U64, epoch: nat, mode: Mode, sender: Endpoint, number: U64, generation: U32,
                             body: Bytes, tag: Bytes)

  function SenderInfo(e: Endpoint, generation: U32): Bytes {
    EndpointBytes(e) + Little(generation, 4)
  }

  function MessageKeyOf(leaf: Bytes, epochSecret: Bytes, e: Endpoint, generation: U32): Bytes {
    Derive(Derive(leaf, SigningKey, epochSecret), MessageKey, SenderInfo(e, generation))
  }

  function XorStream(text: Bytes, stream: Bytes): (r: Bytes)
    requires stream != []
    ensures |r| == |text|
    ensures forall i :: 0 <= i < |text| ==> r[i] == Sha256Standard.XorByte(text[i], stream[i % |stream|])
  {
    seq(|text|, (i: nat) requires i < |text| => Sha256Standard.XorByte(text[i], stream[i % |stream|]))
  }

  /** Encryption and decryption are the same. */
  function Crypt(epochSecret: Bytes, mode: Mode, e: Endpoint, generation: U32, text: Bytes): Bytes {
    if mode == Confidential then XorStream(text, Derive(epochSecret, Keystream, SenderInfo(e, generation))) else text
  }

  const SHA256_DIGEST: U8 := 1

  /** "LNS2GRP", a zero, and version 0.2 */
  const HEADER: Bytes := [0x4C, 0x4E, 0x53, 0x32, 0x47, 0x52, 0x50, 0, 0, 2]

  function AuthShape(): Shape {
    Then(Raw(10), Then(Word(8), Then(Word(8), Then(Then(Word(8), Then(Word(8), Word(4))), Then(Word(4), Then(Word(8),
    Then(Word(1), Then(Word(1), Then(Word(8), Then(Word(4), Text(2)))))))))))
  }

  function AuthTree(group: U64, epoch: nat, m: Member, kind: U8, number: U64, generation: U32, digest: Bytes): Tree {
    Pair(Blob(HEADER), Pair(Number(group), Pair(Number(epoch),
    Pair(Pair(Number(m.endpoint.node), Pair(Number(m.endpoint.runtime), Number(m.endpoint.endpoint))),
    Pair(Number(m.trustDomain), Pair(Number(m.subject), Pair(Number(kind), Pair(Number(SHA256_DIGEST),
    Pair(Number(number), Pair(Number(generation), Blob(digest)))))))))))
  }

  /** What the tag of a message covers; of its body, the digest. */
  function AuthInput(group: U64, epoch: nat, m: Member, kind: U8, number: U64, generation: U32, body: Bytes): Bytes {
    Write(AuthShape(), AuthTree(group, epoch, m, kind, number, generation, Sha256Standard.Sha256(body)))
  }

  lemma AuthTreeFits(group: U64, epoch: nat, m: Member, kind: U8, number: U64, generation: U32, digest: Bytes)
    requires epoch < 0x1_0000_0000_0000_0000 && |digest| == 32
    ensures Fits(AuthShape(), AuthTree(group, epoch, m, kind, number, generation, digest))
  {
    Powers();
    hide Power256;
  }

  /** Two messages with the same tag input agree in group, epoch, sender, trust domain, subject, class, number,
      generation and the digest of their bodies: nothing can be moved from one field to the next. */
  lemma AuthInputIsInjective(group: U64, epoch: nat, m: Member, kind: U8, number: U64, generation: U32, body: Bytes,
                             group': U64, epoch': nat, m': Member, kind': U8, number': U64, generation': U32,
                             body': Bytes)
    requires epoch < 0x1_0000_0000_0000_0000 && epoch' < 0x1_0000_0000_0000_0000
    requires AuthInput(group, epoch, m, kind, number, generation, body) ==
             AuthInput(group', epoch', m', kind', number', generation', body')
    ensures group == group' && epoch == epoch' && m.endpoint == m'.endpoint && m.trustDomain == m'.trustDomain
    ensures m.subject == m'.subject && kind == kind' && number == number' && generation == generation'
    ensures Sha256Standard.Sha256(body) == Sha256Standard.Sha256(body')
  {
    hide AuthShape, Write, Sha256Standard.Sha256;
    var digest, digest' := Sha256Standard.Sha256(body), Sha256Standard.Sha256(body');
    AuthTreeFits(group, epoch, m, kind, number, generation, digest);
    AuthTreeFits(group', epoch', m', kind', number', generation', digest');
    WritesApart(AuthShape(), AuthTree(group, epoch, m, kind, number, generation, digest),
                AuthTree(group', epoch', m', kind', number', generation', digest'), [], []);
  }

  predicate BindingValid(group: U64, epoch: nat, m: Member, kind: U8, number: U64) {
    && group != 0 && epoch != 0 && m.endpoint.node != 0 && m.endpoint.runtime != 0 && m.endpoint.endpoint != 0
    && m.trustDomain != 0 && m.subject != 0 && kind != 0 && number != 0
  }

  /** The ratchet moves on as soon as the sender is found, even if the message then turns out invalid. */
  function Protect(g: Group, group: U64, e: Endpoint, mode: Mode, kind: U8, payload: Bytes, number: U64):
    (Group, Option<Message>)
  {
    var i := ActiveAt(g.members, e);
    if g.life != Running || number == 0 || mode == NoMode || i == |g.members| || e !in g.leaves then (g, None)
    else
      var last: nat := if e in g.ratchets then g.ratchets[e] else 0;
      var generation: U32 := (last + 1) % 0x1_0000_0000;
      var g' := g.(ratchets := g.ratchets[e := generation]);
      if !BindingValid(group, g.epoch, g.members[i], kind, number) then (g', None)
      else
        var body := Crypt(g.epochSecret, mode, e, generation, payload);
        var tag := Tag(MessageKeyOf(g.leaves[e], g.epochSecret, e, generation),
                       AuthInput(group, g.epoch, g.members[i], kind, number, generation, body));
        (g', Some(Message(group, g.epoch, mode, e, number, generation, body, tag)))
  }

  datatype Verdict = Ok | GroupNotFound | GroupInactive | StaleEpoch | FutureEpoch | MemberNotFound | MemberNotActive |
                     SignatureInvalid | ReplayRejected | BindingInvalid | ImpersonationDetected

  /** What the checks up to the replay window say. */
  function Screen(g: Group, m: Message): Verdict {
    if g.life != Running then GroupInactive
    else if m.epoch < g.epoch then StaleEpoch
    else if m.epoch > g.epoch then FutureEpoch
    else
      var i := FirstAt(g.members, m.sender);
      if i == |g.members| then MemberNotFound
      else if !g.members[i].Active() then MemberNotActive
      else if m.sender !in g.leaves then ImpersonationDetected
      else Ok
  }

  /** And the rest: window after the call, verdict and payload. */
  function Open(g: Group, w: W.Window, m: Message, kind: U8): (W.Window, Verdict, Bytes)
    requires Screen(g, m) == Ok
  {
    var sender := g.members[FirstAt(g.members, m.sender)];
    if W.Check(w, m.number) != W.Accepted then (w, ReplayRejected, [])
    else if !BindingValid(m.group, m.epoch, sender, kind, m.number) then (w, BindingInvalid, [])
    else if m.tag != Tag(MessageKeyOf(g.leaves[m.sender], g.epochSecret, m.sender, m.generation),
                         AuthInput(m.group, m.epoch, sender, kind, m.number, m.generation, m.body))
    then (w, SignatureInvalid, [])
    else (W.Update(w, m.number).0, Ok, Crypt(g.epochSecret, m.mode, m.sender, m.generation, m.body))
  }

  lemma CryptTwice(epochSecret: Bytes, mode: Mode, e: Endpoint, generation: U32, text: Bytes)
    ensures Crypt(epochSecret, mode, e, generation, Crypt(epochSecret, mode, e, generation, text)) == text
  {
    hide Derive, SenderInfo, Sha256Standard.XorByte;
    if mode == Confidential {
      var stream := Derive(epochSecret, Keystream, SenderInfo(e, generation));
      forall i | 0 <= i < |text| ensures XorStream(XorStream(text, stream), stream)[i] == text[i] {
        Sha256Standard.XorTwice(text[i], stream[i % |stream|]);
      }
      assert XorStream(XorStream(text, stream), stream) == text;
    }
  }

  /** The first entry an endpoint ever got is still the active one: it was never removed and added again. */
  predicate NeverReadded(g: Group, e: Endpoint) {
    var i := FirstAt(g.members, e);
    i < |g.members| && g.members[i].Active()
  }

  lemma FirstIsActive(g: Group, e: Endpoint)
    requires NeverReadded(g, e)
    ensures ActiveAt(g.members, e) == FirstAt(g.members, e)
  {
  }

  /** The same group in the same epoch: message ratchets and roles may have changed. */
  predicate SameEpoch(g: Group, later: Group) {
    && later.epoch == g.epoch && later.life == g.life && later.epochSecret == g.epochSecret && later.leaves == g.leaves
    && |later.members| == |g.members|
    && forall i :: 0 <= i < |g.members| ==> later.members[i] == g.members[i].(role := later.members[i].role)
  }

  lemma {:induction false} SamePlaces(members: seq<Member>, later: seq<Member>, e: Endpoint)
    requires |later| == |members|
    requires forall i :: 0 <= i < |members| ==> later[i] == members[i].(role := later[i].role)
    ensures FirstAt(later, e) == FirstAt(members, e) && ActiveAt(later, e) == ActiveAt(members, e)
  {
    if members != [] { SamePlaces(members[1..], later[1..], e); }
  }

  /** A message protected by an active member opens to its payload for the whole epoch exactly when the member was
      never removed and added again, and its number is new to the window. */
  lemma ProtectedMessageOpens(g: Group, group: U64, e: Endpoint, mode: Mode, kind: U8, payload: Bytes, number: U64,
                              later: Group, w: W.Window)
    requires GroupOk(g) && Protect(g, group, e, mode, kind, payload, number).1.Some?
    requires SameEpoch(g, later)
    ensures var m := Protect(g, group, e, mode, kind, payload, number).1.value;
            && (Screen(later, m) == Ok <==> NeverReadded(g, e))
            && (!NeverReadded(g, e) ==> Screen(later, m) == MemberNotActive)
            && (Screen(later, m) == Ok ==>
                  && (Open(later, w, m, kind).1 == Ok <==> W.Check(w, number) == W.Accepted)
                  && (Open(later, w, m, kind).1 == Ok ==> Open(later, w, m, kind).2 == payload))
  {
    hide Crypt, Tag, MessageKeyOf, W.Check, W.Update, GroupOk, Sha256Standard.Sha256, EndpointBytes, Little;
    var m := Protect(g, group, e, mode, kind, payload, number).1.value;
    CryptTwice(g.epochSecret, mode, e, m.generation, payload);
    SamePlaces(g.members, later.members, e);
    if NeverReadded(g, e) { FirstIsActive(g, e); }
  }

  /** The tag does not cover the mode: under another mode a message is judged the same, and opens to what that mode
      makes of its body. */
  lemma ModeIsNotCovered(g: Group, w: W.Window, m: Message, mode: Mode, kind: U8)
    ensures Screen(g, m.(mode := mode)) == Screen(g, m)
    ensures Screen(g, m) == Ok ==>
              && Open(g, w, m.(mode := mode), kind).1 == Open(g, w, m, kind).1
              && (Open(g, w, m, kind).1 == Ok ==>
                    Open(g, w, m.(mode := mode), kind).2 == Crypt(g.epochSecret, mode, m.sender, m.generation, m.body))
  {
    hide Crypt, Tag, AuthInput, MessageKeyOf, BindingValid, W.Check, W.Update;
  }

  /** What a body opens to under some mode is what was protected under some mode exactly when both modes encrypt or
      neither does, or encryption leaves the payload as it is. */
  lemma OpensToItsPayloadExactly(epochSecret: Bytes, mode: Mode, mode': Mode, e: Endpoint, generation: U32,
                                 payload: Bytes)
    ensures var body := Crypt(epochSecret, mode, e, generation, payload);
            Crypt(epochSecret, mode', e, generation, body) == payload <==>
            ((mode == Confidential) == (mode' == Confidential) ||
             Crypt(epochSecret, Confidential, e, generation, payload) == payload)
  {
    hide XorStream, Derive, SenderInfo;
    CryptTwice(epochSecret, mode, e, generation, payload);
    CryptTwice(epochSecret, Confidential, e, generation, payload);
  }

  /** A member that was removed and added again is active and protects messages of every kind, and none of them
      opens. */
  lemma ReaddedMembersAreNotHeard(g: Group, e: Endpoint, entropy: Bytes, m: Member, publicKey: Bytes, fresh1: Bytes,
                                  now: U64, group: U64, mode: Mode, kind: U8, payload: Bytes, number: U64)
    requires GroupOk(g) && Remove(g, e, entropy).Some? && m.endpoint == e
    requires Add(Remove(g, e, entropy).value, m, publicKey, fresh1, now).Some?
    requires group != 0 && mode != NoMode && kind != 0 && number != 0
    ensures var g' := Add(Remove(g, e, entropy).value, m, publicKey, fresh1, now).value;
            var (g2, sent) := Protect(g', group, e, mode, kind, payload, number);
            IsActive(g', e) && !NeverReadded(g', e) && sent.Some? && Screen(g2, sent.value) == MemberNotActive
  {
    hide Derive, EndpointBytes, NextTranscript, Crypt, Tag, AuthInput, MessageKeyOf;
    var removed := Remove(g, e, entropy).value;
    RemovedOk(g, e, entropy);
    var g' := Add(removed, m, publicKey, fresh1, now).value;
    AddedOk(removed, m, publicKey, fresh1, now);
    var at := ActiveAt(g.members, e);
    assert removed.members[at].endpoint == e;
    FirstStays(removed.members, g'.members, e);
    ActiveMeansActive(removed, e);
    ActiveMembersProtect(g', group, e, mode, kind, payload, number);
    ProtectedMessageOpens(g', group, e, mode, kind, payload, number,
                          Protect(g', group, e, mode, kind, payload, number).0, W.EMPTY);
  }

  /** An active member of a running group gets its message, and the group stays the same but for the ratchet. */
  lemma ActiveMembersProtect(g: Group, group: U64, e: Endpoint, mode: Mode, kind: U8, payload: Bytes, number: U64)
    requires GroupOk(g) && g.life == Running && IsActive(g, e)
    requires group != 0 && mode != NoMode && kind != 0 && number != 0
    ensures Protect(g, group, e, mode, kind, payload, number).1.Some?
    ensures SameEpoch(g, Protect(g, group, e, mode, kind, payload, number).0)
  {
    hide Crypt, Tag, AuthInput, MessageKeyOf;
    ActiveMeansActive(g, e);
    assert g.members[ActiveAt(g.members, e)].Valid();
  }

  lemma FirstStays(members: seq<Member>, longer: seq<Member>, e: Endpoint)
    requires members <= longer && exists i :: 0 <= i < |members| && members[i].endpoint == e
    ensures FirstAt(longer, e) == FirstAt(members, e) < |members|
  {
    assert forall i :: 0 <= i < |members| ==> longer[i] == members[i];
  }
}
