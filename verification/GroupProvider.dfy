/** The provider that keeps all groups and, per group, epoch and sender, a replay window. */
module GroupProvider {

  import opened Basics
  import opened Wire
  import opened GroupSecurity
  import W = ReplayWindow
  import Sha256Standard

  datatype WindowKey = WindowKey(group: U64, epoch: nat, sender: Endpoint)

  datatype Provider = Provider(groups: map<U64, Group>, windows: map<WindowKey, W.Window>)

  function WindowOf(p: Provider, key: WindowKey): W.Window {
    if key in p.windows then p.windows[key] else W.EMPTY
  }

  function InitialTranscript(id: U64, kind: U8, suite: U16, coordinator: Member): Bytes {
    Sha256Standard.Sha256(Little(id, 8) + [kind] + Little(suite, 2) + EndpointBytes(coordinator.endpoint) +
                          Little(coordinator.subject, 8))
  }

  datatype Op =
    | CreateGroup(id: U64, kind: U8, suite: U16, coordinator: Member, secret: Bytes, now: U64)
    | AddMember(id: U64, member: Member, publicKey: Bytes, entropy: Bytes, now: U64)
    | RemoveMember(id: U64, endpoint: Endpoint, entropy: Bytes)
    | UpdateMemberRole(id: U64, endpoint: Endpoint, role: U8)
    | RekeyGroup(id: U64, endpoint: Endpoint, entropy: Bytes)
    | CloseGroup(id: U64)
    | ProtectMessage(id: U64, endpoint: Endpoint, mode: Mode, messageClass: U8, payload: Bytes, number: U64)
    | UnprotectMessage(message: Message, expectedClass: U8)

  /** What an operation makes of an existing group, if it succeeds. */
  function Changed(g: Group, op: Op): Option<Group>
    requires !op.UnprotectMessage?
  {
    match op
    case CreateGroup(_, _, _, _, _, _) => None
    case AddMember(_, m, key, entropy, now) => Add(g, m, key, entropy, now)
    case RemoveMember(_, e, entropy) => Remove(g, e, entropy)
    case UpdateMemberRole(_, e, role) => UpdateRole(g, e, role)
    case RekeyGroup(_, e, entropy) => Rekey(g, e, entropy)
    case CloseGroup(_) => Close(g)
    case ProtectMessage(id, e, mode, kind, payload, number) => Some(Protect(g, id, e, mode, kind, payload, number).0)
  }

  function Created(p: Provider, op: Op): Option<Group>
    requires op.CreateGroup?
  {
    if op.id == 0 || op.kind == 0 || op.suite == 0 || op.id in p.groups then None
    else Create(op.coordinator, op.secret, InitialTranscript(op.id, op.kind, op.suite, op.coordinator), op.now)
  }

  function Unprotected(p: Provider, m: Message, kind: U8): (Provider, Verdict, Bytes) {
    if m.group !in p.groups then (p, GroupNotFound, [])
    else
      var g := p.groups[m.group];
      if Screen(g, m) != Ok then (p, Screen(g, m), [])
      else
        var key := WindowKey(m.group, m.epoch, m.sender);
        var (w, verdict, payload) := Open(g, WindowOf(p, key), m, kind);
        (p.(windows := p.windows[key := w]), verdict, payload)
  }

  function Apply(p: Provider, op: Op): Provider {
    if op.UnprotectMessage? then Unprotected(p, op.message, op.expectedClass).0
    else
      var g := if op.CreateGroup? then Created(p, op)
               else if op.id in p.groups then Changed(p.groups[op.id], op) else None;
      if g.Some? then p.(groups := p.groups[op.id := g.value]) else p
  }

  const EMPTY := Provider(map[], map[])

  function ApplyAll(ops: seq<Op>): Provider {
    if ops == [] then EMPTY else Apply(ApplyAll(ops[..|ops| - 1]), ops[|ops| - 1])
  }

  // ---- Groups over a run -------------------------------------------------------------------------------------

  /** The operations that make a new epoch, and the only ones that do. */
  predicate NewEpoch(op: Op) {
    op.AddMember? || op.RemoveMember? || op.RekeyGroup?
  }

  lemma ProtectKeepsGroup(g: Group, op: Op)
    requires GroupOk(g) && op.ProtectMessage?
    ensures GroupOk(Changed(g, op).value) && SameEpoch(g, Changed(g, op).value)
  {
    hide Crypt, Tag, AuthInput, MessageKeyOf, BindingValid, MembersOk, Member.Valid;
    var g' := Changed(g, op).value;
    ActiveMeansActive(g, op.endpoint);
    assert g' == g.(ratchets := g'.ratchets);
    assert g.life == Running ==> forall e :: e in g'.ratchets <==> e in g.ratchets;
    SecretsFollow(g, g');
  }

  lemma SecretsFollow(g: Group, g': Group)
    requires g' == g.(ratchets := g'.ratchets) && forall e :: e in g'.ratchets <==> e in g.ratchets
    ensures SecretsOk(g) ==> SecretsOk(g')
  {
    forall e ensures IsActive(g', e) == IsActive(g, e) { }
  }

  /** A successful operation keeps the group in order, and raises its epoch by exactly one if it adds, removes or
      rekeys, and not at all otherwise. */
  lemma ChangeKeepsGroup(g: Group, op: Op)
    requires GroupOk(g) && !op.UnprotectMessage? && Changed(g, op).Some?
    ensures GroupOk(Changed(g, op).value)
    ensures Changed(g, op).value.epoch == g.epoch + if NewEpoch(op) then 1 else 0
  {
    hide Add, Remove, UpdateRole, Rekey, Close, Protect, GroupOk;
    match op {
      case AddMember(_, m, key, entropy, now) => AddedOk(g, m, key, entropy, now);
      case RemoveMember(_, e, entropy) => RemovedOk(g, e, entropy);
      case UpdateMemberRole(_, e, role) => RoleUpdatedOk(g, e, role);
      case RekeyGroup(_, e, entropy) => RekeyedOk(g, e, entropy);
      case CloseGroup(_) => ClosedOk(g);
      case ProtectMessage(_, _, _, _, _, _) => ProtectKeepsGroup(g, op);
    }
  }

  /** Every step keeps every group in order. */
  lemma StepKeepsGroups(p: Provider, op: Op, id: U64)
    requires id in p.groups ==> GroupOk(p.groups[id])
    requires id in Apply(p, op).groups
    ensures GroupOk(Apply(p, op).groups[id])
  {
    hide GroupOk, Changed, Unprotected, Create, InitialTranscript;
    UnprotectLeavesGroups(p, op);
    if !op.UnprotectMessage? && op.id == id {
      if op.CreateGroup? {
        CreatedOk(op.coordinator, op.secret, InitialTranscript(op.id, op.kind, op.suite, op.coordinator), op.now);
      } else if op.id in p.groups && Changed(p.groups[id], op).Some? {
        ChangeKeepsGroup(p.groups[id], op);
      }
    }
  }

  /** In every run every group stays in order. */
  lemma {:induction false} GroupsStayOk(ops: seq<Op>, id: U64)
    requires id in ApplyAll(ops).groups
    ensures GroupOk(ApplyAll(ops).groups[id])
  {
    hide GroupOk, Apply;
    if ops != [] {
      var before := ops[..|ops| - 1];
      if id in ApplyAll(before).groups { GroupsStayOk(before, id); }
      StepKeepsGroups(ApplyAll(before), ops[|ops| - 1], id);
    }
  }

  lemma UnprotectLeavesGroups(p: Provider, op: Op)
    ensures op.UnprotectMessage? ==> Unprotected(p, op.message, op.expectedClass).0.groups == p.groups
  {
    hide Screen, Open;
  }

  // ---- Messages over a run -----------------------------------------------------------------------------------

  lemma RoleUpdateKeepsEpoch(g: Group, e: Endpoint, role: U8)
    requires UpdateRole(g, e, role).Some?
    ensures SameEpoch(g, UpdateRole(g, e, role).value)
  {
    hide Sha256Standard.Sha256, EndpointBytes, Little;
  }

  /** A change never lowers the epoch or revives a group, and if it keeps both the epoch and the group alive, it
      keeps all that messages are protected with. */
  lemma ChangeMovesOn(g: Group, op: Op)
    requires GroupOk(g) && !op.UnprotectMessage? && Changed(g, op).Some?
    ensures var g' := Changed(g, op).value;
            && g.epoch <= g'.epoch && (g'.life == Running ==> g.life == Running)
            && (g'.epoch == g.epoch && g'.life == Running ==> SameEpoch(g, g'))
  {
    hide Add, Remove, UpdateRole, Rekey, Close, Protect, SameEpoch, GroupOk;
    ChangeKeepsGroup(g, op);
    if op.ProtectMessage? { ProtectKeepsGroup(g, op); }
    if op.UpdateMemberRole? { RoleUpdateKeepsEpoch(g, op.endpoint, op.role); }
    AdvancesKeepLife(g, op);
  }

  lemma AdvancesKeepLife(g: Group, op: Op)
    requires !op.UnprotectMessage? && Changed(g, op).Some?
    ensures !op.ProtectMessage? && Changed(g, op).value.life == Running ==> g.life == Running
    ensures op.ProtectMessage? ==> Changed(g, op).value.life == g.life
    ensures op.CloseGroup? ==> Changed(g, op).value.life == Closed
  {
    hide Derive, EndpointBytes, NextTranscript, Crypt, Tag, AuthInput, MessageKeyOf, BindingValid, Little;
  }

  lemma StepMovesOn(p: Provider, op: Op, id: U64)
    requires id in p.groups && GroupOk(p.groups[id])
    ensures id in Apply(p, op).groups
    ensures var g, g' := p.groups[id], Apply(p, op).groups[id];
            && g.epoch <= g'.epoch && (g'.life == Running ==> g.life == Running)
            && (g'.epoch == g.epoch && g'.life == Running ==> SameEpoch(g, g'))
  {
    hide GroupOk, Changed, Unprotected, Create, InitialTranscript;
    UnprotectLeavesGroups(p, op);
    if !op.UnprotectMessage? && op.id == id && Changed(p.groups[id], op).Some? { ChangeMovesOn(p.groups[id], op); }
  }

  /** A group that still runs in the epoch it had earlier in the run is the same group. */
  lemma {:induction false} EpochsPinDownGroups(ops: seq<Op>, i: nat, id: U64)
    requires i <= |ops| && id in ApplyAll(ops[..i]).groups
    ensures id in ApplyAll(ops).groups
    ensures var g, g' := ApplyAll(ops[..i]).groups[id], ApplyAll(ops).groups[id];
            && g.epoch <= g'.epoch && (g'.life == Running ==> g.life == Running)
            && (g'.epoch == g.epoch && g'.life == Running ==> SameEpoch(g, g'))
  {
    hide GroupOk, Apply;
    if i == |ops| {
      assert ops[..i] == ops;
    } else {
      var before := ops[..|ops| - 1];
      assert before[..i] == ops[..i];
      EpochsPinDownGroups(before, i, id);
      GroupsStayOk(before, id);
      StepMovesOn(ApplyAll(before), ops[|ops| - 1], id);
    }
  }

  /** A message protected at step i of a run opens, at the end of the run, to its payload, if the group still runs in
      the same epoch, the sender had never been removed and added again, and its number is new to the window; and in
      that epoch it opens in no other case. */
  lemma MessagesOpenAllThroughTheirEpoch(ops: seq<Op>, i: nat)
    requires i < |ops| && ops[i].ProtectMessage? && ops[i].id in ApplyAll(ops[..i]).groups
    requires var g, op := ApplyAll(ops[..i]).groups[ops[i].id], ops[i];
             Protect(g, op.id, op.endpoint, op.mode, op.messageClass, op.payload, op.number).1.Some?
    ensures var g, op, p := ApplyAll(ops[..i]).groups[ops[i].id], ops[i], ApplyAll(ops);
            var m := Protect(g, op.id, op.endpoint, op.mode, op.messageClass, op.payload, op.number).1.value;
            var key := WindowKey(op.id, g.epoch, op.endpoint);
            op.id in p.groups && (p.groups[op.id].life == Running && p.groups[op.id].epoch == g.epoch ==>
              && (Unprotected(p, m, op.messageClass).1 == Ok <==>
                    NeverReadded(g, op.endpoint) && W.Check(WindowOf(p, key), op.number) == W.Accepted)
              && (Unprotected(p, m, op.messageClass).1 == Ok ==> Unprotected(p, m, op.messageClass).2 == op.payload))
  {
    hide Screen, Open, GroupOk, ApplyAll, NeverReadded, W.Check, SameEpoch;
    var g, op, p := ApplyAll(ops[..i]).groups[ops[i].id], ops[i], ApplyAll(ops);
    var m := Protect(g, op.id, op.endpoint, op.mode, op.messageClass, op.payload, op.number).1.value;
    ProtectNames(g, op);
    hide Protect;
    GroupsStayOk(ops[..i], op.id);
    EpochsPinDownGroups(ops, i, op.id);
    if p.groups[op.id].life == Running && p.groups[op.id].epoch == g.epoch {
      ProtectedMessageOpens(g, op.id, op.endpoint, op.mode, op.messageClass, op.payload, op.number, p.groups[op.id],
                            WindowOf(p, WindowKey(op.id, g.epoch, op.endpoint)));
    }
  }

  lemma ProtectNames(g: Group, op: Op)
    requires op.ProtectMessage?
    ensures var m := Protect(g, op.id, op.endpoint, op.mode, op.messageClass, op.payload, op.number).1;
            m.Some? ==> m.value.group == op.id && m.value.epoch == g.epoch && m.value.sender == op.endpoint
  {
    hide Crypt, Tag, AuthInput, MessageKeyOf, BindingValid;
  }

  // ---- Replay over a run -------------------------------------------------------------------------------------

  /** An accepted message: its window and its number. */
  type Entry = (WindowKey, U64)

  /** The messages a run accepted, in order. */
  function Log(ops: seq<Op>): seq<Entry> {
    if ops == [] then []
    else
      var before, op := ops[..|ops| - 1], ops[|ops| - 1];
      if op.UnprotectMessage? && Unprotected(ApplyAll(before), op.message, op.expectedClass).1 == Ok then
        Log(before) + [(WindowKey(op.message.group, op.message.epoch, op.message.sender), op.message.number)]
      else Log(before)
  }

  /** What a window should remember of a log. */
  function Remembered(log: seq<Entry>, key: WindowKey): W.Reference {
    if log == [] then W.Reference({}, 0)
    else
      var earlier, last := Remembered(log[..|log| - 1], key), log[|log| - 1];
      if last.0 == key then W.ReferenceUpdate(earlier, last.1).0 else earlier
  }

  /** Every entry was new to its window when it was accepted. */
  predicate Fresh(log: seq<Entry>) {
    forall k :: 0 <= k < |log| ==> W.ReferenceCheck(Remembered(log[..k], log[k].0), log[k].1) == W.Accepted
  }

  lemma {:induction false} EntriesAreRemembered(log: seq<Entry>, i: nat)
    requires Fresh(log) && i < |log|
    ensures log[i].1 in Remembered(log, log[i].0).accepted
  {
    hide W.ReferenceCheck;
    var before := log[..|log| - 1];
    if i < |before| {
      assert forall k :: 0 <= k < |before| ==> before[..k] == log[..k];
      EntriesAreRemembered(before, i);
    }
  }

  lemma {:induction false} FreshEntriesDiffer(log: seq<Entry>, i: nat, j: nat)
    requires Fresh(log) && i < j < |log|
    ensures log[i] != log[j]
  {
    var before := log[..j];
    assert forall k :: 0 <= k < |before| ==> before[..k] == log[..k];
    EntriesAreRemembered(before, i);
    RememberedIsBounded(before, log[i].0);
  }

  ghost predicate Bounded(r: W.Reference) {
    forall n :: n in r.accepted ==> 0 < n <= r.max
  }

  lemma UpdateStaysBounded(r: W.Reference, n: U64)
    requires Bounded(r)
    ensures Bounded(W.ReferenceUpdate(r, n).0)
  {
  }

  lemma {:induction false} RememberedIsBounded(log: seq<Entry>, key: WindowKey)
    ensures Bounded(Remembered(log, key))
  {
    hide W.ReferenceUpdate;
    if log != [] {
      var before, last := log[..|log| - 1], log[|log| - 1];
      RememberedIsBounded(before, key);
      if last.0 == key { UpdateStaysBounded(Remembered(before, key), last.1); }
    }
  }

  ghost predicate WindowsOk(p: Provider, log: seq<Entry>) {
    Fresh(log) && forall key :: W.Represents(WindowOf(p, key), Remembered(log, key))
  }

  lemma UnprotectKeepsWindows(p: Provider, log: seq<Entry>, m: Message, kind: U8)
    requires WindowsOk(p, log)
    ensures var (p', verdict, _) := Unprotected(p, m, kind);
            var key := WindowKey(m.group, m.epoch, m.sender);
            WindowsOk(p', if verdict == Ok then log + [(key, m.number)] else log)
  {
    hide W.Represents, W.ReferenceCheck, W.ReferenceUpdate, W.Check, W.Update, Screen, Tag, AuthInput, MessageKeyOf,
      Crypt;
    var (p', verdict, _) := Unprotected(p, m, kind);
    var key := WindowKey(m.group, m.epoch, m.sender);
    if verdict == Ok {
      var longer := log + [(key, m.number)];
      assert longer[..|log|] == log;
      W.CheckAgrees(WindowOf(p, key), Remembered(log, key), m.number);
      W.UpdateAgrees(WindowOf(p, key), Remembered(log, key), m.number);
      assert forall k :: 0 <= k < |log| ==> longer[..k] == log[..k] && longer[k] == log[k];
      forall other ensures W.Represents(WindowOf(p', other), Remembered(longer, other)) {
        assert W.Represents(WindowOf(p, other), Remembered(log, other));
      }
    } else {
      forall other ensures W.Represents(WindowOf(p', other), Remembered(log, other)) {
        assert WindowOf(p', other) == WindowOf(p, other);
      }
    }
  }

  lemma {:induction false} RunsKeepWindows(ops: seq<Op>)
    ensures WindowsOk(ApplyAll(ops), Log(ops))
  {
    hide WindowsOk, Unprotected, Changed, Created;
    if ops == [] {
      NothingRemembered();
    } else {
      var before, op := ops[..|ops| - 1], ops[|ops| - 1];
      RunsKeepWindows(before);
      if op.UnprotectMessage? {
        UnprotectKeepsWindows(ApplyAll(before), Log(before), op.message, op.expectedClass);
      } else {
        SameWindows(ApplyAll(before), Apply(ApplyAll(before), op), Log(before));
      }
    }
  }

  lemma NothingRemembered()
    ensures WindowsOk(EMPTY, [])
  {
  }

  lemma SameWindows(p: Provider, p': Provider, log: seq<Entry>)
    requires WindowsOk(p, log) && p'.windows == p.windows
    ensures WindowsOk(p', log)
  {
    hide W.Represents;
    forall key ensures W.Represents(WindowOf(p', key), Remembered(log, key)) {
      assert WindowOf(p', key) == WindowOf(p, key);
    }
  }

  /** Over a whole run no message number of a sender is accepted twice in one epoch of a group. */
  lemma AcceptedAtMostOnce(ops: seq<Op>, i: nat, j: nat)
    requires i < j < |Log(ops)|
    ensures Log(ops)[i] != Log(ops)[j]
  {
    RunsKeepWindows(ops);
    FreshEntriesDiffer(Log(ops), i, j);
  }

  // ---- The provider in place ---------------------------------------------------------------------------------

  method FindActive(members: seq<Member>, e: Endpoint) returns (i: nat)
    ensures i == ActiveAt(members, e)
  {
    i := 0;
    while i < |members| && !(members[i].endpoint == e && members[i].Active())
      invariant i <= |members|
      invariant forall j :: 0 <= j < i ==> !(members[j].endpoint == e && members[j].Active())
    {
      i := i + 1;
    }
  }

  method FindFirst(members: seq<Member>, e: Endpoint) returns (i: nat)
    ensures i == FirstAt(members, e)
  {
    i := 0;
    while i < |members| && members[i].endpoint != e
      invariant i <= |members|
      invariant forall j :: 0 <= j < i ==> members[j].endpoint != e
    {
      i := i + 1;
    }
  }

  method Encrypt(epochSecret: Bytes, mode: Mode, e: Endpoint, generation: U32, text: Bytes) returns (r: Bytes)
    ensures r == Crypt(epochSecret, mode, e, generation, text)
  {
    hide Sha256Standard.XorByte, SenderInfo, Tag;
    if mode != Confidential { return text; }
    var stream := Derive(epochSecret, Keystream, SenderInfo(e, generation));
    r := [];
    for i := 0 to |text|
      invariant |r| == i
      invariant forall j :: 0 <= j < i ==> r[j] == Sha256Standard.XorByte(text[j], stream[j % |stream|])
    {
      r := r + [Sha256Standard.XorByte(text[i], stream[i % |stream|])];
    }
    assert r == XorStream(text, stream);
  }

  class ReferenceGroupProvider {
    var groups: map<U64, Group>
    var windows: map<WindowKey, W.Window>

    function Value(): Provider
      reads this
    {
      Provider(groups, windows)
    }

    constructor ()
      ensures Value() == EMPTY
    {
      groups, windows := map[], map[];
    }

    method Create(id: U64, kind: U8, suite: U16, coordinator: Member, given: Bytes, drawn: Bytes, now: U64)
      returns (done: bool)
      modifies this
      ensures var op := CreateGroup(id, kind, suite, coordinator, Entropy(given, drawn), now);
              Value() == Apply(old(Value()), op) && done == Created(old(Value()), op).Some?
    {
      hide Derive, InitialTranscript;
      if id == 0 || kind == 0 || suite == 0 || !coordinator.Valid() || !coordinator.Active() ||
         coordinator.role != COORDINATOR || id in groups
      {
        return false;
      }
      var secret := Entropy(given, drawn);
      var transcript := InitialTranscript(id, kind, suite, coordinator);
      var epochSecret := Derive(secret, InitialEpoch, transcript);
      var leaf := Derive(secret, LeafSecret, EndpointBytes(coordinator.endpoint));
      groups := groups[id := Group(1, Running, [coordinator.(joinedEpoch := 1, addedAt := now)], epochSecret,
                                   map[coordinator.endpoint := leaf], map[coordinator.endpoint := 0],
                                   transcript, transcript)];
      done := true;
    }

    method Add(id: U64, m: Member, publicKey: Bytes, given: Bytes, drawn: Bytes, now: U64) returns (done: bool)
      modifies this
      ensures var op := AddMember(id, m, publicKey, Entropy(given, drawn), now);
              && Value() == Apply(old(Value()), op)
              && done == (id in old(groups) && Changed(old(groups[id]), op).Some?)
    {
      hide Derive, NextTranscript, EndpointBytes;
      if id !in groups { return false; }
      var g := groups[id];
      if g.life != Running || !m.Valid() { return false; }
      var at := FindActive(g.members, m.endpoint);
      if at < |g.members| { return false; }
      var entropy := Entropy(given, drawn);
      var transcript := NextTranscript(g.transcript, Adds(m), g.epoch + 1);
      var secret := Derive(g.epochSecret, AdvanceAdd, transcript + entropy);
      var leaf := Derive(entropy, LeafSecret, EndpointBytes(m.endpoint));
      var member := m.(standing := ActiveMember, joinedEpoch := g.epoch + 1, addedAt := now, publicKey := publicKey);
      groups := groups[id := g.(epoch := g.epoch + 1, members := g.members + [member], transcript := transcript,
                                stateHash := transcript, epochSecret := secret,
                                leaves := g.leaves[m.endpoint := leaf], ratchets := g.ratchets[m.endpoint := 0])];
      done := true;
    }

    method Remove(id: U64, e: Endpoint, given: Bytes, drawn: Bytes) returns (done: bool)
      modifies this
      ensures var op := RemoveMember(id, e, Entropy(given, drawn));
              && Value() == Apply(old(Value()), op)
              && done == (id in old(groups) && Changed(old(groups[id]), op).Some?)
    {
      hide Derive, NextTranscript, EndpointBytes;
      if id !in groups || groups[id].life != Running { return false; }
      var g := groups[id];
      var at := FindActive(g.members, e);
      if at == |g.members| { return false; }
      var members := g.members[at := g.members[at].(standing := RemovedMember)];
      var entropy := Entropy(given, drawn);
      var transcript := NextTranscript(g.transcript, Removes(e), g.epoch + 1);
      var secret := Derive(g.epochSecret, AdvanceRemove, transcript + entropy);
      groups := groups[id := g.(epoch := g.epoch + 1, members := members, transcript := transcript,
                                stateHash := transcript, epochSecret := secret, leaves := g.leaves - {e},
                                ratchets := g.ratchets - {e})];
      done := true;
    }

    method UpdateRole(id: U64, e: Endpoint, role: U8) returns (done: bool)
      modifies this
      ensures var op := UpdateMemberRole(id, e, role);
              && Value() == Apply(old(Value()), op)
              && done == (id in old(groups) && Changed(old(groups[id]), op).Some?)
    {
      hide Sha256Standard.Sha256, EndpointBytes, Little;
      if id !in groups || groups[id].life != Running || role == NO_ROLE { return false; }
      var g := groups[id];
      var at := FindActive(g.members, e);
      if at == |g.members| { return false; }
      var members := g.members[at := g.members[at].(role := role)];
      var hash := Sha256Standard.Sha256(g.stateHash + [4] + Little(g.epoch, 8) + EndpointBytes(e) + [role]);
      groups := groups[id := g.(members := members, stateHash := hash)];
      done := true;
    }

    method Rekey(id: U64, e: Endpoint, given: Bytes, drawn: Bytes) returns (done: bool)
      modifies this
      ensures var op := RekeyGroup(id, e, Entropy(given, drawn));
              && Value() == Apply(old(Value()), op)
              && done == (id in old(groups) && Changed(old(groups[id]), op).Some?)
    {
      hide Derive, NextTranscript, EndpointBytes;
      if id !in groups || groups[id].life != Running { return false; }
      var g := groups[id];
      var at := FindActive(g.members, e);
      if at == |g.members| { return false; }
      var entropy := Entropy(given, drawn);
      var leaf := Derive(entropy, LeafUpdate, EndpointBytes(e));
      var transcript := NextTranscript(g.transcript, Rekeys(e), g.epoch + 1);
      var secret := Derive(g.epochSecret, AdvanceRekey, transcript + entropy);
      groups := groups[id := g.(epoch := g.epoch + 1, transcript := transcript, stateHash := transcript,
                                epochSecret := secret, leaves := g.leaves[e := leaf])];
      done := true;
    }

    method Close(id: U64) returns (done: bool)
      modifies this
      ensures var op := CloseGroup(id);
              && Value() == Apply(old(Value()), op)
              && done == (id in old(groups) && Changed(old(groups[id]), op).Some?)
    {
      if id !in groups || groups[id].life == Closed { return false; }
      var g := groups[id];
      groups := groups[id := g.(life := Closed, epochSecret := Sha256Standard.Zeros(|g.epochSecret|),
                                leaves := map[], ratchets := map[])];
      done := true;
    }

    method Protect(id: U64, e: Endpoint, mode: Mode, messageClass: U8, payload: Bytes, number: U64)
      returns (message: Option<Message>)
      modifies this
      ensures Value() == Apply(old(Value()), ProtectMessage(id, e, mode, messageClass, payload, number))
      ensures message == if id !in old(groups) then None
                         else GroupSecurity.Protect(old(groups[id]), id, e, mode, messageClass, payload, number).1
    {
      hide Crypt, MessageKeyOf, AuthInput, Tag;
      if id !in groups { return None; }
      var g := groups[id];
      assert groups == groups[id := g];
      if g.life != Running || number == 0 || mode == NoMode { return None; }
      var at := FindActive(g.members, e);
      if at == |g.members| || e !in g.leaves { return None; }
      var last: U32 := if e in g.ratchets then g.ratchets[e] else 0;
      var generation: U32 := (last + 1) % 0x1_0000_0000;
      groups := groups[id := g.(ratchets := g.ratchets[e := generation])];
      if !BindingValid(id, g.epoch, g.members[at], messageClass, number) { return None; }
      var body := Encrypt(g.epochSecret, mode, e, generation, payload);
      var key := MessageKeyOf(g.leaves[e], g.epochSecret, e, generation);
      var tag := Tag(key, AuthInput(id, g.epoch, g.members[at], messageClass, number, generation, body));
      message := Some(Message(id, g.epoch, mode, e, number, generation, body, tag));
    }

    method Unprotect(m: Message, expectedClass: U8) returns (verdict: Verdict, payload: Bytes)
      modifies `windows
      ensures var r := Unprotected(old(Value()), m, expectedClass);
              Value() == r.0 && verdict == r.1 && payload == r.2
    {
      hide Crypt, MessageKeyOf, AuthInput, Tag, W.Check, W.Update;
      if m.group !in groups { return GroupNotFound, []; }
      var g := groups[m.group];
      if g.life != Running { return GroupInactive, []; }
      if m.epoch < g.epoch { return StaleEpoch, []; }
      if m.epoch > g.epoch { return FutureEpoch, []; }
      var at := FindFirst(g.members, m.sender);
      if at == |g.members| { return MemberNotFound, []; }
      var sender := g.members[at];
      if !sender.Active() { return MemberNotActive, []; }
      if m.sender !in g.leaves { return ImpersonationDetected, []; }
      var key := WindowKey(m.group, m.epoch, m.sender);
      if key !in windows { windows := windows[key := W.EMPTY]; }
      var w := windows[key];
      assert windows == windows[key := w];
      if W.Check(w, m.number) != W.Accepted { return ReplayRejected, []; }
      if !BindingValid(m.group, m.epoch, sender, expectedClass, m.number) { return BindingInvalid, []; }
      var messageKey := MessageKeyOf(g.leaves[m.sender], g.epochSecret, m.sender, m.generation);
      if m.tag != Tag(messageKey, AuthInput(m.group, m.epoch, sender, expectedClass, m.number, m.generation, m.body)) {
        return SignatureInvalid, [];
      }
      payload := Encrypt(g.epochSecret, m.mode, m.sender, m.generation, m.body);
      windows := windows[key := W.Update(w, m.number).0];
      verdict := Ok;
    }
  }
}
