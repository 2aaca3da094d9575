/** Groups over whole runs of the provider: what the removals of the past and the messages protected in it say about
    who is heard now. */
module GroupHistory {

  import opened Basics
  import opened Wire
  import opened GroupSecurity
  import opened GroupProvider
  import W = ReplayWindow
  import Sha256Standard

  // ---- Removals ----------------------------------------------------------------------------------------------

  /** Step i of the run removed the endpoint from the group. */
  predicate RemovesAt(ops: seq<Op>, i: nat, id: U64, e: Endpoint)
    requires i < |ops|
  {
    && ops[i].RemoveMember? && ops[i].id == id && ops[i].endpoint == e
    && id in ApplyAll(ops[..i]).groups && Remove(ApplyAll(ops[..i]).groups[id], e, ops[i].entropy).Some?
  }

  predicate WasRemoved(ops: seq<Op>, id: U64, e: Endpoint) {
    exists i :: 0 <= i < |ops| && RemovesAt(ops, i, id, e)
  }

  lemma RemovedBeforeOrNow(ops: seq<Op>, id: U64, e: Endpoint)
    requires ops != []
    ensures WasRemoved(ops, id, e) <==>
            WasRemoved(ops[..|ops| - 1], id, e) || RemovesAt(ops, |ops| - 1, id, e)
  {
    hide ApplyAll, Remove;
    var before := ops[..|ops| - 1];
    forall i | 0 <= i < |before| ensures RemovesAt(before, i, id, e) == RemovesAt(ops, i, id, e) {
      assert before[..i] == ops[..i];
    }
    if WasRemoved(before, id, e) {
      var i :| 0 <= i < |before| && RemovesAt(before, i, id, e);
      assert RemovesAt(ops, i, id, e);
    }
    if i :| 0 <= i < |ops| && RemovesAt(ops, i, id, e) {
      assert i < |before| ==> RemovesAt(before, i, id, e);
    }
  }

  /** What the entries of an endpoint look like: the first one is marked as removed if it ever was, and otherwise they
      are all active. */
  predicate EntriesTell(members: seq<Member>, e: Endpoint, removed: bool) {
    if removed then FirstAt(members, e) < |members| && members[FirstAt(members, e)].standing == RemovedMember
    else forall i :: 0 <= i < |members| && members[i].endpoint == e ==> members[i].Active()
  }

  lemma AddTells(members: seq<Member>, m: Member, e: Endpoint, removed: bool)
    requires EntriesTell(members, e, removed) && m.Active()
    ensures EntriesTell(members + [m], e, removed)
  {
    if removed { FirstStays(members, members + [m], e); }
  }

  lemma RemoveTells(members: seq<Member>, x: Endpoint, e: Endpoint, removed: bool)
    requires EntriesTell(members, e, removed) && ActiveAt(members, x) < |members|
    ensures var at := ActiveAt(members, x);
            EntriesTell(members[at := members[at].(standing := RemovedMember)], e, removed || x == e)
  {
    var at := ActiveAt(members, x);
    var marked := members[at := members[at].(standing := RemovedMember)];
    assert forall i :: 0 <= i < |members| ==> marked[i].endpoint == members[i].endpoint;
    SameFirst(members, marked, e);
    if x == e && !removed { assert FirstAt(members, e) == at; }
  }

  lemma RoleTells(members: seq<Member>, at: nat, role: U8, e: Endpoint, removed: bool)
    requires EntriesTell(members, e, removed) && at < |members|
    ensures EntriesTell(members[at := members[at].(role := role)], e, removed)
  {
    var changed := members[at := members[at].(role := role)];
    assert forall i :: 0 <= i < |members| ==>
      changed[i].endpoint == members[i].endpoint && changed[i].standing == members[i].standing;
    SameFirst(members, changed, e);
  }

  lemma SameFirst(members: seq<Member>, others: seq<Member>, e: Endpoint)
    requires |others| == |members| && forall i :: 0 <= i < |members| ==> others[i].endpoint == members[i].endpoint
    ensures FirstAt(others, e) == FirstAt(members, e)
  {
  }

  lemma MembersAfterAdd(g: Group, m: Member, key: Bytes, entropy: Bytes, now: U64)
    requires Add(g, m, key, entropy, now).Some?
    ensures Add(g, m, key, entropy, now).value.members ==
            g.members +
            [m.(standing := ActiveMember, joinedEpoch := g.epoch + 1, addedAt := now, publicKey := key)]
  {
    hide Derive, NextTranscript, EndpointBytes, Member.Valid;
  }

  lemma MembersAfterRemove(g: Group, x: Endpoint, entropy: Bytes)
    requires Remove(g, x, entropy).Some?
    ensures var at := ActiveAt(g.members, x);
            && at < |g.members|
            && Remove(g, x, entropy).value.members == g.members[at := g.members[at].(standing := RemovedMember)]
  {
    hide Derive, NextTranscript, EndpointBytes;
  }

  lemma MembersAfterRole(g: Group, x: Endpoint, role: U8)
    requires UpdateRole(g, x, role).Some?
    ensures var at := ActiveAt(g.members, x);
            && at < |g.members|
            && UpdateRole(g, x, role).value.members == g.members[at := g.members[at].(role := role)]
  {
    hide Sha256Standard.Sha256, EndpointBytes, Little;
  }

  lemma OthersKeepMembers(g: Group, op: Op)
    requires op.RekeyGroup? || op.CloseGroup? || op.ProtectMessage?
    ensures Changed(g, op).Some? ==> Changed(g, op).value.members == g.members
  {
    hide Derive, NextTranscript, EndpointBytes, Crypt, Tag, AuthInput, MessageKeyOf, BindingValid;
  }

  lemma ChangeTells(g: Group, op: Op, e: Endpoint, removed: bool)
    requires !op.UnprotectMessage? && Changed(g, op).Some? && EntriesTell(g.members, e, removed)
    ensures EntriesTell(Changed(g, op).value.members, e, removed || (op.RemoveMember? && op.endpoint == e))
  {
    hide EntriesTell, Add, Remove, UpdateRole, Rekey, Close, Protect;
    match op {
      case AddMember(_, m, key, entropy, now) =>
        MembersAfterAdd(g, m, key, entropy, now);
        AddTells(g.members, m.(standing := ActiveMember, joinedEpoch := g.epoch + 1, addedAt := now, publicKey := key),
                 e, removed);
      case RemoveMember(_, x, entropy) =>
        MembersAfterRemove(g, x, entropy);
        RemoveTells(g.members, x, e, removed);
      case UpdateMemberRole(_, x, role) =>
        MembersAfterRole(g, x, role);
        RoleTells(g.members, ActiveAt(g.members, x), role, e, removed);
      case RekeyGroup(_, _, _) => OthersKeepMembers(g, op);
      case CloseGroup(_) => OthersKeepMembers(g, op);
      case ProtectMessage(_, _, _, _, _, _) => OthersKeepMembers(g, op);
    }
  }

  lemma StepTells(p: Provider, op: Op, id: U64, e: Endpoint, removed: bool)
    requires if id in p.groups then EntriesTell(p.groups[id].members, e, removed) else !removed
    requires id in Apply(p, op).groups
    ensures var now := op.RemoveMember? && op.id == id && op.endpoint == e && id in p.groups &&
                       Remove(p.groups[id], e, op.entropy).Some?;
            EntriesTell(Apply(p, op).groups[id].members, e, removed || now)
  {
    hide Unprotected, InitialTranscript, Derive, EntriesTell, Remove, Add, UpdateRole, Rekey, Close, Protect, FirstAt,
      EndpointBytes;
    UnprotectLeavesGroups(p, op);
    if !op.UnprotectMessage? && op.id == id {
      if op.CreateGroup? {
        if Created(p, op).Some? { NewGroupTells(p, op, e); }
      } else if id in p.groups && Changed(p.groups[id], op).Some? {
        ChangeTells(p.groups[id], op, e, removed);
      }
    }
  }

  lemma NewGroupTells(p: Provider, op: Op, e: Endpoint)
    requires op.CreateGroup? && Created(p, op).Some?
    ensures op.id !in p.groups && EntriesTell(Created(p, op).value.members, e, false)
  {
    hide InitialTranscript, Derive, EndpointBytes;
  }

  /** Groups do not go away. */
  lemma StepKeepsGroup(p: Provider, op: Op, id: U64)
    requires id in p.groups
    ensures id in Apply(p, op).groups
  {
    hide Unprotected, Changed, Created;
    UnprotectLeavesGroups(p, op);
  }

  lemma {:induction false} RemovedFromSomething(ops: seq<Op>, id: U64, e: Endpoint)
    requires WasRemoved(ops, id, e)
    ensures id in ApplyAll(ops).groups
  {
    hide Apply, Remove, WasRemoved;
    if ops == [] {
      NeverRemovedAtFirst(id, e);
    } else {
      var before := ops[..|ops| - 1];
      RemovedBeforeOrNow(ops, id, e);
      if WasRemoved(before, id, e) { RemovedFromSomething(before, id, e); }
      StepKeepsGroup(ApplyAll(before), ops[|ops| - 1], id);
    }
  }

  lemma NeverRemovedAtFirst(id: U64, e: Endpoint)
    ensures !WasRemoved([], id, e)
  {
  }

  /** In every run the entries of an endpoint tell whether it was ever removed. */
  lemma {:induction false} EntriesTellTheRun(ops: seq<Op>, id: U64, e: Endpoint)
    requires id in ApplyAll(ops).groups
    ensures EntriesTell(ApplyAll(ops).groups[id].members, e, WasRemoved(ops, id, e))
  {
    hide Apply, Remove, WasRemoved, EntriesTell;
    if ops != [] {
      var before, op := ops[..|ops| - 1], ops[|ops| - 1];
      var p := ApplyAll(before);
      RemovedBeforeOrNow(ops, id, e);
      if id in p.groups {
        EntriesTellTheRun(before, id, e);
      } else if WasRemoved(before, id, e) {
        RemovedFromSomething(before, id, e);
      }
      StepTells(p, op, id, e, WasRemoved(before, id, e));
    }
  }

  /** In every run: once an endpoint has been removed its first entry is never active again, and for an endpoint that
      is active the first entry is the active one exactly if it was never removed. */
  lemma NeverReaddedExactly(ops: seq<Op>, id: U64, e: Endpoint)
    requires id in ApplyAll(ops).groups
    ensures var g := ApplyAll(ops).groups[id];
            && (WasRemoved(ops, id, e) ==> !NeverReadded(g, e))
            && (IsActive(g, e) ==> (NeverReadded(g, e) <==> !WasRemoved(ops, id, e)))
  {
    hide ApplyAll, WasRemoved;
    EntriesTellTheRun(ops, id, e);
  }

  /** So over a whole run: a message protected at step i opens at the end of the run, while its epoch lasts, exactly
      when its sender had not been removed from the group before step i and its number is new to the window. */
  lemma MessagesOpenExactly(ops: seq<Op>, i: nat)
    requires i < |ops| && ops[i].ProtectMessage? && ops[i].id in ApplyAll(ops[..i]).groups
    requires Sent(ops, i).Some?
    ensures var m, p := Sent(ops, i).value, ApplyAll(ops);
            var key := WindowKey(m.group, m.epoch, m.sender);
            m.group in p.groups && (p.groups[m.group].life == Running && p.groups[m.group].epoch == m.epoch ==>
              && (Unprotected(p, m, ops[i].messageClass).1 == Ok <==>
                    !WasRemoved(ops[..i], m.group, m.sender) &&
                    W.Check(WindowOf(p, key), m.number) == W.Accepted)
              && (Unprotected(p, m, ops[i].messageClass).1 == Ok ==>
                    Unprotected(p, m, ops[i].messageClass).2 == ops[i].payload))
  {
    hide ApplyAll, WasRemoved, NeverReadded, Unprotected, W.Check;
    var g, op := ApplyAll(ops[..i]).groups[ops[i].id], ops[i];
    ProtectingIsActive(g, op);
    ProtectNames(g, op);
    hide Protect;
    MessagesOpenAllThroughTheirEpoch(ops, i);
    NeverReaddedExactly(ops[..i], op.id, op.endpoint);
  }

  /** The message a step of the run protected. */
  function Sent(ops: seq<Op>, i: nat): Option<Message>
    requires i < |ops|
  {
    var op := ops[i];
    if op.ProtectMessage? && op.id in ApplyAll(ops[..i]).groups then
      Protect(ApplyAll(ops[..i]).groups[op.id], op.id, op.endpoint, op.mode, op.messageClass, op.payload, op.number).1
    else None
  }

  lemma ProtectingIsActive(g: Group, op: Op)
    requires op.ProtectMessage?
    requires Protect(g, op.id, op.endpoint, op.mode, op.messageClass, op.payload, op.number).1.Some?
    ensures IsActive(g, op.endpoint)
    ensures Protect(g, op.id, op.endpoint, op.mode, op.messageClass, op.payload, op.number).1.value.number == op.number
  {
    hide Crypt, Tag, AuthInput, MessageKeyOf, BindingValid;
    ActiveMeansActive(g, op.endpoint);
  }

  // ---- A run in which a member is not heard ------------------------------------------------------------------

  const COORDINATING := Member(Endpoint(1, 1, 1), 1, 1, COORDINATOR, ActiveMember, 0, 0, [])
  const WORKING := Member(Endpoint(2, 2, 2), 1, 2, 2, ActiveMember, 0, 0, [])

  const FOUNDING: Op := CreateGroup(1, 1, 1, COORDINATING, [7], 0)
  const JOINING: Op := AddMember(1, WORKING, [], [7], 0)
  const LEAVING: Op := RemoveMember(1, WORKING.endpoint, [7])
  const SPEAKING: Op := ProtectMessage(1, WORKING.endpoint, AuthenticatedOnly, 1, [], 1)

  lemma CanJoin(g: Group, m: Member, key: Bytes, entropy: Bytes, now: U64)
    requires GroupOk(g) && g.life == Running && m.Valid() && !IsActive(g, m.endpoint)
    ensures var g' := Add(g, m, key, entropy, now);
            g'.Some? && GroupOk(g'.value) && g'.value.life == Running && IsActive(g'.value, m.endpoint)
  {
    hide Derive, NextTranscript, EndpointBytes, GroupOk;
    ActiveMeansActive(g, m.endpoint);
    AddedOk(g, m, key, entropy, now);
  }

  lemma CanLeave(g: Group, e: Endpoint, entropy: Bytes)
    requires GroupOk(g) && g.life == Running && IsActive(g, e)
    ensures var g' := Remove(g, e, entropy);
            g'.Some? && GroupOk(g'.value) && g'.value.life == Running && !IsActive(g'.value, e)
  {
    hide Derive, NextTranscript, EndpointBytes, GroupOk;
    ActiveMeansActive(g, e);
    RemovedOk(g, e, entropy);
  }

  lemma RunsOn(ops: seq<Op>, op: Op)
    ensures ApplyAll(ops + [op]) == Apply(ApplyAll(ops), op)
  {
    hide Apply;
    assert (ops + [op])[..|ops|] == ops;
  }

  lemma ChangesGroup(p: Provider, op: Op)
    requires !op.UnprotectMessage? && !op.CreateGroup? && op.id in p.groups && Changed(p.groups[op.id], op).Some?
    ensures op.id in Apply(p, op).groups && Apply(p, op).groups[op.id] == Changed(p.groups[op.id], op).value
  {
    hide Changed;
  }

  lemma Founded()
    ensures var p := ApplyAll([FOUNDING]);
            && 1 in p.groups && GroupOk(p.groups[1]) && p.groups[1].life == Running
            && !IsActive(p.groups[1], WORKING.endpoint)
  {
    hide InitialTranscript, Derive, EndpointBytes;
    RunsOn([], FOUNDING);
    assert [] + [FOUNDING] == [FOUNDING];
    var g := Created(EMPTY, FOUNDING);
    CreatedOk(COORDINATING, [7], InitialTranscript(1, 1, 1, COORDINATING), 0);
    assert ApplyAll([]) == EMPTY;
    assert g.Some? && g.value.members == [COORDINATING.(joinedEpoch := 1)];
  }

  lemma Rejoined()
    ensures var ops := [FOUNDING, JOINING, LEAVING];
            var p := ApplyAll([FOUNDING, JOINING]);
            && 1 in p.groups && GroupOk(p.groups[1]) && Remove(p.groups[1], WORKING.endpoint, [7]).Some?
            && Add(Remove(p.groups[1], WORKING.endpoint, [7]).value, WORKING, [], [7], 0).Some?
            && 1 in ApplyAll(ops + [JOINING]).groups
            && ApplyAll(ops + [JOINING]).groups[1] ==
               Add(Remove(p.groups[1], WORKING.endpoint, [7]).value, WORKING, [], [7], 0).value
  {
    hide Apply, ApplyAll, Add, Remove, GroupOk, IsActive;
    Founded();
    var p1 := ApplyAll([FOUNDING]);
    CanJoin(p1.groups[1], WORKING, [], [7], 0);
    RunsOn([FOUNDING], JOINING);
    assert [FOUNDING] + [JOINING] == [FOUNDING, JOINING];
    ChangesGroup(p1, JOINING);
    var p2 := ApplyAll([FOUNDING, JOINING]);
    CanLeave(p2.groups[1], WORKING.endpoint, [7]);
    RunsOn([FOUNDING, JOINING], LEAVING);
    assert [FOUNDING, JOINING] + [LEAVING] == [FOUNDING, JOINING, LEAVING];
    ChangesGroup(p2, LEAVING);
    var p3 := ApplyAll([FOUNDING, JOINING, LEAVING]);
    CanJoin(p3.groups[1], WORKING, [], [7], 0);
    RunsOn([FOUNDING, JOINING, LEAVING], JOINING);
    ChangesGroup(p3, JOINING);
  }

  /** A group is founded, a member joins, leaves, joins again and speaks: its message exists, and does not open. */
  lemma ARunNobodyHears()
    ensures var ops := [FOUNDING, JOINING, LEAVING] + [JOINING] + [SPEAKING];
            Sent(ops, 4).Some? && Unprotected(ApplyAll(ops), Sent(ops, 4).value, 1).1 == MemberNotActive
  {
    hide Apply, ApplyAll, Add, Remove, GroupOk, IsActive, Protect, Screen, Open;
    var four := [FOUNDING, JOINING, LEAVING] + [JOINING];
    var ops := four + [SPEAKING];
    Rejoined();
    RunsOn(four, SPEAKING);
    assert ops[..4] == four;
    var g := ApplyAll([FOUNDING, JOINING]).groups[1];
    ReaddedMembersAreNotHeard(g, WORKING.endpoint, [7], WORKING, [], [7], 0, 1, AuthenticatedOnly, 1, [], 1);
    ChangesGroup(ApplyAll(four), SPEAKING);
    ProtectNames(ApplyAll(four).groups[1], SPEAKING);
  }

  // ---- Authenticity ------------------------------------------------------------------------------------------

  predicate EpochFits(g: Group) { g.epoch < 0x1_0000_0000_0000_0000 }

  /** What the tag of a message is checked over, if its sender is found. */
  function CheckedInput(p: Provider, m: Message, kind: U8): Bytes {
    if m.group !in p.groups || FirstAt(p.groups[m.group].members, m.sender) == |p.groups[m.group].members| then []
    else
      var g := p.groups[m.group];
      AuthInput(m.group, m.epoch, g.members[FirstAt(g.members, m.sender)], kind, m.number, m.generation, m.body)
  }

  /** Step i of the run tagged this input, for a body that does not collide with the given one. */
  ghost predicate Tagged(ops: seq<Op>, i: nat, input: Bytes, body: Bytes)
    requires i < |ops|
  {
    && ops[i].ProtectMessage? && ops[i].id in ApplyAll(ops[..i]).groups && Sent(ops, i).Some?
    && var g, m := ApplyAll(ops[..i]).groups[ops[i].id], Sent(ops, i).value;
       && EpochFits(g) && ActiveAt(g.members, m.sender) < |g.members|
       && AuthInput(m.group, m.epoch, g.members[ActiveAt(g.members, m.sender)], ops[i].messageClass, m.number,
                    m.generation, m.body) == input
       && (Sha256Standard.Sha256(m.body) == Sha256Standard.Sha256(body) ==> m.body == body)
  }

  /** The same message but for its mode, and what becomes of the payload because of that. */
  predicate IsSent(ops: seq<Op>, i: nat, m: Message, kind: U8, payload: Bytes, epochSecret: Bytes)
    requires i < |ops| && Sent(ops, i).Some?
  {
    var sent, op := Sent(ops, i).value, ops[i];
    && m == sent.(mode := m.mode) && kind == op.messageClass && m.number == op.number && m.sender == op.endpoint
    && (payload == op.payload <==>
        ((m.mode == Confidential) == (op.mode == Confidential) ||
         Crypt(epochSecret, Confidential, m.sender, m.generation, op.payload) == op.payload))
  }

  /** Step i tagged the input the tag of the message is checked over. */
  ghost predicate TaggedAt(ops: seq<Op>, i: nat, m: Message, kind: U8)
    requires i < |ops|
  {
    Tagged(ops, i, CheckedInput(ApplyAll(ops), m, kind), m.body)
  }

  /** At the end of the run the message opens as what step i protected. */
  predicate OpensAsSent(ops: seq<Op>, i: nat, m: Message, kind: U8)
    requires i < |ops|
  {
    && Sent(ops, i).Some? && m.group in ApplyAll(ops).groups
    && IsSent(ops, i, m, kind, Unprotected(ApplyAll(ops), m, kind).2, ApplyAll(ops).groups[m.group].epochSecret)
  }

  lemma SentFields(g: Group, op: Op)
    requires op.ProtectMessage?
    requires Protect(g, op.id, op.endpoint, op.mode, op.messageClass, op.payload, op.number).1.Some?
    ensures var m := Protect(g, op.id, op.endpoint, op.mode, op.messageClass, op.payload, op.number).1.value;
            && m.mode == op.mode && m.number == op.number && m.sender == op.endpoint && m.group == op.id
            && m.epoch == g.epoch && op.endpoint in g.leaves && ActiveAt(g.members, op.endpoint) < |g.members|
            && m.body == Crypt(g.epochSecret, op.mode, op.endpoint, m.generation, op.payload)
            && m.tag == Tag(MessageKeyOf(g.leaves[op.endpoint], g.epochSecret, op.endpoint, m.generation),
                            AuthInput(op.id, g.epoch, g.members[ActiveAt(g.members, op.endpoint)], op.messageClass,
                                      op.number, m.generation, m.body))
  {
    hide Crypt, Tag, AuthInput, MessageKeyOf, BindingValid;
  }

  lemma OpenedFields(p: Provider, m: Message, kind: U8)
    requires Unprotected(p, m, kind).1 == Ok
    ensures m.group in p.groups
    ensures var g := p.groups[m.group];
            && g.life == Running && m.epoch == g.epoch && FirstAt(g.members, m.sender) < |g.members|
            && m.sender in g.leaves && NeverReadded(g, m.sender)
            && m.tag == Tag(MessageKeyOf(g.leaves[m.sender], g.epochSecret, m.sender, m.generation),
                            CheckedInput(p, m, kind))
            && Unprotected(p, m, kind).2 == Crypt(g.epochSecret, m.mode, m.sender, m.generation, m.body)
  {
    hide Crypt, Tag, AuthInput, MessageKeyOf, BindingValid, W.Check, W.Update;
  }

  lemma OpenedIsSent(ops: seq<Op>, m: Message, kind: U8, i: nat)
    requires i < |ops| && Unprotected(ApplyAll(ops), m, kind).1 == Ok
    requires m.group in ApplyAll(ops).groups && EpochFits(ApplyAll(ops).groups[m.group])
    requires Tagged(ops, i, CheckedInput(ApplyAll(ops), m, kind), m.body)
    ensures IsSent(ops, i, m, kind, Unprotected(ApplyAll(ops), m, kind).2, ApplyAll(ops).groups[m.group].epochSecret)
  {
    hide ApplyAll, Unprotected, Protect, Crypt, Tag, AuthInput, MessageKeyOf, Sha256Standard.Sha256;
    var p, op := ApplyAll(ops), ops[i];
    var g0, g := ApplyAll(ops[..i]).groups[op.id], p.groups[m.group];
    var sent := Sent(ops, i).value;
    SentFields(g0, op);
    OpenedFields(p, m, kind);
    var from, to := g0.members[ActiveAt(g0.members, op.endpoint)], g.members[FirstAt(g.members, m.sender)];
    AuthInputIsInjective(sent.group, sent.epoch, from, op.messageClass, sent.number, sent.generation, sent.body,
                         m.group, m.epoch, to, kind, m.number, m.generation, m.body);
    EpochsPinDownGroups(ops, i, op.id);
    OpensToItsPayloadExactly(g.epochSecret, op.mode, m.mode, m.sender, m.generation, op.payload);
  }

  /** If tags cannot be made without the key and digests do not collide, that is, if the input of a message that opens
      was tagged somewhere in the run: whatever opens is, but for its mode, a message its sender protected, for the same
      class, number and generation, with the same body and tag; and it opens to the payload of that call exactly when
      the modes agree on encryption, or encryption leaves the payload as it is. */
  lemma OpenedWasProtected(ops: seq<Op>, m: Message, kind: U8)
    requires Unprotected(ApplyAll(ops), m, kind).1 == Ok
    requires m.group in ApplyAll(ops).groups && EpochFits(ApplyAll(ops).groups[m.group])
    requires exists i :: 0 <= i < |ops| && TaggedAt(ops, i, m, kind)
    ensures exists i :: 0 <= i < |ops| && OpensAsSent(ops, i, m, kind)
  {
    hide ApplyAll, Unprotected, Tagged, IsSent, CheckedInput, Sent;
    var i :| 0 <= i < |ops| && TaggedAt(ops, i, m, kind);
    OpenedIsSent(ops, m, kind, i);
    assert OpensAsSent(ops, i, m, kind) by { TaggedIsSent(ops, i, m, kind); }
  }

  lemma TaggedIsSent(ops: seq<Op>, i: nat, m: Message, kind: U8)
    requires i < |ops| && TaggedAt(ops, i, m, kind)
    ensures Sent(ops, i).Some?
  {
    hide ApplyAll, AuthInput;
  }

  /** The assumption lets every honest message through: one that was protected in the run and opens at its end is one
      whose input was tagged. */
  lemma SentMessagesAreTagged(ops: seq<Op>, i: nat)
    requires i < |ops| && ops[i].ProtectMessage? && ops[i].id in ApplyAll(ops[..i]).groups && Sent(ops, i).Some?
    requires EpochFits(ApplyAll(ops[..i]).groups[ops[i].id])
    requires Unprotected(ApplyAll(ops), Sent(ops, i).value, ops[i].messageClass).1 == Ok
    ensures var m := Sent(ops, i).value;
            TaggedAt(ops, i, m, ops[i].messageClass)
  {
    hide ApplyAll, Unprotected, Protect, Crypt, Tag, MessageKeyOf, Sha256Standard.Sha256, Write, NeverReadded,
      WasRemoved,
      W.Check, GroupOk;
    var p, op, m := ApplyAll(ops), ops[i], Sent(ops, i).value;
    var g0 := ApplyAll(ops[..i]).groups[op.id];
    SentFields(g0, op);
    OpenedFields(p, m, op.messageClass);
    var g := p.groups[op.id];
    EpochsPinDownGroups(ops, i, op.id);
    SamePlaces(g0.members, g.members, m.sender);
    FirstIsActive(g, m.sender);
  }
}
