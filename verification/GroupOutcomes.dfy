/** What each operation of a group needs and gives: when it succeeds, who is a member with what afterwards, and when a
    message comes about and opens. */
module GroupOutcomes {

  import opened Basics
  import opened GroupSecurity
  import opened GroupProvider
  import W = ReplayWindow
  import Sha256Standard

  // ---- Membership --------------------------------------------------------------------------------------------

  predicate Named(m: Member) {
    && m.endpoint.node != 0 && m.endpoint.runtime != 0 && m.endpoint.endpoint != 0
    && m.trustDomain != 0 && m.subject != 0 && m.role != NO_ROLE
  }

  /** A group is made exactly for a new number, with a kind and a suite, by an active coordinator, who is then its only
      member, in epoch 1. */
  lemma CreatesExactly(p: Provider, op: Op)
    requires op.CreateGroup?
    ensures Created(p, op).Some? <==>
            && op.id != 0 && op.kind != 0 && op.suite != 0 && op.id !in p.groups
            && Named(op.coordinator) && op.coordinator.role == COORDINATOR && op.coordinator.standing == ActiveMember
    ensures Created(p, op).Some? ==>
              var g := Created(p, op).value;
              && g.epoch == 1 && g.life == Running && g.transcript == g.stateHash
              && g.members == [op.coordinator.(joinedEpoch := 1, addedAt := op.now)]
              && g.ratchets == map[op.coordinator.endpoint := 0]
  {
    hide Derive, InitialTranscript;
  }

  /** A member is added exactly to a running group in which it is not active, as its last entry, active, with its key,
      as of the new epoch; its ratchet starts over, and nobody else's entry changes. */
  lemma AddsExactly(g: Group, m: Member, publicKey: Bytes, entropy: Bytes, now: U64)
    ensures var added := Add(g, m, publicKey, entropy, now);
            && (added.Some? <==>
                  g.life == Running && Named(m) && m.standing != NoStanding && !IsActive(g, m.endpoint))
            && (added.Some? ==>
                  && added.value.members == g.members + [Member(m.endpoint, m.trustDomain, m.subject, m.role,
                                                                ActiveMember, g.epoch + 1, now, publicKey)]
                  && added.value.ratchets == g.ratchets[m.endpoint := 0]
                  && added.value.leaves.Keys == g.leaves.Keys + {m.endpoint})
  {
    hide Derive, NextTranscript, EndpointBytes;
    ActiveMeansActive(g, m.endpoint);
  }

  /** Exactly an active member of a running group can be removed; of the active members it alone is none any more. */
  lemma RemovesExactly(g: Group, e: Endpoint, entropy: Bytes, other: Endpoint)
    requires GroupOk(g)
    ensures var removed := Remove(g, e, entropy);
            && (removed.Some? <==> g.life == Running && IsActive(g, e))
            && (removed.Some? ==>
                  && (IsActive(removed.value, other) <==> IsActive(g, other) && other != e)
                  && removed.value.leaves == g.leaves - {e} && removed.value.ratchets == g.ratchets - {e})
  {
    hide Derive, NextTranscript, EndpointBytes, IsActive;
    ActiveMeansActive(g, e);
    if Remove(g, e, entropy).Some? {
      var g' := Remove(g, e, entropy).value;
      RemovalDeactivates(g, e, g'.members, other);
      SameMembersSameActive(g', g.(members := g'.members), other);
    }
  }

  lemma SameMembersSameActive(g: Group, g': Group, e: Endpoint)
    requires g.members == g'.members
    ensures IsActive(g, e) <==> IsActive(g', e)
  {
  }

  /** Exactly an active member of a running group gets another role, and nothing else of the members changes. */
  lemma UpdatesRoleExactly(g: Group, e: Endpoint, role: U8)
    ensures var updated := UpdateRole(g, e, role);
            && (updated.Some? <==> g.life == Running && role != NO_ROLE && IsActive(g, e))
            && (updated.Some? ==>
                  exists i :: && 0 <= i < |g.members| && g.members[i].endpoint == e && g.members[i].Active()
                              && updated.value.members == g.members[i := g.members[i].(role := role)])
  {
    hide Sha256Standard.Sha256, EndpointBytes;
    ActiveMeansActive(g, e);
  }

  /** Exactly an active member of a running group can rekey it: the members stay, and of the leaf secrets only its own
      changes. */
  lemma RekeysExactly(g: Group, e: Endpoint, entropy: Bytes)
    ensures var rekeyed := Rekey(g, e, entropy);
            && (rekeyed.Some? <==> g.life == Running && IsActive(g, e))
            && (rekeyed.Some? ==>
                  && rekeyed.value.members == g.members && rekeyed.value.ratchets == g.ratchets
                  && rekeyed.value.leaves == g.leaves[e := Derive(entropy, LeafUpdate, EndpointBytes(e))])
  {
    hide Derive, NextTranscript, EndpointBytes;
    ActiveMeansActive(g, e);
  }

  /** Every group that is not closed can be closed, and keeps its members as they were. */
  lemma ClosesExactly(g: Group)
    ensures Close(g).Some? <==> g.life != Closed
    ensures Close(g).Some? ==> Close(g).value.members == g.members && Close(g).value.life == Closed
  {
  }

  /** What succeeds is what the provider goes on with, and what fails leaves it as it is. */
  lemma AppliesExactly(p: Provider, op: Op)
    requires !op.UnprotectMessage?
    ensures var g := if op.CreateGroup? then Created(p, op)
                     else if op.id in p.groups then Changed(p.groups[op.id], op) else None;
            && (g.Some? ==> Apply(p, op).groups == p.groups[op.id := g.value]) && (g.None? ==> Apply(p, op) == p)
            && Apply(p, op).windows == p.windows
  {
    hide Changed, Created;
  }

  // ---- Messages ----------------------------------------------------------------------------------------------

  /** A message comes about exactly for an active member of a running group, a mode, a class and nonzero numbers. */
  lemma ProtectsExactly(g: Group, group: U64, e: Endpoint, mode: Mode, kind: U8, payload: Bytes, number: U64)
    requires GroupOk(g)
    ensures Protect(g, group, e, mode, kind, payload, number).1.Some? <==>
            g.life == Running && IsActive(g, e) && mode != NoMode && group != 0 && kind != 0 && number != 0
  {
    hide Crypt, Tag, AuthInput, MessageKeyOf;
    ActiveMeansActive(g, e);
    if ActiveAt(g.members, e) < |g.members| { assert g.members[ActiveAt(g.members, e)].Valid(); }
  }

  /** A confidential body gives its payload back under the key stream of its sender and generation, byte for byte; in
      the other mode it is the payload. */
  lemma ConfidentialIsEncrypted(epochSecret: Bytes, mode: Mode, e: Endpoint, generation: U32, payload: Bytes)
    ensures var body := Crypt(epochSecret, mode, e, generation, payload);
            && |body| == |payload| && (mode != Confidential ==> body == payload)
            && (mode == Confidential ==>
                  forall i :: 0 <= i < |payload| ==>
                    payload[i] ==
                    Sha256Standard.XorByte(body[i], Derive(epochSecret, Keystream, SenderInfo(e, generation))[i % 16]))
  {
    hide Derive, SenderInfo, Sha256Standard.XorByte;
    if mode == Confidential {
      var stream := Derive(epochSecret, Keystream, SenderInfo(e, generation));
      forall i | 0 <= i < |payload|
        ensures payload[i] == Sha256Standard.XorByte(XorStream(payload, stream)[i], stream[i % 16])
      {
        Sha256Standard.XorTwice(payload[i], stream[i % 16]);
      }
    }
  }

  predicate Lists(g: Group, e: Endpoint) {
    exists i :: 0 <= i < |g.members| && g.members[i].endpoint == e
  }

  /** A message opens exactly in its running group and epoch, from a sender whose first entry is active, with a number
      new to the window, a class, and the tag its sender's key makes of it. */
  lemma OpensExactly(p: Provider, m: Message, kind: U8)
    requires m.group in p.groups ==> GroupOk(p.groups[m.group])
    ensures Unprotected(p, m, kind).1 == Ok <==>
            && m.group in p.groups && m.group != 0 && m.number != 0 && kind != 0
            && var g := p.groups[m.group];
               && g.life == Running && m.epoch == g.epoch && NeverReadded(g, m.sender)
               && W.Check(WindowOf(p, WindowKey(m.group, m.epoch, m.sender)), m.number) == W.Accepted
               && m.sender in g.leaves
               && m.tag == Tag(MessageKeyOf(g.leaves[m.sender], g.epochSecret, m.sender, m.generation),
                               AuthInput(m.group, m.epoch, g.members[FirstAt(g.members, m.sender)], kind, m.number,
                                         m.generation, m.body))
  {
    hide Crypt, Tag, AuthInput, MessageKeyOf, W.Check, W.Update;
    if m.group in p.groups {
      var g := p.groups[m.group];
      var i := FirstAt(g.members, m.sender);
      if i < |g.members| { assert g.members[i].Valid(); }
    }
  }

  /** Why it does not open, checked in this order: no such group, not running, an earlier epoch, a later one, a sender
      never listed, one whose first entry is not active. */
  lemma RefusesExactly(p: Provider, m: Message, kind: U8)
    ensures var verdict := Unprotected(p, m, kind).1;
            && (verdict == GroupNotFound <==> m.group !in p.groups)
            && (m.group in p.groups ==>
                  var g := p.groups[m.group];
                  && (verdict == GroupInactive <==> g.life != Running)
                  && (verdict == StaleEpoch <==> g.life == Running && m.epoch < g.epoch)
                  && (verdict == FutureEpoch <==> g.life == Running && m.epoch > g.epoch)
                  && (verdict == MemberNotFound <==>
                        g.life == Running && m.epoch == g.epoch && !Lists(g, m.sender))
                  && (verdict == MemberNotActive <==>
                        g.life == Running && m.epoch == g.epoch && Lists(g, m.sender) && !NeverReadded(g, m.sender)))
    ensures Unprotected(p, m, kind).1 != Ok ==> Unprotected(p, m, kind).2 == []
  {
    hide Crypt, Tag, AuthInput, MessageKeyOf, W.Check, W.Update, BindingValid;
  }
}
