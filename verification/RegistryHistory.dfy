/** Which secured session names a sender, told by the calls alone: who founded it, the terms it last got, and what ended
    it. */
module RegistryHistory {

  import opened Basics
  import N = Negotiation
  import opened SessionRegistry

  // ---- The story of a session --------------------------------------------------------------------------------

  datatype Terms = Terms(epoch: U64, keyId: U32, expiresAt: U64)

  /** The proposal that founded the session. */
  function FoundedBy(ops: seq<Op>, id: U64): Option<Proposal> {
    if ops == [] then None
    else
      var before, op := ops[..|ops| - 1], ops[|ops| - 1];
      if FoundedBy(before, id).Some? then FoundedBy(before, id)
      else if op.DoEstablish? && op.id == id && Establish(ApplyAll(map[], before), id, op.proposal).1 then
        Some(op.proposal)
      else None
  }

  /** The terms last agreed: those of its founding or of the last rotation that was accepted. */
  function TermsOf(ops: seq<Op>, id: U64): Option<Terms> {
    if ops == [] then None
    else
      var before, op := ops[..|ops| - 1], ops[|ops| - 1];
      var m := ApplyAll(map[], before);
      if op.DoEstablish? && op.id == id && Establish(m, id, op.proposal).1 then
        Some(Terms(op.proposal.epoch, op.proposal.keyId, op.proposal.expiresAt))
      else if op.DoRotate? && op.id == id && Rotate(m, id, op.epoch, op.keyId, op.now, op.expiresAt).1 then
        Some(Terms(op.epoch, op.keyId, op.expiresAt))
      else TermsOf(before, id)
  }

  /** The credential is complete, was issued by then, has not run out and is not revoked. */
  predicate Trusted(p: Peer, now: U64) {
    && p.endpoint.node != 0 && p.endpoint.runtime != 0 && p.endpoint.endpoint != 0
    && p.trustDomain != 0 && p.subject != 0 && p.revision != 0 && !p.revoked
    && p.authenticatedAt != 0 && p.authenticatedAt <= now && now < p.expiresAt
  }

  /** Within the terms, both ends trusted. */
  predicate InForce(p: Proposal, t: Terms, now: U64) {
    p.now <= now && now < t.expiresAt && Trusted(p.initiator, now) && Trusted(p.responder, now)
  }

  /** The call ends the session: a revocation, a close, or a sweep at a time when it is not in force. */
  predicate EndsNow(before: seq<Op>, op: Op, id: U64) {
    && FoundedBy(before, id).Some?
    && match op
       case DoRevoke(x) => x == id
       case DoClose(x) => x == id
       case DoExpire(now) =>
         TermsOf(before, id).Some? && !InForce(FoundedBy(before, id).value, TermsOf(before, id).value, now)
       case _ => false
  }

  predicate Ended(ops: seq<Op>, id: U64) {
    ops != [] && (Ended(ops[..|ops| - 1], id) || EndsNow(ops[..|ops| - 1], ops[|ops| - 1], id))
  }

  predicate WasClosed(ops: seq<Op>, id: U64) {
    && ops != []
    && (|| WasClosed(ops[..|ops| - 1], id)
        || (ops[|ops| - 1] == DoClose(id) && FoundedBy(ops[..|ops| - 1], id).Some?))
  }

  // ---- It is the story of the record -------------------------------------------------------------------------

  ghost predicate Tells(m: Sessions, ops: seq<Op>, id: U64) {
    && (id in m <==> FoundedBy(ops, id).Some?) && (id in m <==> TermsOf(ops, id).Some?)
    && (id in m ==> RecordTold(m[id], FoundedBy(ops, id).value, TermsOf(ops, id).value)
                    && (m[id].state == Active <==> !Ended(ops, id)) && (m[id].state == Closed <==> WasClosed(ops, id)))
    && (id !in m ==> !Ended(ops, id) && !WasClosed(ops, id))
  }

  predicate RecordTold(r: Record, p: Proposal, t: Terms) {
    && r.initiator == p.initiator && r.responder == p.responder && r.establishedAt == p.now
    && r.level == p.result.level && r.suite == p.result.suite
    && r.initiatorEpoch == p.initiatorOffer.epoch && r.initiatorToken == p.initiatorOffer.token
    && r.responderEpoch == p.responderOffer.epoch && r.responderToken == p.responderOffer.token
    && r.transcript == N.Transcript(p.initiatorOffer, p.responderOffer, p.result)
    && r.epoch == t.epoch && r.keyId == t.keyId && r.expiresAt == t.expiresAt
  }

  lemma ActiveExactly(r: Record, p: Proposal, t: Terms, now: U64)
    requires RecordTold(r, p, t)
    ensures r.ActiveAt(now) <==> r.state == Active && InForce(p, t, now)
  {
  }

  lemma StepTells(before: seq<Op>, op: Op, id: U64)
    requires Tells(ApplyAll(map[], before), before, id)
    ensures Tells(ApplyAll(map[], before + [op]), before + [op], id)
  {
    hide Acceptable, Record.ActiveAt, InForce, N.Transcript;
    var ops := before + [op];
    assert ops[..|ops| - 1] == before;
    var m := ApplyAll(map[], before);
    hide ApplyAll;
    assert ApplyAll(map[], ops) == Apply(m, op) by { LastCall(before, op); }
    if op.DoExpire? && id in m {
      ActiveExactly(m[id], FoundedBy(before, id).value, TermsOf(before, id).value, op.now);
    }
  }

  lemma LastCall(before: seq<Op>, op: Op)
    ensures ApplyAll(map[], before + [op]) == Apply(ApplyAll(map[], before), op)
  {
    assert (before + [op])[..|before|] == before;
  }

  lemma {:induction false} HistoryTells(ops: seq<Op>, id: U64)
    ensures Tells(ApplyAll(map[], ops), ops, id)
  {
    hide Tells;
    if ops == [] {
      NothingYet(id);
    } else {
      HistoryTells(ops[..|ops| - 1], id);
      assert ops == ops[..|ops| - 1] + [ops[|ops| - 1]];
      StepTells(ops[..|ops| - 1], ops[|ops| - 1], id);
    }
  }

  lemma NothingYet(id: U64)
    ensures Tells(ApplyAll(map[], []), [], id)
  {
  }

  // ---- What the registry answers -----------------------------------------------------------------------------

  /** In every run the record of a session is that of its proposal, under the terms last agreed. */
  lemma RecordsAreTold(ops: seq<Op>, id: U64)
    ensures id in ApplyAll(map[], ops) <==> FoundedBy(ops, id).Some?
    ensures id in ApplyAll(map[], ops) ==>
              && TermsOf(ops, id).Some?
              && RecordTold(ApplyAll(map[], ops)[id], FoundedBy(ops, id).value, TermsOf(ops, id).value)
              && (ApplyAll(map[], ops)[id].state == Active <==> !Ended(ops, id))
              && (ApplyAll(map[], ops)[id].state == Closed <==> WasClosed(ops, id))
  {
    hide ApplyAll, FoundedBy, TermsOf, Ended, WasClosed, RecordTold;
    HistoryTells(ops, id);
  }

  /** In every run a session names a sender exactly if it was founded, nothing ended it, and it is in force at that time
      under the terms last agreed; the sender is the initiator in the one direction and the responder in the other. */
  lemma NamesExactly(ops: seq<Op>, id: U64, direction: Direction, now: U64)
    ensures var sender := SenderIdentity(ApplyAll(map[], ops), id, direction, now);
            var founded, terms := FoundedBy(ops, id), TermsOf(ops, id);
            && (sender.Some? <==>
                  && direction != NoDirection && founded.Some? && terms.Some? && !Ended(ops, id)
                  && InForce(founded.value, terms.value, now))
            && (sender.Some? ==>
                  && var peer := if direction == InitiatorToResponder then founded.value.initiator
                                 else founded.value.responder;
                  sender.value == Sender(id, terms.value.epoch, terms.value.keyId, peer.trustDomain, peer.subject))
  {
    hide ApplyAll, FoundedBy, TermsOf, Ended, WasClosed, Record.ActiveAt, InForce;
    HistoryTells(ops, id);
    var m := ApplyAll(map[], ops);
    if id in m { ActiveExactly(m[id], FoundedBy(ops, id).value, TermsOf(ops, id).value, now); }
  }

  /** A session is founded exactly under a new number, by the result of the negotiation of its two offers, for two
      trusted ends that are the ones of the offers, and for no longer than either is trusted. */
  lemma FoundsExactly(ops: seq<Op>, id: U64, p: Proposal)
    ensures Establish(ApplyAll(map[], ops), id, p).1 <==>
            && id != 0 && FoundedBy(ops, id).None?
            && p.result.status == N.Accepted && N.Negotiate(p.initiatorOffer, p.responderOffer, p.policy) == p.result
            && p.epoch != 0 && p.keyId != 0 && p.now != 0 && p.now < p.expiresAt
            && p.initiator.endpoint == p.initiatorOffer.endpoint && p.responder.endpoint == p.responderOffer.endpoint
            && Trusted(p.initiator, p.now) && Trusted(p.responder, p.now)
            && p.expiresAt <= p.initiator.expiresAt && p.expiresAt <= p.responder.expiresAt
  {
    hide ApplyAll, FoundedBy, TermsOf, Ended, WasClosed, N.Negotiate;
    HistoryTells(ops, id);
  }

  /** A rotation is accepted exactly for a session that names senders at that time, to a higher epoch and another key,
      and for no longer than either end is trusted. */
  lemma RotatesExactly(ops: seq<Op>, id: U64, epoch: U64, keyId: U32, now: U64, expiresAt: U64)
    ensures Rotate(ApplyAll(map[], ops), id, epoch, keyId, now, expiresAt).1 <==>
            && FoundedBy(ops, id).Some? && TermsOf(ops, id).Some? && !Ended(ops, id)
            && var p, t := FoundedBy(ops, id).value, TermsOf(ops, id).value;
               && InForce(p, t, now) && epoch > t.epoch && keyId != 0 && keyId != t.keyId
               && now < expiresAt && expiresAt <= p.initiator.expiresAt && expiresAt <= p.responder.expiresAt
  {
    hide ApplyAll, FoundedBy, TermsOf, Ended, WasClosed, Record.ActiveAt, InForce;
    HistoryTells(ops, id);
    var m := ApplyAll(map[], ops);
    if id in m { ActiveExactly(m[id], FoundedBy(ops, id).value, TermsOf(ops, id).value, now); }
  }

  /** What can be ended is what was founded and has not ended; what can be closed, what was founded and not closed;
      and a sweep ends exactly the sessions that have not ended and are not in force. */
  lemma EndsExactly(ops: seq<Op>, id: U64, now: U64)
    ensures var m := ApplyAll(map[], ops);
            && (Revoke(m, id).1 <==> FoundedBy(ops, id).Some? && !Ended(ops, id))
            && (Close(m, id).1 <==> FoundedBy(ops, id).Some? && !WasClosed(ops, id))
            && (id in Expiring(m, now) <==> !Ended(ops, id) && EndsNow(ops, DoExpire(now), id))
  {
    hide ApplyAll, FoundedBy, TermsOf, Ended, WasClosed, Record.ActiveAt, InForce;
    HistoryTells(ops, id);
    var m := ApplyAll(map[], ops);
    if id in m { ActiveExactly(m[id], FoundedBy(ops, id).value, TermsOf(ops, id).value, now); }
  }
}
