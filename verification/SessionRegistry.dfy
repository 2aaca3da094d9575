/** The registry of secured sessions: establishment from a negotiation, rotation, revocation, closing, expiry. */
module SessionRegistry {

  import opened Basics
  import opened Negotiation

  datatype Peer = Peer(endpoint: Endpoint, trustDomain: U32, subject: U64, revision: U64, authenticatedAt: U64,
                       expiresAt: U64, revoked: bool)
  {
    predicate ValidAt(now: U64) {
      && endpoint.node != 0 && endpoint.runtime != 0 && endpoint.endpoint != 0 && trustDomain != 0 && subject != 0
      && revision != 0 && authenticatedAt != 0 && authenticatedAt <= now && expiresAt > now && !revoked
    }
  }

  datatype State = Active | Expired | Revoked | Closed

  datatype Record = Record(
    epoch: U64, keyId: U32, level: U8, suite: U16, initiator: Peer, responder: Peer,
    initiatorEpoch: U64, initiatorToken: U64, responderEpoch: U64, responderToken: U64,
    transcript: Bytes, establishedAt: U64, activatedAt: U64, expiresAt: U64, state: State)
  {
    predicate ActiveAt(now: U64) {
      state == Active && establishedAt <= now < expiresAt && initiator.ValidAt(now) && responder.ValidAt(now)
    }
  }

  type Sessions = map<U64, Record>

  /** What a call of establish brings. */
  datatype Proposal = Proposal(
    initiatorOffer: Offer, responderOffer: Offer, policy: Policy, result: Result, initiator: Peer, responder: Peer,
    epoch: U64, keyId: U32, now: U64, expiresAt: U64)

  predicate Acceptable(p: Proposal) {
    && p.result.status == Accepted && Negotiate(p.initiatorOffer, p.responderOffer, p.policy) == p.result
    && p.epoch != 0 && p.keyId != 0 && p.now != 0 && p.expiresAt > p.now
    && p.initiator.endpoint == p.initiatorOffer.endpoint && p.responder.endpoint == p.responderOffer.endpoint
    && p.initiator.ValidAt(p.now) && p.responder.ValidAt(p.now)
    && p.initiator.expiresAt >= p.expiresAt && p.responder.expiresAt >= p.expiresAt
  }

  function NewRecord(p: Proposal): Record {
    Record(p.epoch, p.keyId, p.result.level, p.result.suite, p.initiator, p.responder,
           p.initiatorOffer.epoch, p.initiatorOffer.token, p.responderOffer.epoch, p.responderOffer.token,
           Transcript(p.initiatorOffer, p.responderOffer, p.result), p.now, p.now, p.expiresAt, Active)
  }

  function Establish(m: Sessions, id: U64, p: Proposal): (Sessions, bool) {
    if id == 0 || id in m || !Acceptable(p) then (m, false) else (m[id := NewRecord(p)], true)
  }

  function Rotate(m: Sessions, id: U64, epoch: U64, keyId: U32, now: U64, expiresAt: U64): (Sessions, bool) {
    if id !in m then (m, false)
    else
      var r := m[id];
      if !r.ActiveAt(now) || epoch <= r.epoch || keyId == 0 || keyId == r.keyId || expiresAt <= now ||
         expiresAt > r.initiator.expiresAt || expiresAt > r.responder.expiresAt
      then (m, false)
      else (m[id := r.(epoch := epoch, keyId := keyId, activatedAt := now, expiresAt := expiresAt)], true)
  }

  function Revoke(m: Sessions, id: U64): (Sessions, bool) {
    if id !in m || m[id].state != Active then (m, false) else (m[id := m[id].(state := Revoked)], true)
  }

  function Close(m: Sessions, id: U64): (Sessions, bool) {
    if id !in m || m[id].state == Closed then (m, false) else (m[id := m[id].(state := Closed)], true)
  }

  predicate RunsOut(r: Record, now: U64) { r.state == Active && !r.ActiveAt(now) }

  function Expire(m: Sessions, now: U64): Sessions {
    map id | id in m :: if RunsOut(m[id], now) then m[id].(state := Expired) else m[id]
  }

  function Expiring(m: Sessions, now: U64): set<U64> {
    set id | id in m && RunsOut(m[id], now)
  }

  datatype Sender = Sender(session: U64, epoch: U64, keyId: U32, trustDomain: U32, subject: U64)

  datatype Direction = InitiatorToResponder | ResponderToInitiator | NoDirection

  function SenderIdentity(m: Sessions, id: U64, direction: Direction, now: U64): Option<Sender> {
    if id !in m || !m[id].ActiveAt(now) || direction == NoDirection then None
    else
      var peer := if direction == InitiatorToResponder then m[id].initiator else m[id].responder;
      Some(Sender(id, m[id].epoch, m[id].keyId, peer.trustDomain, peer.subject))
  }

  // ---- Runs --------------------------------------------------------------------------------------------------

  datatype Op =
    | DoEstablish(id: U64, proposal: Proposal)
    | DoRotate(id: U64, epoch: U64, keyId: U32, now: U64, expiresAt: U64)
    | DoRevoke(id: U64)
    | DoClose(id: U64)
    | DoExpire(now: U64)

  function Apply(m: Sessions, op: Op): Sessions {
    match op
    case DoEstablish(id, p) => Establish(m, id, p).0
    case DoRotate(id, epoch, keyId, now, expiresAt) => Rotate(m, id, epoch, keyId, now, expiresAt).0
    case DoRevoke(id) => Revoke(m, id).0
    case DoClose(id) => Close(m, id).0
    case DoExpire(now) => Expire(m, now)
  }

  function ApplyAll(m: Sessions, ops: seq<Op>): Sessions {
    if ops == [] then m else Apply(ApplyAll(m, ops[..|ops| - 1]), ops[|ops| - 1])
  }

  /** How a record may differ from an earlier one of its session: same parties, level, suite and transcript; the
      key changes only together with a higher epoch; and an ended session stays ended. */
  predicate Succeeds(r: Record, s: Record) {
    && s.initiator == r.initiator && s.responder == r.responder && s.level == r.level && s.suite == r.suite
    && s.transcript == r.transcript && s.establishedAt == r.establishedAt
    && r.epoch <= s.epoch && (r.epoch == s.epoch ==> r.keyId == s.keyId)
    && (r.state != Active ==> s.state != Active && s.epoch == r.epoch)
    && (r.state == Closed ==> s.state == Closed)
  }

  lemma OpSucceeds(m: Sessions, op: Op, id: U64)
    requires id in m
    ensures id in Apply(m, op) && Succeeds(m[id], Apply(m, op)[id])
  {
  }

  lemma SucceedsTransitively(r: Record, s: Record, t: Record)
    requires Succeeds(r, s) && Succeeds(s, t)
    ensures Succeeds(r, t)
  {
  }

  /** Sessions only ever move forward, whatever is called in whatever order and with whatever clock. */
  lemma {:induction false} SessionsMoveForward(m: Sessions, ops: seq<Op>, id: U64)
    requires id in m
    ensures id in ApplyAll(m, ops) && Succeeds(m[id], ApplyAll(m, ops)[id])
  {
    hide Succeeds, Apply;
    if ops != [] {
      var before := ops[..|ops| - 1];
      SessionsMoveForward(m, before, id);
      OpSucceeds(ApplyAll(m, before), ops[|ops| - 1], id);
      SucceedsTransitively(m[id], ApplyAll(m, before)[id], ApplyAll(m, ops)[id]);
    } else {
      SucceedsItself(m[id]);
    }
  }

  lemma SucceedsItself(r: Record)
    ensures Succeeds(r, r)
  {
  }

  /** Once a session has expired, was revoked or closed, it never again names a sender; and two senders it named
      with one epoch have one key. */
  lemma EndedSessionsNameNoSender(m: Sessions, ops: seq<Op>, id: U64, direction: Direction, now: U64)
    requires id in m && m[id].state != Active
    ensures SenderIdentity(ApplyAll(m, ops), id, direction, now) == None
  {
    SessionsMoveForward(m, ops, id);
  }

  lemma OneKeyPerEpoch(m: Sessions, ops: seq<Op>, id: U64, d: Direction, t: U64, d': Direction, t': U64)
    requires SenderIdentity(m, id, d, t).Some? && SenderIdentity(ApplyAll(m, ops), id, d', t').Some?
    ensures var s, s' := SenderIdentity(m, id, d, t).value, SenderIdentity(ApplyAll(m, ops), id, d', t').value;
            s.epoch <= s'.epoch && (s.epoch == s'.epoch ==> s.keyId == s'.keyId)
  {
    SessionsMoveForward(m, ops, id);
  }

  /** What every registered session satisfies: its lifetime lies within both credentials, and its suite supports
      its level. */
  predicate RecordOk(r: Record) {
    && r.epoch != 0 && r.keyId != 0 && r.establishedAt < r.expiresAt
    && r.expiresAt <= r.initiator.expiresAt && r.expiresAt <= r.responder.expiresAt
    && Supports(r.suite, r.level) && KnownLevel(r.level) && r.transcript != []
    && r.establishedAt <= r.activatedAt < r.expiresAt
  }

  lemma {:induction false} RegisteredSessionsAreSound(ops: seq<Op>, id: U64)
    requires id in ApplyAll(map[], ops)
    ensures id != 0 && RecordOk(ApplyAll(map[], ops)[id])
  {
    if ops != [] {
      var before, op := ops[..|ops| - 1], ops[|ops| - 1];
      var m := ApplyAll(map[], before);
      if id in m {
        RegisteredSessionsAreSound(before, id);
      } else {
        NewRecordOk(op.proposal);
      }
    }
  }

  lemma NewRecordOk(p: Proposal)
    requires Acceptable(p)
    ensures RecordOk(NewRecord(p))
  {
    NegotiationIsFair(p.initiatorOffer, p.responderOffer, p.policy);
  }

  // ---- In place ----------------------------------------------------------------------------------------------

  class SecuredSessions {
    var sessions: Sessions

    constructor ()
      ensures sessions == map[]
    {
      sessions := map[];
    }

    method EstablishSession(id: U64, p: Proposal) returns (ok: bool)
      modifies this
      ensures (sessions, ok) == Establish(old(sessions), id, p)
    {
      var expected := NegotiateInOrder(p.initiatorOffer, p.responderOffer, p.policy);
      if p.result.status != Accepted || expected.status != Accepted || p.result.required != expected.required ||
         p.result.level != expected.level || p.result.suite != expected.suite || id == 0 || p.epoch == 0 ||
         p.keyId == 0 || p.now == 0 || p.expiresAt <= p.now || id in sessions || !p.initiatorOffer.Valid() ||
         !p.responderOffer.Valid() || p.initiator.endpoint != p.initiatorOffer.endpoint ||
         p.responder.endpoint != p.responderOffer.endpoint || !p.initiator.ValidAt(p.now) ||
         !p.responder.ValidAt(p.now) || p.initiator.expiresAt < p.expiresAt || p.responder.expiresAt < p.expiresAt
      {
        return false;
      }
      AcceptedHasTranscript(p.initiatorOffer, p.responderOffer, p.policy);
      var transcript := EncodeTranscript(p.initiatorOffer, p.responderOffer, p.result);
      if transcript.None? {
        return false;
      }
      sessions := sessions[id := Record(
        p.epoch, p.keyId, p.result.level, p.result.suite, p.initiator, p.responder, p.initiatorOffer.epoch,
        p.initiatorOffer.token, p.responderOffer.epoch, p.responderOffer.token, transcript.value, p.now, p.now,
        p.expiresAt, Active)];
      return true;
    }

    method RotateKey(id: U64, epoch: U64, keyId: U32, now: U64, expiresAt: U64) returns (ok: bool)
      modifies this
      ensures (sessions, ok) == Rotate(old(sessions), id, epoch, keyId, now, expiresAt)
    {
      if id !in sessions {
        return false;
      }
      var r := sessions[id];
      if !r.ActiveAt(now) || epoch <= r.epoch || keyId == 0 || keyId == r.keyId || expiresAt <= now ||
         expiresAt > r.initiator.expiresAt || expiresAt > r.responder.expiresAt
      {
        return false;
      }
      sessions := sessions[id := r.(epoch := epoch, keyId := keyId, activatedAt := now, expiresAt := expiresAt)];
      return true;
    }

    method RevokeSession(id: U64) returns (ok: bool)
      modifies this
      ensures (sessions, ok) == Revoke(old(sessions), id)
    {
      if id !in sessions || sessions[id].state != Active {
        return false;
      }
      sessions := sessions[id := sessions[id].(state := Revoked)];
      return true;
    }

    method CloseSession(id: U64) returns (ok: bool)
      modifies this
      ensures (sessions, ok) == Close(old(sessions), id)
    {
      if id !in sessions || sessions[id].state == Closed {
        return false;
      }
      sessions := sessions[id := sessions[id].(state := Closed)];
      return true;
    }

    method ExpireSessions(now: U64) returns (count: nat)
      modifies this
      ensures sessions == Expire(old(sessions), now) && count == |Expiring(old(sessions), now)|
      ensures Expiring(sessions, now) == {}
    {
      count := 0;
      ghost var was, expired: set<U64> := sessions, {};
      var pending := sessions.Keys;
      while pending != {}
        invariant sessions.Keys == was.Keys && pending <= was.Keys
        invariant forall id :: id in was && id in pending ==> sessions[id] == was[id]
        invariant forall id :: id in was && id !in pending ==>
                    sessions[id] == if RunsOut(was[id], now) then was[id].(state := Expired) else was[id]
        invariant count == |expired|
        invariant forall id :: id in expired <==> id in Expiring(was, now) && id !in pending
        decreases pending
      {
        var id :| id in pending;
        pending := pending - {id};
        var r := sessions[id];
        if r.state == Active && !r.ActiveAt(now) {
          sessions := sessions[id := r.(state := Expired)];
          count, expired := count + 1, expired + {id};
        }
      }
      assert expired == Expiring(was, now);
      assert sessions == Expire(was, now);
    }
  }
}
