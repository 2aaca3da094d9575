/** When exactly each call of the handshake succeeds, and what a finished message proves. */
module HandshakeOutcomes {

  import opened Basics
  import opened Wire
  import opened HandshakeMessages
  import opened Handshake
  import opened HandshakeAgreement
  import HashChain
  import N = Negotiation
  import R = SessionRegistry
  import Sha256Standard

  // ---- When a call succeeds ----------------------------------------------------------------------------------

  /** What an end must bring along. */
  predicate Equipped(l: Local) {
    && l.offer.Valid() && |l.private| == 32 && |l.public| == 32 && l.trustDomain > 0 && l.subject > 0
  }

  /** A handshake starts exactly at an initiator that has not started, with valid local data. */
  lemma StartsExactly(c: Crypto, e: End, l: Local)
    requires Lawful(c)
    ensures Start(c, e, l.offer, l.trustDomain, l.subject, l.private, l.public, l.ephemeral).Some? <==>
            e.role == Initiator && e.state == Uninitialized && Equipped(l)
  {
    hide ClientInput, AfterClientHello, EncodeClientHello, Wrap, ReadClientHello;
    if Equipped(l) {
      var h := HelloOf(c, l);
      ClientFrame(h, Sign(c, l.private, ClientInput(h)));
    }
  }

  /** A client hello is answered exactly by a responder that has not answered yet, with a valid policy and local data,
      if it can be read, its offer negotiates, its signature verifies, the verifier accepts its key and the keys can be
      exchanged. */
  lemma AnswersExactly(c: Crypto, v: Verifier, e: End, frame: Bytes, p: N.Policy, l: Local)
    requires Lawful(c)
    ensures OnClientHello(c, v, e, frame, p, l).Some? <==>
            && e.role == Responder && e.state == Uninitialized && p.Valid() && Equipped(l)
            && ReadClientHello(frame).Some?
            && var (h, signature) := ReadClientHello(frame).value;
               var n := N.Negotiate(h.offer, l.offer, p);
               && n.status == N.Accepted && Verifies(c, h.publicKey, ClientInput(h), signature)
               && Authenticate(v, h.offer, N.Transcript(h.offer, l.offer, n), h.publicKey, NOW).Some?
               && Exchange(c, l.ephemeral, h.ephemeral).Some?
  {
    hide ClientInput, AfterClientHello, AfterServerHello, ServerInput, EncodeServerHello, Wrap, ReadClientHello,
      ReadServerHello, N.Transcript, N.Negotiate, DeriveKeys, Exchange;
    if ReadClientHello(frame).Some? && p.Valid() && Equipped(l) {
      var (h, signature) := ReadClientHello(frame).value;
      var n := N.Negotiate(h.offer, l.offer, p);
      if n.status == N.Accepted {
        N.AcceptedHasTranscript(h.offer, l.offer, p);
        var mine := HelloOf(c, l);
        var h1 := AfterClientHello(h, signature);
        var mySignature := Sign(c, l.private, ServerInput(h1, mine, n));
        ServerFrame(mine, n, mySignature);
        KeysExactly(c, AfterServerHello(h1, mine, n, mySignature, N.Transcript(h.offer, l.offer, n)), n.suite,
                    l.ephemeral, h.ephemeral);
      }
    }
  }

  lemma KeysExactly(c: Crypto, h2: Bytes, suite: U16, private: Bytes, public: Bytes)
    ensures DeriveKeys(c, h2, suite, private, public).Some? <==> Exchange(c, private, public).Some?
  {
    hide Exchange;
  }
  ghost predicate Sized(c: Crypto) {
    forall prk, info, k: nat :: |c.expand(prk, info, k)| == k
  }

  lemma FirstFinishedExists(c: Crypto, h2: Bytes, suite: U16, private: Bytes, public: Bytes)
    requires Sized(c) && |h2| == DIGEST_BYTES && DeriveKeys(c, h2, suite, private, public).Some?
    ensures var keys := DeriveKeys(c, h2, suite, private, public).value;
            && Finished(keys.initiatorFinished, h2).Some?
            && FinishedFrame(CLIENT_FINISHED, Finished(keys.initiatorFinished, h2).value).Some?
  {
    hide DeriveKeys, Sha256Standard.Hmac;
    KeySizes(c, h2, suite, private, public);
    var keys := DeriveKeys(c, h2, suite, private, public).value;
    FinishedFrames(CLIENT_FINISHED, Finished(keys.initiatorFinished, h2).value);
  }

  lemma SecondHashLength(h1: Bytes, h: Hello, n: N.Result, signature: Bytes, transcript: Bytes)
    ensures |AfterServerHello(h1, h, n, signature, transcript)| == DIGEST_BYTES
  {
    hide Absorb;
    DigestLength(Absorb(Absorb(h1, ServerPrefix(h, n)), signature), transcript);
  }

  /** A server hello is accepted exactly by an initiator that waits for it, if it can be read, its signature verifies
      over this transcript, its result has one, the verifier accepts its key and the keys can be exchanged. */
  lemma AcceptsExactly(c: Crypto, v: Verifier, e: End, frame: Bytes)
    requires Sized(c)
    ensures OnServerHello(c, v, e, frame).Some? <==>
            && e.role == Initiator && e.state == ClientHelloSent && ReadServerHello(frame).Some?
            && var (h, n, signature) := ReadServerHello(frame).value;
               && Verifies(c, h.publicKey, ServerInput(e.h1, h, n), signature)
               && N.Transcribable(e.clientOffer, h.offer, n)
               && Authenticate(v, h.offer, N.Transcript(e.clientOffer, h.offer, n), h.publicKey, NOW).Some?
               && Exchange(c, e.ephemeralPrivate, h.ephemeral).Some?
  {
    hide AfterServerHello, ServerInput, ReadServerHello, N.Transcript, N.Transcribable, DeriveKeys, Exchange, Finished,
      FinishedFrame, Absorb, Sized;
    if ReadServerHello(frame).Some? {
      var (h, n, signature) := ReadServerHello(frame).value;
      var h2 := AfterServerHello(e.h1, h, n, signature, N.Transcript(e.clientOffer, h.offer, n));
      SecondHashLength(e.h1, h, n, signature, N.Transcript(e.clientOffer, h.offer, n));
      KeysExactly(c, h2, n.suite, e.ephemeralPrivate, h.ephemeral);
      if DeriveKeys(c, h2, n.suite, e.ephemeralPrivate, h.ephemeral).Some? {
        FirstFinishedExists(c, h2, n.suite, e.ephemeralPrivate, h.ephemeral);
      }
    }
  }

  /** The client's finished message is taken exactly by a responder that waits for it, if it is the code of the
      transcript under the initiator's finished key, and the session can be registered; what is answered then is ready
      beforehand. */
  lemma ClientFinishedExactly(e: End, m: R.Sessions, frame: Bytes)
    requires |e.keys.initiatorFinished| == 32 && |e.keys.responderFinished| == 32 && |e.h2| == DIGEST_BYTES
    ensures var done := OnClientFinished(e, m, frame);
            && (done.Some? <==>
                  && e.role == Responder && e.state == ServerHelloSent
                  && ReadFinished(CLIENT_FINISHED, frame) == Some(Sha256Standard.Hmac(e.keys.initiatorFinished, e.h2))
                  && R.Establish(m, IdOf(e), ProposalOf(e)).1)
            && (done.Some? ==>
                  && PreparedFinished(e, frame) == Some(done.value.2) == Some(LeftForClient(e, frame))
                  && ReadFinished(SERVER_FINISHED, done.value.2) ==
                     Some(Sha256Standard.Hmac(e.keys.responderFinished, done.value.0.h3)))
            && (PreparedFinished(e, frame).Some? <==>
                  && e.role == Responder && e.state == ServerHelloSent
                  && ReadFinished(CLIENT_FINISHED, frame) == Some(Sha256Standard.Hmac(e.keys.initiatorFinished, e.h2)))
  {
    hide ReadFinished, FinishedFrame, Absorb, IdOf, ProposalOf, R.Establish, Sha256Standard.Hmac;
    var verifyData := Sha256Standard.Hmac(e.keys.initiatorFinished, e.h2);
    var h3 := Absorb(e.h2, verifyData);
    DigestLength(e.h2, verifyData);
    FinishedFrames(SERVER_FINISHED, Sha256Standard.Hmac(e.keys.responderFinished, h3));
  }

  /** And the server's exactly by an initiator that waits for it, if it is the code of its transcript under the
      responder's finished key. */
  lemma ServerFinishedExactly(e: End, m: R.Sessions, frame: Bytes)
    requires e.keys.responderFinished != [] && e.h3 != []
    ensures OnServerFinished(e, m, frame).Some? <==>
            && e.role == Initiator && e.state == ClientFinishedSent
            && ReadFinished(SERVER_FINISHED, frame) == Some(Sha256Standard.Hmac(e.keys.responderFinished, e.h3))
            && R.Establish(m, IdOf(e), ProposalOf(e)).1
  {
    hide ReadFinished, Absorb, IdOf, ProposalOf, R.Establish, Sha256Standard.Hmac;
  }

  // ---- What a finished message proves ------------------------------------------------------------------------

  /** The finished messages an end absorbed are codes of its own transcript under its own keys. */
  predicate Confirms(e: End, log: seq<Bytes>) {
    && (e.state == ClientFinishedSent || e.state == Active ==>
          |log| >= 6 && log[5] == Sha256Standard.Hmac(e.keys.initiatorFinished, e.h2))
    && (e.state == ClientFinishedSent ==> e.h3 == Absorb(e.h2, log[5]))
    && (e.state == Active ==>
          |log| == 7 && log[6] == Sha256Standard.Hmac(e.keys.responderFinished, Absorb(e.h2, log[5])))
  }

  lemma AcceptSends(c: Crypto, v: Verifier, e: End, h: Hello, n: N.Result, signature: Bytes)
    ensures var answer, more := AcceptHello(c, v, e, h, n, signature), FromServerHello(c, e, h, n, signature);
            answer.Some? ==>
              var e' := answer.value.0;
              && e'.state == ClientFinishedSent && |more| == 4
              && more[3] == Sha256Standard.Hmac(e'.keys.initiatorFinished, e'.h2) && e'.h3 == Absorb(e'.h2, more[3])
  {
    hide AfterServerHello, ServerInput, N.EncodeTranscript, DeriveKeys, FinishedFrame, Absorb, Verifies, Authenticate,
      Sha256Standard.Hmac, ServerPrefix;
  }

  lemma AcceptConfirms(c: Crypto, v: Verifier, e: End, frame: Bytes, log: seq<Bytes>)
    requires e.state == ClientHelloSent ==> |log| == 2
    ensures var answer := OnServerHello(c, v, e, frame);
            answer.Some? ==> Confirms(answer.value.0, log + Absorbed(c, e, CallServerHello(frame)))
  {
    hide AcceptHello, FromServerHello, FromHello, ReadServerHello, ReadClientHello, Absorb, Absorbed,
      Sha256Standard.Hmac;
    AbsorbedFromServer(c, e, frame);
    if e.role == Initiator && e.state == ClientHelloSent && ReadServerHello(frame).Some? {
      var (h, n, signature) := ReadServerHello(frame).value;
      AcceptSends(c, v, e, h, n, signature);
    }
  }

  /** What a call with a finished message adds. */
  lemma ClientFinishedCodes(c: Crypto, e: End, m: R.Sessions, frame: Bytes)
    requires OnClientFinished(e, m, frame).Some?
    ensures var e', more := OnClientFinished(e, m, frame).value.0, Absorbed(c, e, CallClientFinished(frame));
            && e.state == ServerHelloSent && e'.state == Active && e'.keys == e.keys && e'.h2 == e.h2 && |more| == 2
            && more[0] == Sha256Standard.Hmac(e.keys.initiatorFinished, e.h2)
            && more[1] == Sha256Standard.Hmac(e.keys.responderFinished, Absorb(e.h2, more[0]))
  {
    hide ReadFinished, FinishedFrame, Absorb, IdOf, ProposalOf, R.Establish, Sha256Standard.Hmac,
      ReadClientHello, ReadServerHello, FromHello, FromServerHello, ClientPrefix, HelloOf, FirstSignature;
  }

  lemma ServerFinishedCodes(c: Crypto, e: End, m: R.Sessions, frame: Bytes)
    requires OnServerFinished(e, m, frame).Some?
    ensures var e', more := OnServerFinished(e, m, frame).value.0, Absorbed(c, e, CallServerFinished(frame));
            && e.state == ClientFinishedSent && e'.state == Active && e'.keys == e.keys && e'.h2 == e.h2 && |more| == 1
            && more[0] == Sha256Standard.Hmac(e.keys.responderFinished, e.h3)
  {
    hide ReadFinished, Absorb, IdOf, ProposalOf, R.Establish, Sha256Standard.Hmac,
      ReadClientHello, ReadServerHello, FromHello, FromServerHello, ClientPrefix, HelloOf, FirstSignature;
  }

  lemma ClientFinishedConfirms(c: Crypto, e: End, m: R.Sessions, frame: Bytes, log: seq<Bytes>)
    requires e.state == ServerHelloSent ==> |log| == 5
    ensures var done := OnClientFinished(e, m, frame);
            done.Some? ==> Confirms(done.value.0, log + Absorbed(c, e, CallClientFinished(frame)))
  {
    hide OnClientFinished, Absorbed, Absorb, Sha256Standard.Hmac;
    if OnClientFinished(e, m, frame).Some? { ClientFinishedCodes(c, e, m, frame); }
  }

  lemma ServerFinishedConfirms(c: Crypto, e: End, m: R.Sessions, frame: Bytes, log: seq<Bytes>)
    requires Confirms(e, log) && (e.state == ClientFinishedSent ==> |log| == 6)
    ensures var done := OnServerFinished(e, m, frame);
            done.Some? ==> Confirms(done.value.0, log + Absorbed(c, e, CallServerFinished(frame)))
  {
    hide OnServerFinished, Absorbed, Absorb, Sha256Standard.Hmac;
    if OnServerFinished(e, m, frame).Some? { ServerFinishedCodes(c, e, m, frame); }
  }

  lemma LogLength(c: Crypto, e: End, m: R.Sessions, log: seq<Bytes>)
    requires Follows(c, e, m, log)
    ensures e.state == ClientHelloSent ==> |log| == 2
    ensures e.state == ServerHelloSent ==> |log| == 5
    ensures e.state == ClientFinishedSent ==> |log| == 6
  {
    hide Opened, Keyed, Registered, Chain;
  }

  lemma NothingToConfirm(e: End, log: seq<Bytes>)
    ensures e.state != ClientFinishedSent && e.state != Active ==> Confirms(e, log)
  {
  }

  lemma DoConfirms(c: Crypto, v: Verifier, e: End, m: R.Sessions, call: Call, log: seq<Bytes>)
    requires Follows(c, e, m, log) && Confirms(e, log)
    ensures var (e', _, ok) := Do(c, v, e, m, call);
            Confirms(e', log + if ok then Absorbed(c, e, call) else [])
  {
    hide Start, OnClientHello, OnServerHello, OnClientFinished, OnServerFinished, Absorbed, Follows, Absorb, Confirms;
    CallsKeepTheirOrder(c, v, e, m, call);
    NothingToConfirm(Do(c, v, e, m, call).0, log + if Do(c, v, e, m, call).2 then Absorbed(c, e, call) else []);
    LogLength(c, e, m, log);
    match call {
      case CallStart(_) =>
      case CallClientHello(_, _, _) =>
      case CallServerHello(frame) => AcceptConfirms(c, v, e, frame, log);
      case CallClientFinished(frame) => ClientFinishedConfirms(c, e, m, frame, log);
      case CallServerFinished(frame) => ServerFinishedConfirms(c, e, m, frame, log);
    }
  }

  lemma {:induction false} RunConfirms(c: Crypto, v: Verifier, e: End, m: R.Sessions, calls: seq<Call>, log: seq<Bytes>)
    requires Lawful(c) && Follows(c, e, m, log) && Confirms(e, log)
    ensures Confirms(DoAll(c, v, e, m, calls).0, log + AbsorbedAll(c, v, e, m, calls))
    decreases |calls|
  {
    hide Do, Follows, Absorbed, Lawful, Confirms;
    if calls == [] {
      assert log + [] == log;
    } else {
      var (e', m', ok) := Do(c, v, e, m, calls[0]);
      var more := if ok then Absorbed(c, e, calls[0]) else [];
      DoFollows(c, v, e, m, calls[0], log);
      DoConfirms(c, v, e, m, calls[0], log);
      RunConfirms(c, v, e', m', calls[1..], log + more);
      var rest := AbsorbedAll(c, v, e', m', calls[1..]);
      assert log + more + rest == log + (more + rest);
    }
  }

  /** A code that two computations share is of one key and one text. */
  predicate NoCodeCollision(key: Bytes, text: Bytes, key': Bytes, text': Bytes) {
    Sha256Standard.Hmac(key, text) == Sha256Standard.Hmac(key', text') ==> key == key' && text == text'
  }

  lemma SixMessages(c: Crypto, e: End, m: R.Sessions, log: seq<Bytes>)
    requires Follows(c, e, m, log) && (e.state == ClientFinishedSent || e.state == Active)
    ensures Opened(c, e, log) && Keyed(c, e, log) && |log| >= 6
  {
    hide Chain;
  }

  /** The responder took the finished message that the initiator sent, no two of the strings they hashed share a
      digest, and no code of one is a code of something else. */
  predicate TookFinished(i: End, a: seq<Bytes>, r: End, b: seq<Bytes>) {
    && (i.state == ClientFinishedSent || i.state == Active) && r.state == Active
    && |a| >= 6 && |b| >= 6 && a[5] == b[5] && HashChain.NoCollision(Inputs(a) + Inputs(b))
    && NoCodeCollision(i.keys.initiatorFinished, i.h2, r.keys.initiatorFinished, r.h2)
  }

  predicate AgreeOnKeys(i: End, a: seq<Bytes>, r: End, b: seq<Bytes>) {
    && |a| >= 6 && |b| >= 6 && a[..6] == b[..6] && i.h2 == r.h2 && i.keys == r.keys && i.result == r.result
    && i.clientOffer == r.clientOffer && i.serverOffer == r.serverOffer
  }

  /** Over any calls and any bytes: if the finished message that an active responder took is the one an initiator
      sent, then - unless two codes or two digests collide - both ends absorbed the same messages up to then, and hold
      the same offers, result and keys: taking the peer's finished message is knowing that it agrees. */
  lemma FinishedAgrees(c: Crypto, vi: Verifier, vr: Verifier, mi: R.Sessions, mr: R.Sessions, ci: seq<Call>,
                       cr: seq<Call>)
    requires Lawful(c)
    ensures var i, r := DoAll(c, vi, NewEnd(Initiator), mi, ci).0, DoAll(c, vr, NewEnd(Responder), mr, cr).0;
            var a, b := AbsorbedAll(c, vi, NewEnd(Initiator), mi, ci), AbsorbedAll(c, vr, NewEnd(Responder), mr, cr);
            TookFinished(i, a, r, b) ==> AgreeOnKeys(i, a, r, b)
  {
    hide DoAll, AbsorbedAll, Lawful, Follows, Confirms, TookFinished, AgreeOnKeys;
    var a, b := AbsorbedAll(c, vi, NewEnd(Initiator), mi, ci), AbsorbedAll(c, vr, NewEnd(Responder), mr, cr);
    EndStands(c, vi, Initiator, mi, ci);
    EndStands(c, vr, Responder, mr, cr);
    var (i, mi') := DoAll(c, vi, NewEnd(Initiator), mi, ci);
    var (r, mr') := DoAll(c, vr, NewEnd(Responder), mr, cr);
    if TookFinished(i, a, r, b) { TakenMeansAgreed(c, i, mi', a, r, mr', b); }
  }

  /** Where a new end stands after any calls. */
  lemma EndStands(c: Crypto, v: Verifier, role: Role, m: R.Sessions, calls: seq<Call>)
    requires Lawful(c)
    ensures var (e, m') := DoAll(c, v, NewEnd(role), m, calls);
            var log := AbsorbedAll(c, v, NewEnd(role), m, calls);
            e.role == role && Follows(c, e, m', log) && Confirms(e, log)
  {
    hide *;
    FreshFollows(c, role, m);
    FreshConfirms(role);
    var log := AbsorbedAll(c, v, NewEnd(role), m, calls);
    assert [] + log == log;
    RunFollows(c, v, NewEnd(role), m, calls, []);
    RunConfirms(c, v, NewEnd(role), m, calls, []);
  }

  lemma TakenMeansAgreed(c: Crypto, i: End, mi: R.Sessions, a: seq<Bytes>, r: End, mr: R.Sessions, b: seq<Bytes>)
    requires Lawful(c) && i.role == Initiator && r.role == Responder && TookFinished(i, a, r, b)
    requires Follows(c, i, mi, a) && Follows(c, r, mr, b) && Confirms(i, a) && Confirms(r, b)
    ensures AgreeOnKeys(i, a, r, b)
  {
    hide Follows, HashChain.NoCollision, Inputs, Lawful, Opened, Keyed, Sha256Standard.Hmac, Absorb;
    SixMessages(c, i, mi, a);
    SixMessages(c, r, mr, b);
    SameUpToHashes(c, i, a, r, b);
  }

  lemma FreshFollows(c: Crypto, role: Role, m: R.Sessions)
    ensures Follows(c, NewEnd(role), m, [])
  {
    hide Chain, Opened, Keyed, Registered;
  }

  lemma FreshConfirms(role: Role)
    ensures Confirms(NewEnd(role), []) && NewEnd(role).role == role
  {
    hide Sha256Standard.Hmac, Absorb;
  }

  lemma FirstFive(c: Crypto, e: End, log: seq<Bytes>)
    requires Opened(c, e, log) && Keyed(c, e, log)
    ensures |log| >= 5 && Opened(c, e, log[..5]) && Keyed(c, e, log[..5]) && e.h2 == Chain(log[..5])
  {
    hide Chain, ClientPrefix, ServerPrefix, DeriveKeys, Hello.Valid, PublicOf;
    assert log[..5][..2] == log[..2] && log[..5][..5] == log[..5];
  }

  lemma SameUpToHashes(c: Crypto, i: End, a: seq<Bytes>, r: End, b: seq<Bytes>)
    requires Lawful(c) && i.role == Initiator && r.role == Responder && i.h2 == r.h2
    requires |a| >= 6 && |b| >= 6 && a[5] == b[5] && HashChain.NoCollision(Inputs(a) + Inputs(b))
    requires Opened(c, i, a) && Keyed(c, i, a) && Opened(c, r, b) && Keyed(c, r, b)
    ensures a[..6] == b[..6] && i.keys == r.keys && i.result == r.result
    ensures i.clientOffer == r.clientOffer && i.serverOffer == r.serverOffer
  {
    hide HashChain.NoCollision, Inputs, Chain, Lawful, Opened, Keyed;
    FirstFive(c, i, a);
    FirstFive(c, r, b);
    FewerInputs(a, 5);
    FewerInputs(b, 5);
    HashChain.FewerCollisions(Inputs(a[..5]) + Inputs(b[..5]), Inputs(a) + Inputs(b));
    ChainIsInjective(a[..5], b[..5]);
    SameLogSameKeys(c, i, r, a[..5]);
    assert a[..6] == a[..5] + [a[5]] && b[..6] == b[..5] + [b[5]];
  }
}
