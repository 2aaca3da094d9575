/** One end of the handshake as an object: each call updates the fields in place, and every failure aborts. */
module HandshakeSession {

  import opened Basics
  import opened HandshakeMessages
  import opened Handshake
  import N = Negotiation
  import R = SessionRegistry
  import Sha256Standard

  /** An answer to a client hello does not depend on what the end held of an earlier peer or of itself. */
  lemma AnswerForgets(c: Crypto, v: Verifier, e: End, e': End, p: N.Policy, l: Local, h: Hello, signature: Bytes)
    requires e' == e.(clientOffer := e'.clientOffer, serverOffer := e'.serverOffer, peerEphemeral := e'.peerEphemeral,
                      trustDomain := e'.trustDomain, subject := e'.subject, localPrivate := e'.localPrivate,
                      localPublic := e'.localPublic)
    ensures AnswerHello(c, v, e, p, l, h, signature) == AnswerHello(c, v, e', p, l, h, signature)
  {
    hide ClientInput, AfterClientHello, AfterServerHello, ServerInput, EncodeServerHello, Wrap, DeriveKeys, N.Negotiate,
      N.EncodeTranscript;
  }

  class Sl2HandshakeSession {
    const crypto: Crypto
    const verifier: Verifier
    const registry: R.SecuredSessions
    const role: Role
    const h0: Bytes
    var state: State
    var trustDomain: U32
    var subject: U64
    var localPrivate: Bytes
    var localPublic: Bytes
    var ephemeralPrivate: Bytes
    var ephemeralPublic: Bytes
    var peerEphemeral: Bytes
    var peer: R.Peer
    var clientOffer: N.Offer
    var serverOffer: N.Offer
    var result: N.Result
    var h1: Bytes
    var h2: Bytes
    var h3: Bytes
    var h4: Bytes
    var keys: Keys

    ghost function Value(): End
      reads this
    {
      End(role, state, trustDomain, subject, localPrivate, localPublic, ephemeralPrivate, ephemeralPublic,
          peerEphemeral, peer, clientOffer, serverOffer, result, h1, h2, h3, h4, keys)
    }

    /** What a failed call leaves: no keys, no secrets, and a state that nothing leaves. */
    ghost predicate Aborted()
      reads this
    {
      state == Failed && keys == NO_KEYS && localPrivate == [] && ephemeralPrivate == []
    }

    ghost predicate Valid()
      reads this
    {
      h0 == H0()
    }

    constructor (crypto: Crypto, verifier: Verifier, registry: R.SecuredSessions, role: Role)
      ensures Valid() && Value() == NewEnd(role)
      ensures this.crypto == crypto && this.verifier == verifier && this.registry == registry
    {
      hide Sha256Standard.Sha256, Ascii;
      this.crypto, this.verifier, this.registry, this.role := crypto, verifier, registry, role;
      h0 := Sha256Standard.Sha256(Ascii("LNS2-SL2-TRANSCRIPT-V0.2"));
      state, trustDomain, subject := Uninitialized, 0, 0;
      localPrivate, localPublic, ephemeralPrivate, ephemeralPublic, peerEphemeral := [], [], [], [], [];
      peer, clientOffer, serverOffer, result := NO_PEER, NO_OFFER, NO_OFFER, N.Refuse(N.NotNegotiated);
      h1, h2, h3, h4, keys := [], [], [], [], NO_KEYS;
    }

    method AbortSession()
      modifies this`state, this`ephemeralPrivate, this`localPrivate, this`keys
      ensures Aborted()
    {
      state := Failed;
      ephemeralPrivate, localPrivate, keys := [], [], NO_KEYS;
    }

    method InitiatorStart(offer: N.Offer, domain: U32, subjectId: U64, private: Bytes, public: Bytes, ephemeral: Bytes)
      returns (frame: Option<Bytes>)
      requires Valid()
      modifies this
      ensures var r := Start(crypto, old(Value()), offer, domain, subjectId, private, public, ephemeral);
              (frame.Some? ==> r == Some((Value(), frame.value))) && (frame.None? ==> r == None && Aborted())
    {
      hide H0, N.Offer.Valid, N.Policy.Valid, ClientContext, ServerContext, PublicOf, Sign, Verifies, Authenticate,
        Sha256Standard.Sha256, Sha256Standard.Hmac, Ascii, EncodeClientHello, Wrap, ClientInput, AfterClientHello;
      if role != Initiator || state != Uninitialized {
        AbortSession();
        return None;
      }
      if !offer.Valid() || |private| != KEY_BYTES || |public| != KEY_BYTES || domain == 0 || subjectId == 0 {
        AbortSession();
        return None;
      }
      StoreLocal(domain, subjectId, private, public);
      clientOffer := offer;
      frame := SayHello(ephemeral);
    }

    method StoreLocal(domain: U32, subjectId: U64, private: Bytes, public: Bytes)
      modifies this
      ensures Value() ==
              old(Value()).(trustDomain := domain, subject := subjectId, localPrivate := private, localPublic := public)
    {
      trustDomain, subject, localPrivate, localPublic := domain, subjectId, private, public;
    }

    /** The second half of the call: the hello itself, from the local data just stored. */
    method SayHello(ephemeral: Bytes) returns (frame: Option<Bytes>)
      requires Valid()
      modifies this
      ensures var e := old(Value());
              var h := Hello(e.clientOffer, PublicOf(crypto, ephemeral), e.trustDomain, e.subject, e.localPublic);
              var signature := Sign(crypto, e.localPrivate, ClientInput(h));
              var payload := EncodeClientHello(h, signature);
              && (frame.Some? <==> payload.Some? && Wrap(payload.value).Some?)
              && (frame.Some? ==>
                    && frame == Wrap(payload.value)
                    && Value() == e.(state := ClientHelloSent, ephemeralPrivate := ephemeral,
                                     ephemeralPublic := PublicOf(crypto, ephemeral),
                                     h1 := AfterClientHello(h, signature)))
              && (frame.None? ==> Aborted())
    {
      hide H0, N.Offer.Valid, N.Policy.Valid, ClientContext, ServerContext, PublicOf, Sign, Verifies, Authenticate,
        Sha256Standard.Sha256, Sha256Standard.Hmac, Ascii, EncodeClientHello, Wrap, ClientPrefix, SignatureInput,
        Absorb;
      ephemeralPrivate, ephemeralPublic := ephemeral, PublicOf(crypto, ephemeral);
      var hello := Hello(clientOffer, ephemeralPublic, trustDomain, subject, localPublic);
      h1 := Absorb(h0, ClientPrefix(hello));
      var signature := Sign(crypto, localPrivate, SignatureInput(ClientContext(), trustDomain, subject, h1));
      h1 := Absorb(h1, signature);
      var payload := EncodeClientHello(hello, signature);
      if payload.None? {
        AbortSession();
        return None;
      }
      frame := Wrap(payload.value);
      if frame.None? {
        AbortSession();
        return None;
      }
      state := ClientHelloSent;
    }

    method Derive() returns (ok: bool)
      modifies this`keys
      ensures var k := DeriveKeys(crypto, h2, result.suite, ephemeralPrivate, peerEphemeral);
              ok == k.Some? && (ok ==> keys == k.value)
    {
      hide Ascii;
      var secret := Exchange(crypto, ephemeralPrivate, peerEphemeral);
      if secret.None? {
        return false;
      }
      var prk := crypto.extract(h2, secret.value);
      keys := Keys(result.suite, crypto.expand(prk, Ascii("lns2.key.init"), 32),
                   crypto.expand(prk, Ascii("lns2.key.resp"), 32),
                   crypto.expand(prk, Ascii("lns2.iv.init"), 12), crypto.expand(prk, Ascii("lns2.iv.resp"), 12),
                   crypto.expand(prk, Ascii("lns2.fin.init"), 32), crypto.expand(prk, Ascii("lns2.fin.resp"), 32));
      ok := true;
    }

    method InitiatorProcessServerHello(serverHello: Bytes) returns (frame: Option<Bytes>)
      requires Valid()
      modifies this
      ensures var r := OnServerHello(crypto, verifier, old(Value()), serverHello);
              (frame.Some? ==> r == Some((Value(), frame.value))) && (frame.None? ==> r == None && Aborted())
    {
      hide H0, N.Offer.Valid, N.Policy.Valid, ClientContext, ServerContext, PublicOf, Sign, Verifies, Authenticate,
        Sha256Standard.Sha256, Sha256Standard.Hmac, Ascii, ReadServerHello, ServerInput, AfterServerHello, Absorb,
        DeriveKeys, FinishedFrame,
        N.EncodeTranscript, Finished;
      if role != Initiator || state != ClientHelloSent {
        AbortSession();
        return None;
      }
      var read := ReadServerHello(serverHello);
      if read.None? {
        AbortSession();
        return None;
      }
      var (hello, n, signature) := read.value;
      var transcript := CheckServerHello(hello, n, signature);
      if transcript.None? {
        AbortSession();
        return None;
      }
      var authenticated := Authenticate(verifier, serverOffer, transcript.value, hello.publicKey, NOW);
      if authenticated.None? {
        AbortSession();
        return None;
      }
      peer := authenticated.value;
      frame := FinishAsClient();
    }

    /** Absorbs a server hello, and gives the transcript of the negotiation if its signature holds. */
    method CheckServerHello(hello: Hello, n: N.Result, signature: Bytes) returns (transcript: Option<Bytes>)
      modifies this
      ensures var e := old(Value());
              && transcript == (if Verifies(crypto, hello.publicKey, ServerInput(e.h1, hello, n), signature)
                                then N.EncodeTranscript(e.clientOffer, hello.offer, n) else None)
              && (transcript.Some? ==>
                    Value() == e.(serverOffer := hello.offer, result := n, peerEphemeral := hello.ephemeral,
                                  h2 := AfterServerHello(e.h1, hello, n, signature, transcript.value)))
    {
      hide H0, N.Offer.Valid, N.Policy.Valid, ClientContext, ServerContext, PublicOf, Sign, Verifies, Authenticate,
        Sha256Standard.Sha256, Sha256Standard.Hmac, Ascii, ServerPrefix, SignatureInput, Absorb, N.EncodeTranscript;
      serverOffer, result, peerEphemeral := hello.offer, n, hello.ephemeral;
      h2 := Absorb(h1, ServerPrefix(hello, n));
      if !Verifies(crypto, hello.publicKey, SignatureInput(ServerContext(), hello.trustDomain, hello.subject, h2),
                   signature)
      {
        return None;
      }
      h2 := Absorb(h2, signature);
      transcript := N.EncodeTranscript(clientOffer, serverOffer, result);
      if transcript.Some? {
        h2 := Absorb(h2, transcript.value);
      }
    }

    method FinishAsClient() returns (frame: Option<Bytes>)
      modifies this
      ensures var e := old(Value());
              var keys := DeriveKeys(crypto, e.h2, e.result.suite, e.ephemeralPrivate, e.peerEphemeral);
              var verifyData := if keys.Some? then Finished(keys.value.initiatorFinished, e.h2) else None;
              && (frame.Some? <==> verifyData.Some? && FinishedFrame(CLIENT_FINISHED, verifyData.value).Some?)
              && (frame.Some? ==>
                    && frame == FinishedFrame(CLIENT_FINISHED, verifyData.value)
                    && Value() == e.(state := ClientFinishedSent, keys := keys.value,
                                     h3 := Absorb(e.h2, verifyData.value)))
              && (frame.None? ==> Aborted())
    {
      hide H0, N.Offer.Valid, N.Policy.Valid, ClientContext, ServerContext, PublicOf, Sign, Verifies, Authenticate,
        Sha256Standard.Sha256, Sha256Standard.Hmac, Ascii, DeriveKeys, FinishedFrame, Finished, Absorb;
      var derived := Derive();
      if !derived {
        AbortSession();
        return None;
      }
      var verifyData := Finished(keys.initiatorFinished, h2);
      if verifyData.None? {
        AbortSession();
        return None;
      }
      h3 := Absorb(h2, verifyData.value);
      frame := FinishedFrame(CLIENT_FINISHED, verifyData.value);
      if frame.None? {
        AbortSession();
        return None;
      }
      state := ClientFinishedSent;
    }

    method InitiatorProcessServerFinished(serverFinished: Bytes) returns (ok: bool)
      requires Valid()
      modifies this, registry
      ensures var r := OnServerFinished(old(Value()), old(registry.sessions), serverFinished);
              && (ok ==> r == Some((Value(), registry.sessions)))
              && (!ok ==> r == None && Aborted() && registry.sessions == old(registry.sessions))
    {
      hide H0, N.Offer.Valid, N.Policy.Valid, ClientContext, ServerContext, PublicOf, Sign, Verifies, Authenticate,
        Sha256Standard.Sha256, Sha256Standard.Hmac, Ascii, ReadFinished, Finished, R.Establish, Absorb, SessionId;
      if role != Initiator || state != ClientFinishedSent {
        AbortSession();
        return false;
      }
      var verifyData := ReadFinished(SERVER_FINISHED, serverFinished);
      if verifyData.None? {
        AbortSession();
        return false;
      }
      if Finished(keys.responderFinished, h3) != verifyData {
        AbortSession();
        return false;
      }
      h4 := Absorb(h3, verifyData.value);
      var local := R.Peer(clientOffer.endpoint, trustDomain, subject, 1, NOW, EXPIRES, false);
      ok := Register(local, peer);
      if !ok {
        AbortSession();
        return false;
      }
      state := Active;
    }

    /** Both ends register the same session. */
    method Register(initiator: R.Peer, responder: R.Peer) returns (ok: bool)
      modifies registry
      ensures (registry.sessions, ok) == R.Establish(old(registry.sessions),
                SessionId(clientOffer.endpoint.node, serverOffer.endpoint.node),
                R.Proposal(clientOffer, serverOffer, N.Policy(result.required, [result.suite]), result,
                           initiator, responder,
                           1, 1, NOW, EXPIRES))
      ensures !ok ==> registry.sessions == old(registry.sessions)
    {
      hide H0, N.Offer.Valid, N.Policy.Valid, ClientContext, ServerContext, PublicOf, Sign, Verifies, Authenticate,
        Sha256Standard.Sha256, Sha256Standard.Hmac, Ascii, R.Acceptable, SessionId;
      var policy := N.Policy(result.required, [result.suite]);
      var id := SessionId(clientOffer.endpoint.node, serverOffer.endpoint.node);
      ok := registry.EstablishSession(
        id, R.Proposal(clientOffer, serverOffer, policy, result, initiator, responder, 1, 1, NOW, EXPIRES));
    }

    method ResponderProcessClientHello(clientHello: Bytes, p: N.Policy, offer: N.Offer, domain: U32, subjectId: U64,
                                       private: Bytes, public: Bytes, ephemeral: Bytes)
      returns (frame: Option<Bytes>)
      requires Valid()
      modifies this
      ensures var l := Local(offer, domain, subjectId, private, public, ephemeral);
              var r := OnClientHello(crypto, verifier, old(Value()), clientHello, p, l);
              (frame.Some? ==> r == Some((Value(), frame.value))) && (frame.None? ==> r == None && Aborted())
    {
      hide ReadClientHello, AnswerHello, N.Offer.Valid, N.Policy.Valid, H0;
      if role != Responder || state != Uninitialized {
        AbortSession();
        return None;
      }
      if !p.Valid() || !offer.Valid() || |private| != KEY_BYTES || |public| != KEY_BYTES || domain == 0 ||
         subjectId == 0
      {
        AbortSession();
        return None;
      }
      var read := ReadClientHello(clientHello);
      if read.None? {
        AbortSession();
        return None;
      }
      var (hello, signature) := read.value;
      StoreLocal(domain, subjectId, private, public);
      clientOffer, serverOffer, peerEphemeral := hello.offer, offer, hello.ephemeral;
      AnswerForgets(crypto, verifier, old(Value()), Value(), p,
                    Local(offer, domain, subjectId, private, public, ephemeral), hello, signature);
      frame := TakeClientHello(hello, signature, p, ephemeral);
    }

    /** The call from where the client's hello and the local data have been stored. */
    method TakeClientHello(hello: Hello, signature: Bytes, p: N.Policy, ephemeral: Bytes) returns (frame: Option<Bytes>)
      requires Valid() && clientOffer == hello.offer && peerEphemeral == hello.ephemeral
      modifies this
      ensures var e := old(Value());
              var l := Local(e.serverOffer, e.trustDomain, e.subject, e.localPrivate, e.localPublic, ephemeral);
              var r := AnswerHello(crypto, verifier, e, p, l, hello, signature);
              (frame.Some? ==> r == Some((Value(), frame.value))) && (frame.None? ==> r == None && Aborted())
    {
      hide H0, N.Offer.Valid, N.Policy.Valid, ClientContext, ServerContext, PublicOf, Sign, Verifies, Authenticate,
        Sha256Standard.Sha256, Sha256Standard.Hmac, Ascii, ServerInput, ClientInput, AfterClientHello, AfterServerHello,
        DeriveKeys, N.EncodeTranscript, N.Negotiate, EncodeServerHello, Wrap;
      var transcript := CheckClientHello(hello, signature, p);
      if transcript.None? {
        AbortSession();
        return None;
      }
      var authenticated := Authenticate(verifier, clientOffer, transcript.value, hello.publicKey, NOW);
      if authenticated.None? {
        AbortSession();
        return None;
      }
      peer := authenticated.value;
      frame := AnswerWithHello(transcript.value, ephemeral);
    }

    /** Negotiates, absorbs the client hello, and gives the transcript if both go well. */
    method CheckClientHello(hello: Hello, signature: Bytes, p: N.Policy) returns (transcript: Option<Bytes>)
      requires Valid()
      modifies this
      ensures var e := old(Value());
              var n := N.Negotiate(e.clientOffer, e.serverOffer, p);
              && transcript == (if n.status == N.Accepted &&
                                   Verifies(crypto, hello.publicKey, ClientInput(hello), signature)
                                then N.EncodeTranscript(e.clientOffer, e.serverOffer, n) else None)
              && (transcript.Some? ==> Value() == e.(result := n, h1 := AfterClientHello(hello, signature)))
    {
      hide H0, N.Offer.Valid, N.Policy.Valid, ClientContext, ServerContext, PublicOf, Sign, Verifies, Authenticate,
        Sha256Standard.Sha256, Sha256Standard.Hmac, Ascii, ClientPrefix, SignatureInput, Absorb, N.Negotiate,
        N.EncodeTranscript;
      result := N.Negotiate(clientOffer, serverOffer, p);
      if result.status != N.Accepted {
        return None;
      }
      h1 := Absorb(h0, ClientPrefix(hello));
      if !Verifies(crypto, hello.publicKey, SignatureInput(ClientContext(), hello.trustDomain, hello.subject, h1),
                   signature)
      {
        return None;
      }
      h1 := Absorb(h1, signature);
      transcript := N.EncodeTranscript(clientOffer, serverOffer, result);
    }

    /** The second half of the call: the responder's own hello. */
    method AnswerWithHello(transcript: Bytes, ephemeral: Bytes) returns (frame: Option<Bytes>)
      modifies this
      ensures var e := old(Value());
              var mine := Hello(e.serverOffer, PublicOf(crypto, ephemeral), e.trustDomain, e.subject, e.localPublic);
              var signature := Sign(crypto, e.localPrivate, ServerInput(e.h1, mine, e.result));
              var h2 := AfterServerHello(e.h1, mine, e.result, signature, transcript);
              var keys := DeriveKeys(crypto, h2, e.result.suite, ephemeral, e.peerEphemeral);
              var payload := EncodeServerHello(mine, e.result, signature);
              && (frame.Some? <==> keys.Some? && payload.Some? && Wrap(payload.value).Some?)
              && (frame.Some? ==>
                    && frame == Wrap(payload.value)
                    && Value() == e.(state := ServerHelloSent, ephemeralPrivate := ephemeral,
                                     ephemeralPublic := PublicOf(crypto, ephemeral), h2 := h2, keys := keys.value))
              && (frame.None? ==> Aborted())
    {
      hide H0, N.Offer.Valid, N.Policy.Valid, ClientContext, ServerContext, PublicOf, Sign, Verifies, Authenticate,
        Sha256Standard.Sha256, Sha256Standard.Hmac, Ascii, ServerPrefix, SignatureInput, Absorb, DeriveKeys,
        EncodeServerHello, Wrap;
      ephemeralPrivate, ephemeralPublic := ephemeral, PublicOf(crypto, ephemeral);
      var mine := Hello(serverOffer, ephemeralPublic, trustDomain, subject, localPublic);
      h2 := Absorb(h1, ServerPrefix(mine, result));
      var signature := Sign(crypto, localPrivate, SignatureInput(ServerContext(), trustDomain, subject, h2));
      h2 := Absorb(h2, signature);
      h2 := Absorb(h2, transcript);
      var derived := Derive();
      if !derived {
        AbortSession();
        return None;
      }
      var payload := EncodeServerHello(mine, result, signature);
      if payload.None? {
        AbortSession();
        return None;
      }
      frame := Wrap(payload.value);
      if frame.None? {
        AbortSession();
        return None;
      }
      state := ServerHelloSent;
    }

    /** Checks the client's finished message and prepares the answer to it. */
    method PrepareFinished(clientFinished: Bytes) returns (frame: Option<Bytes>)
      requires role == Responder && state == ServerHelloSent
      modifies this`h3, this`h4
      ensures frame == PreparedFinished(old(Value()), clientFinished)
      ensures frame.Some? ==> (h3, h4) == FinishedHashes(old(Value()), clientFinished)
    {
      hide H0, Sha256Standard.Sha256, Sha256Standard.Hmac, Ascii, ReadFinished, Finished, FinishedFrame, Absorb;
      var verifyData := ReadFinished(CLIENT_FINISHED, clientFinished);
      if verifyData.None? || Finished(keys.initiatorFinished, h2) != verifyData { return None; }
      h3 := Absorb(h2, verifyData.value);
      var mine := Finished(keys.responderFinished, h3);
      if mine.None? { return None; }
      h4 := Absorb(h3, mine.value);
      frame := FinishedFrame(SERVER_FINISHED, mine.value);
    }

    /** The frame is left in the buffer of the caller also when the session then cannot be registered. */
    method ResponderProcessClientFinished(clientFinished: Bytes) returns (ok: bool, out: Bytes)
      requires Valid()
      modifies this, registry
      ensures var r := OnClientFinished(old(Value()), old(registry.sessions), clientFinished);
              && (ok ==> r == Some((Value(), registry.sessions, out)))
              && (!ok ==> r == None && Aborted() && registry.sessions == old(registry.sessions))
      ensures out == LeftForClient(old(Value()), clientFinished)
    {
      hide H0, N.Offer.Valid, N.Policy.Valid, ClientContext, ServerContext, PublicOf, Sign, Verifies, Authenticate,
        Sha256Standard.Sha256, Sha256Standard.Hmac, Ascii, ReadFinished, Finished, FinishedFrame, R.Establish, Absorb,
        SessionId;
      if role != Responder || state != ServerHelloSent {
        AbortSession();
        return false, [];
      }
      var frame := PrepareFinished(clientFinished);
      if frame.None? {
        AbortSession();
        return false, [];
      }
      out := frame.value;
      var local := R.Peer(serverOffer.endpoint, trustDomain, subject, 1, NOW, EXPIRES, false);
      ok := Register(peer, local);
      if !ok {
        AbortSession();
        return;
      }
      state := Active;
    }
  }
}
