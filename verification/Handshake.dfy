/** The SL2 handshake: two ends that exchange hellos and finished messages, chain every byte of them into a
    transcript, and derive keys from it. Key exchange, signatures and key derivation are parameters, with the
    laws that are needed of them; SHA-256 and HMAC are the real ones. */
module Handshake {

  import opened Basics
  import opened Wire
  import opened HandshakeMessages
  import N = Negotiation
  import R = SessionRegistry
  import Sha256Standard

  // ---- Cryptography and identity -----------------------------------------------------------------------------

  datatype Crypto = Crypto(
    publicOf: Bytes -> Bytes,
    exchange: (Bytes, Bytes) -> Option<Bytes>,
    sign: (Bytes, Bytes) -> Bytes,
    verifies: (Bytes, Bytes, Bytes) -> bool,
    extract: (Bytes, Bytes) -> Bytes,
    expand: (Bytes, Bytes, nat) -> Bytes)

  /** Turns an offer, the transcript, a public key and a time into the authenticated peer. */
  type Verifier = (N.Offer, Bytes, Bytes, U64) -> Option<R.Peer>

  function PublicOf(c: Crypto, private: Bytes): Bytes { c.publicOf(private) }
  function Exchange(c: Crypto, private: Bytes, public: Bytes): Option<Bytes> { c.exchange(private, public) }
  function Sign(c: Crypto, private: Bytes, message: Bytes): Bytes { c.sign(private, message) }
  predicate Verifies(c: Crypto, public: Bytes, message: Bytes, signature: Bytes) {
    c.verifies(public, message, signature)
  }

  /** Key agreement is symmetric, keys and signatures have their sizes. */
  ghost predicate Lawful(c: Crypto) {
    && (forall x :: |PublicOf(c, x)| == KEY_BYTES)
    && (forall k, m :: |Sign(c, k, m)| == SIGNATURE_BYTES)
    && (forall x, y :: Exchange(c, x, PublicOf(c, y)).Some?)
    && (forall x, y :: Exchange(c, x, PublicOf(c, y)) == Exchange(c, y, PublicOf(c, x)))
  }

  /** What is signed with the private key verifies with the public one. */
  ghost predicate KeyPair(c: Crypto, private: Bytes, public: Bytes) {
    |private| == KEY_BYTES && |public| == KEY_BYTES && forall m :: Verifies(c, public, m, Sign(c, private, m))
  }

  function Authenticate(v: Verifier, offer: N.Offer, transcript: Bytes, public: Bytes, now: U64): Option<R.Peer> {
    v(offer, transcript, public, now)
  }

  // ---- One end -----------------------------------------------------------------------------------------------

  datatype Role = Initiator | Responder

  datatype State = Uninitialized | ClientHelloSent | ServerHelloSent | ClientFinishedSent | Active | Failed

  datatype Keys = Keys(suite: U16, initiatorTraffic: Bytes, responderTraffic: Bytes, initiatorIv: Bytes,
                       responderIv: Bytes, initiatorFinished: Bytes, responderFinished: Bytes)

  const NO_KEYS := Keys(0, [], [], [], [], [], [])
  const NO_OFFER := N.Offer(0, 2, 0, 0, [], N.Endpoint(0, 0, 0), 0, 0, [])
  const NO_PEER := R.Peer(N.Endpoint(0, 0, 0), 0, 0, 0, 0, 0, false)

  datatype End = End(
    role: Role, state: State, trustDomain: U32, subject: U64, localPrivate: Bytes, localPublic: Bytes,
    ephemeralPrivate: Bytes, ephemeralPublic: Bytes, peerEphemeral: Bytes, peer: R.Peer,
    clientOffer: N.Offer, serverOffer: N.Offer, result: N.Result,
    h1: Bytes, h2: Bytes, h3: Bytes, h4: Bytes, keys: Keys)

  function NewEnd(role: Role): End {
    End(role, Uninitialized, 0, 0, [], [], [], [], [], NO_PEER, NO_OFFER, NO_OFFER, N.Refuse(N.NotNegotiated),
        [], [], [], [], NO_KEYS)
  }

  function Abort(e: End): End {
    e.(state := Failed, ephemeralPrivate := [], localPrivate := [], keys := NO_KEYS)
  }

  // ---- The transcript ----------------------------------------------------------------------------------------

  function Ascii(s: string): Bytes {
    seq(|s|, (i: nat) requires i < |s| => (s[i] as nat) % 256)
  }

  function Absorb(h: Bytes, message: Bytes): Bytes {
    Sha256Standard.Sha256(h + message)
  }

  function H0(): Bytes {
    Sha256Standard.Sha256(Ascii("LNS2-SL2-TRANSCRIPT-V0.2"))
  }

  function SignatureInput(context: Bytes, trustDomain: U32, subject: U64, h: Bytes): Bytes {
    context + Little(trustDomain, 4) + Little(subject, 8) + h
  }

  function ClientContext(): Bytes { Ascii("LNS2-SIG-CLIENT-V1") }
  function ServerContext(): Bytes { Ascii("LNS2-SIG-SERVER-V1") }

  function ClientInput(h: Hello): Bytes {
    SignatureInput(ClientContext(), h.trustDomain, h.subject, Absorb(H0(), ClientPrefix(h)))
  }

  function AfterClientHello(h: Hello, signature: Bytes): Bytes {
    Absorb(Absorb(H0(), ClientPrefix(h)), signature)
  }

  function ServerInput(h1: Bytes, h: Hello, n: N.Result): Bytes {
    SignatureInput(ServerContext(), h.trustDomain, h.subject, Absorb(h1, ServerPrefix(h, n)))
  }

  function AfterServerHello(h1: Bytes, h: Hello, n: N.Result, signature: Bytes, transcript: Bytes): Bytes {
    Absorb(Absorb(Absorb(h1, ServerPrefix(h, n)), signature), transcript)
  }

  function DeriveKeys(c: Crypto, h2: Bytes, suite: U16, private: Bytes, peerPublic: Bytes): Option<Keys> {
    match Exchange(c, private, peerPublic)
    case None => None
    case Some(secret) =>
      var prk := c.extract(h2, secret);
      Some(Keys(suite, c.expand(prk, Ascii("lns2.key.init"), 32), c.expand(prk, Ascii("lns2.key.resp"), 32),
                c.expand(prk, Ascii("lns2.iv.init"), 12), c.expand(prk, Ascii("lns2.iv.resp"), 12),
                c.expand(prk, Ascii("lns2.fin.init"), 32), c.expand(prk, Ascii("lns2.fin.resp"), 32)))
  }

  function Finished(key: Bytes, h: Bytes): Option<Bytes> {
    if key == [] || h == [] then None else Some(Sha256Standard.Hmac(key, h))
  }

  // ---- Registration ------------------------------------------------------------------------------------------

  const NOW: U64 := 1000
  const EXPIRES: U64 := 5000000000

  function Value(b: bv64): U64 { b as U64 }

  function SessionId(clientNode: U64, serverNode: U64): U64 {
    Value((clientNode as bv64) ^ ((serverNode as bv64) << 16) ^ 0x5122)
  }

  function LocalPeer(e: End, endpoint: N.Endpoint): R.Peer {
    R.Peer(endpoint, e.trustDomain, e.subject, 1, NOW, EXPIRES, false)
  }

  function ProposalOf(e: End): R.Proposal {
    R.Proposal(
      e.clientOffer, e.serverOffer, N.Policy(e.result.required, [e.result.suite]), e.result,
      if e.role == Initiator then LocalPeer(e, e.clientOffer.endpoint) else e.peer,
      if e.role == Initiator then e.peer else LocalPeer(e, e.serverOffer.endpoint), 1, 1, NOW, EXPIRES)
  }

  function IdOf(e: End): U64 {
    SessionId(e.clientOffer.endpoint.node, e.serverOffer.endpoint.node)
  }

  // ---- The calls ---------------------------------------------------------------------------------------------

  /** A call that succeeds gives the new end; any other leads to Abort. */
  function Start(c: Crypto, e: End, offer: N.Offer, trustDomain: U32, subject: U64, private: Bytes, public: Bytes,
                 ephemeral: Bytes): Option<(End, Bytes)>
  {
    if e.role != Initiator || e.state != Uninitialized || !offer.Valid() || |private| != KEY_BYTES ||
       |public| != KEY_BYTES || trustDomain == 0 || subject == 0
    then None
    else
      var h := Hello(offer, PublicOf(c, ephemeral), trustDomain, subject, public);
      var signature := Sign(c, private, ClientInput(h));
      match EncodeClientHello(h, signature)
      case None => None
      case Some(payload) =>
        match Wrap(payload)
        case None => None
        case Some(frame) =>
          Some((e.(state := ClientHelloSent, trustDomain := trustDomain, subject := subject, localPrivate := private,
                   localPublic := public, clientOffer := offer, ephemeralPrivate := ephemeral,
                   ephemeralPublic := PublicOf(c, ephemeral), h1 := AfterClientHello(h, signature)), frame))
  }

  function ReadClientHello(frame: Bytes): Option<(Hello, Bytes)> {
    match Unwrap(frame)
    case None => None
    case Some(payload) => DecodeClientHello(payload)
  }

  function ReadServerHello(frame: Bytes): Option<(Hello, N.Result, Bytes)> {
    match Unwrap(frame)
    case None => None
    case Some(payload) => DecodeServerHello(payload)
  }

  function ReadFinished(kind: U8, frame: Bytes): Option<Bytes> {
    match Unwrap(frame)
    case None => None
    case Some(payload) => DecodeFinished(kind, payload)
  }

  function FinishedFrame(kind: U8, verifyData: Bytes): Option<Bytes> {
    match EncodeFinished(kind, verifyData)
    case None => None
    case Some(payload) => Wrap(payload)
  }

  datatype Local = Local(offer: N.Offer, trustDomain: U32, subject: U64, private: Bytes, public: Bytes,
                         ephemeral: Bytes)

  predicate LocalOk(l: Local) {
    l.offer.Valid() && |l.private| == KEY_BYTES && |l.public| == KEY_BYTES && l.trustDomain != 0 && l.subject != 0
  }

  /** What the responder does with a client hello it could read. */
  function AnswerHello(c: Crypto, v: Verifier, e: End, p: N.Policy, l: Local, h: Hello, signature: Bytes):
    Option<(End, Bytes)>
  {
    var n := N.Negotiate(h.offer, l.offer, p);
    if n.status != N.Accepted || !Verifies(c, h.publicKey, ClientInput(h), signature) then None
    else
      var h1 := AfterClientHello(h, signature);
      match N.EncodeTranscript(h.offer, l.offer, n)
      case None => None
      case Some(transcript) =>
        match Authenticate(v, h.offer, transcript, h.publicKey, NOW)
        case None => None
        case Some(peer) =>
          var mine := Hello(l.offer, PublicOf(c, l.ephemeral), l.trustDomain, l.subject, l.public);
          var mySignature := Sign(c, l.private, ServerInput(h1, mine, n));
          var h2 := AfterServerHello(h1, mine, n, mySignature, transcript);
          match DeriveKeys(c, h2, n.suite, l.ephemeral, h.ephemeral)
          case None => None
          case Some(keys) =>
            match EncodeServerHello(mine, n, mySignature)
            case None => None
            case Some(payload) =>
              match Wrap(payload)
              case None => None
              case Some(frame) =>
                Some((e.(state := ServerHelloSent, clientOffer := h.offer, serverOffer := l.offer,
                         trustDomain := l.trustDomain, subject := l.subject, localPrivate := l.private,
                         localPublic := l.public, peerEphemeral := h.ephemeral, result := n, peer := peer,
                         ephemeralPrivate := l.ephemeral, ephemeralPublic := PublicOf(c, l.ephemeral),
                         h1 := h1, h2 := h2, keys := keys), frame))
  }

  function OnClientHello(c: Crypto, v: Verifier, e: End, frame: Bytes, p: N.Policy, l: Local): Option<(End, Bytes)> {
    if e.role != Responder || e.state != Uninitialized || !p.Valid() || !LocalOk(l) then None
    else match ReadClientHello(frame)
         case None => None
         case Some((h, signature)) => AnswerHello(c, v, e, p, l, h, signature)
  }

  /** What the initiator does with a server hello it could read. */
  function AcceptHello(c: Crypto, v: Verifier, e: End, h: Hello, n: N.Result, signature: Bytes): Option<(End, Bytes)> {
    if !Verifies(c, h.publicKey, ServerInput(e.h1, h, n), signature) then None
    else match N.EncodeTranscript(e.clientOffer, h.offer, n)
         case None => None
         case Some(transcript) =>
           var h2 := AfterServerHello(e.h1, h, n, signature, transcript);
           match Authenticate(v, h.offer, transcript, h.publicKey, NOW)
           case None => None
           case Some(peer) =>
             match DeriveKeys(c, h2, n.suite, e.ephemeralPrivate, h.ephemeral)
             case None => None
             case Some(keys) =>
               match Finished(keys.initiatorFinished, h2)
               case None => None
               case Some(verifyData) =>
                 match FinishedFrame(CLIENT_FINISHED, verifyData)
                 case None => None
                 case Some(frame) =>
                   Some((e.(state := ClientFinishedSent, serverOffer := h.offer, result := n,
                            peerEphemeral := h.ephemeral, peer := peer, h2 := h2, h3 := Absorb(h2, verifyData),
                            keys := keys), frame))
  }

  function OnServerHello(c: Crypto, v: Verifier, e: End, frame: Bytes): Option<(End, Bytes)> {
    if e.role != Initiator || e.state != ClientHelloSent then None
    else match ReadServerHello(frame)
         case None => None
         case Some((h, n, signature)) => AcceptHello(c, v, e, h, n, signature)
  }

  /** The finished message a responder has ready once the client's has proved right. */
  function PreparedFinished(e: End, frame: Bytes): Option<Bytes> {
    if e.role != Responder || e.state != ServerHelloSent then None
    else match ReadFinished(CLIENT_FINISHED, frame)
         case None => None
         case Some(verifyData) =>
           if Finished(e.keys.initiatorFinished, e.h2) != Some(verifyData) then None
           else match Finished(e.keys.responderFinished, Absorb(e.h2, verifyData))
                case None => None
                case Some(mine) => FinishedFrame(SERVER_FINISHED, mine)
  }

  /** The last two transcript hashes once both finished messages are in. */
  function FinishedHashes(e: End, frame: Bytes): (Bytes, Bytes) {
    match ReadFinished(CLIENT_FINISHED, frame)
    case None => (e.h3, e.h4)
    case Some(verifyData) =>
      var h3 := Absorb(e.h2, verifyData);
      match Finished(e.keys.responderFinished, h3)
      case None => (h3, e.h4)
      case Some(mine) => (h3, Absorb(h3, mine))
  }

  /** What the call leaves in the buffer of its caller. */
  function LeftForClient(e: End, frame: Bytes): Bytes {
    match PreparedFinished(e, frame)
    case None => []
    case Some(answer) => answer
  }

  function OnClientFinished(e: End, m: R.Sessions, frame: Bytes): Option<(End, R.Sessions, Bytes)> {
    if e.role != Responder || e.state != ServerHelloSent then None
    else match ReadFinished(CLIENT_FINISHED, frame)
         case None => None
         case Some(verifyData) =>
           if Finished(e.keys.initiatorFinished, e.h2) != Some(verifyData) then None
           else
             var h3 := Absorb(e.h2, verifyData);
             match Finished(e.keys.responderFinished, h3)
             case None => None
             case Some(mine) =>
               match FinishedFrame(SERVER_FINISHED, mine)
               case None => None
               case Some(answer) =>
                 var (m', ok) := R.Establish(m, IdOf(e), ProposalOf(e));
                 if !ok then None
                 else Some((e.(state := Active, h3 := h3, h4 := Absorb(h3, mine)), m', answer))
  }

  function OnServerFinished(e: End, m: R.Sessions, frame: Bytes): Option<(End, R.Sessions)> {
    if e.role != Initiator || e.state != ClientFinishedSent then None
    else match ReadFinished(SERVER_FINISHED, frame)
         case None => None
         case Some(verifyData) =>
           if Finished(e.keys.responderFinished, e.h3) != Some(verifyData) then None
           else
             var (m', ok) := R.Establish(m, IdOf(e), ProposalOf(e));
             if !ok then None else Some((e.(state := Active, h4 := Absorb(e.h3, verifyData)), m'))
  }

  // ---- An honest run -----------------------------------------------------------------------------------------

  lemma ClientFrame(h: Hello, signature: Bytes)
    requires h.Valid() && |signature| == SIGNATURE_BYTES
    ensures EncodeClientHello(h, signature).Some?
    ensures var frame := Wrap(EncodeClientHello(h, signature).value);
            frame.Some? && ReadClientHello(frame.value) == Some((h, signature))
  {
    hide ClientPrefix, DecodeClientHello, Unwrap;
    HellosAreShort(h, N.Refuse(N.NotNegotiated));
    var payload := EncodeClientHello(h, signature).value;
    WrapBothWays(payload, Wrap(payload).value);
    ClientHelloBothWays(h, signature, payload);
  }

  lemma ServerFrame(h: Hello, n: N.Result, signature: Bytes)
    requires h.Valid() && |signature| == SIGNATURE_BYTES && n.status == N.Accepted
    ensures EncodeServerHello(h, n, signature).Some?
    ensures var frame := Wrap(EncodeServerHello(h, n, signature).value);
            frame.Some? && ReadServerHello(frame.value) == Some((h, n, signature))
  {
    hide ServerPrefix, DecodeServerHello, Unwrap;
    HellosAreShort(h, n);
    var payload := EncodeServerHello(h, n, signature).value;
    WrapBothWays(payload, Wrap(payload).value);
    ServerHelloBothWays(h, n, signature, payload);
  }

  lemma FinishedFrames(kind: U8, verifyData: Bytes)
    requires |verifyData| == DIGEST_BYTES
    ensures FinishedFrame(kind, verifyData).Some?
    ensures ReadFinished(kind, FinishedFrame(kind, verifyData).value) == Some(verifyData)
  {
    hide Unwrap;
    var payload := EncodeFinished(kind, verifyData).value;
    WrapBothWays(payload, Wrap(payload).value);
    FinishedBothWays(kind, verifyData, payload);
  }

  /** The two parties of a run, as they were set up: valid local data with key pairs that belong together. */
  ghost predicate PartiesOk(c: Crypto, client: Local, server: Local, p: N.Policy) {
    && Lawful(c) && LocalOk(client) && LocalOk(server) && p.Valid()
    && KeyPair(c, client.private, client.public) && KeyPair(c, server.private, server.public)
    && forall prk, info, k: nat :: |c.expand(prk, info, k)| == k
  }

  function HelloOf(c: Crypto, l: Local): Hello {
    Hello(l.offer, PublicOf(c, l.ephemeral), l.trustDomain, l.subject, l.public)
  }

  /** First flight: the client hello arrives as it was sent. */
  lemma FirstFlight(c: Crypto, client: Local, server: Local, p: N.Policy)
    requires PartiesOk(c, client, server, p)
    ensures var started := Start(c, NewEnd(Initiator), client.offer, client.trustDomain, client.subject,
                                 client.private, client.public, client.ephemeral);
            && started.Some?
            && var h, signature := HelloOf(c, client), Sign(c, client.private, ClientInput(HelloOf(c, client)));
               && ReadClientHello(started.value.1) == Some((h, signature))
               && Verifies(c, h.publicKey, ClientInput(h), signature)
               && started.value.0.state == ClientHelloSent && started.value.0.h1 == AfterClientHello(h, signature)
               && started.value.0.clientOffer == client.offer && started.value.0.ephemeralPrivate == client.ephemeral
               && started.value.0.trustDomain == client.trustDomain && started.value.0.subject == client.subject
               && started.value.0.role == Initiator
  {
    hide ClientInput, AfterClientHello, EncodeClientHello, Wrap, ReadClientHello;
    var h := HelloOf(c, client);
    ClientFrame(h, Sign(c, client.private, ClientInput(h)));
  }

  function TranscriptOf(client: Local, server: Local, p: N.Policy): Bytes {
    N.Transcript(client.offer, server.offer, N.Negotiate(client.offer, server.offer, p))
  }

  lemma SameKeys(c: Crypto, h2: Bytes, suite: U16, x: Bytes, y: Bytes)
    requires Lawful(c)
    ensures DeriveKeys(c, h2, suite, x, PublicOf(c, y)).Some?
    ensures DeriveKeys(c, h2, suite, x, PublicOf(c, y)) == DeriveKeys(c, h2, suite, y, PublicOf(c, x))
  {
    hide Exchange, PublicOf;
  }

  /** Second flight: the responder answers exactly when the negotiation is accepted and its verifier accepts the
      client, and its hello arrives as it was sent. */
  lemma SecondFlight(c: Crypto, vr: Verifier, client: Local, server: Local, p: N.Policy, f1: Bytes, signature: Bytes)
    requires PartiesOk(c, client, server, p) && ReadClientHello(f1) == Some((HelloOf(c, client), signature))
    requires Verifies(c, client.public, ClientInput(HelloOf(c, client)), signature)
    ensures var n := N.Negotiate(client.offer, server.offer, p);
            var answer := OnClientHello(c, vr, NewEnd(Responder), f1, p, server);
            && (answer.Some? <==>
                  n.status == N.Accepted &&
                  Authenticate(vr, client.offer, TranscriptOf(client, server, p), client.public, NOW).Some?)
            && (answer.Some? ==> Answered(c, vr, client, server, p, signature, answer.value.0, answer.value.1))
  {
    hide ClientInput, AfterClientHello, AfterServerHello, ServerInput, EncodeServerHello, Wrap, ReadClientHello,
      ReadServerHello, DeriveKeys, N.Transcript, N.Negotiate;
    var n := N.Negotiate(client.offer, server.offer, p);
    if n.status == N.Accepted {
      N.AcceptedHasTranscript(client.offer, server.offer, p);
      var h1 := AfterClientHello(HelloOf(c, client), signature);
      var mine := HelloOf(c, server);
      var mySignature := Sign(c, server.private, ServerInput(h1, mine, n));
      ServerFrame(mine, n, mySignature);
      SameKeys(c, AfterServerHello(h1, mine, n, mySignature, TranscriptOf(client, server, p)), n.suite,
               server.ephemeral, client.ephemeral);
    }
  }

  /** What the responder holds, and what the client will read, after the second flight. */
  ghost predicate Answered(c: Crypto, vr: Verifier, client: Local, server: Local, p: N.Policy, signature: Bytes,
                           r: End, f2: Bytes)
  {
    var n, mine := N.Negotiate(client.offer, server.offer, p), HelloOf(c, server);
    var h1 := AfterClientHello(HelloOf(c, client), signature);
    var mySignature := Sign(c, server.private, ServerInput(h1, mine, n));
    && n.status == N.Accepted && ReadServerHello(f2) == Some((mine, n, mySignature))
    && Verifies(c, server.public, ServerInput(h1, mine, n), mySignature)
    && r.role == Responder && r.state == ServerHelloSent && r.h1 == h1 && r.result == n
    && r.h2 == AfterServerHello(h1, mine, n, mySignature, TranscriptOf(client, server, p))
    && DeriveKeys(c, r.h2, n.suite, server.ephemeral, PublicOf(c, client.ephemeral)) == Some(r.keys)
    && r.clientOffer == client.offer && r.serverOffer == server.offer
    && r.trustDomain == server.trustDomain && r.subject == server.subject
    && Authenticate(vr, client.offer, TranscriptOf(client, server, p), client.public, NOW) == Some(r.peer)
  }

  lemma KeySizes(c: Crypto, h2: Bytes, suite: U16, private: Bytes, public: Bytes)
    requires forall prk, info, k: nat :: |c.expand(prk, info, k)| == k
    ensures var keys := DeriveKeys(c, h2, suite, private, public);
            keys.Some? ==> |keys.value.initiatorFinished| == 32 && |keys.value.responderFinished| == 32
  {
  }

  lemma DigestLength(h: Bytes, m: Bytes)
    ensures |Absorb(h, m)| == DIGEST_BYTES
  {
  }

  /** Both finished messages of the keys and transcript the responder holds exist and frame. */
  lemma ReadyToFinish(c: Crypto, vr: Verifier, client: Local, server: Local, p: N.Policy, signature: Bytes, r: End,
                      f2: Bytes)
    requires PartiesOk(c, client, server, p) && Answered(c, vr, client, server, p, signature, r, f2)
    ensures Finished(r.keys.initiatorFinished, r.h2).Some?
    ensures |Finished(r.keys.initiatorFinished, r.h2).value| == DIGEST_BYTES
    ensures forall h, m :: Finished(r.keys.responderFinished, Absorb(h, m)).Some?
    ensures forall h, m :: |Finished(r.keys.responderFinished, Absorb(h, m)).value| == DIGEST_BYTES
  {
    hide ClientInput, AfterClientHello, ServerInput, ReadServerHello, DeriveKeys, N.Transcript, N.Negotiate, Absorb,
      Sha256Standard.Hmac, Lawful, KeyPair, ServerPrefix;
    KeySizes(c, r.h2, r.result.suite, server.ephemeral, PublicOf(c, client.ephemeral));
    forall h, m ensures |Absorb(h, m)| == DIGEST_BYTES { DigestLength(h, m); }
  }

  /** Where the initiator stands after the third flight, next to a responder r. */
  ghost predicate Continues(i: End, r: End, server: Local, public: Bytes, peer: R.Peer, next: End, f3: Bytes) {
    && Finished(r.keys.initiatorFinished, r.h2).Some?
    && var verifyData := Finished(r.keys.initiatorFinished, r.h2).value;
       && ReadFinished(CLIENT_FINISHED, f3) == Some(verifyData)
       && next == i.(state := ClientFinishedSent, serverOffer := server.offer, result := r.result,
                     peerEphemeral := public, h2 := r.h2, keys := r.keys, peer := peer, h3 := Absorb(r.h2, verifyData))
  }

  /** Third flight: the initiator goes on exactly when its verifier accepts the server. It then has the
      responder's transcript and keys, and its finished message is the one the responder expects. */
  lemma ThirdFlight(c: Crypto, vi: Verifier, vr: Verifier, client: Local, server: Local, p: N.Policy, signature: Bytes,
                    i: End, r: End, f2: Bytes)
    requires PartiesOk(c, client, server, p) && Answered(c, vr, client, server, p, signature, r, f2)
    requires i.role == Initiator && i.state == ClientHelloSent && i.clientOffer == client.offer
    requires i.h1 == r.h1 && i.ephemeralPrivate == client.ephemeral
    ensures var next := OnServerHello(c, vi, i, f2);
            var peer := Authenticate(vi, server.offer, TranscriptOf(client, server, p), server.public, NOW);
            && (next.Some? <==> peer.Some?)
            && (next.Some? ==>
                  Continues(i, r, server, PublicOf(c, server.ephemeral), peer.value, next.value.0, next.value.1))
  {
    hide ClientInput, AfterClientHello, ServerInput, Wrap, ReadClientHello, ReadFinished, FinishedFrame,
      ReadServerHello, DeriveKeys, N.Transcript, N.Negotiate, Finished, Lawful, KeyPair, Absorb;
    N.AcceptedHasTranscript(client.offer, server.offer, p);
    SameKeys(c, r.h2, r.result.suite, client.ephemeral, server.ephemeral);
    ReadyToFinish(c, vr, client, server, p, signature, r, f2);
    FinishedFrames(CLIENT_FINISHED, Finished(r.keys.initiatorFinished, r.h2).value);
  }

  /** What registration asks of an authenticated peer. */
  predicate PeerOk(peer: R.Peer, endpoint: N.Endpoint) {
    peer.endpoint == endpoint && peer.ValidAt(NOW) && peer.expiresAt >= EXPIRES
  }

  /** An end registers its session exactly when the peer it authenticated is in order and the session number is
      new: the negotiation done again never stands in the way. */
  lemma RegistersExactly(e: End, m: R.Sessions, p: N.Policy)
    requires e.result == N.Negotiate(e.clientOffer, e.serverOffer, p) && e.result.status == N.Accepted
    requires e.trustDomain != 0 && e.subject != 0
    ensures R.Establish(m, IdOf(e), ProposalOf(e)).1 <==>
            IdOf(e) != 0 && IdOf(e) !in m &&
            PeerOk(e.peer, if e.role == Initiator then e.serverOffer.endpoint else e.clientOffer.endpoint)
  {
    hide SessionId, N.Negotiate;
    N.RenegotiationAgrees(e.clientOffer, e.serverOffer, p);
    AcceptedOffersAreValid(e.clientOffer, e.serverOffer, p);
  }

  lemma AcceptedOffersAreValid(i: N.Offer, r: N.Offer, p: N.Policy)
    requires N.Negotiate(i, r, p).status == N.Accepted
    ensures i.Valid() && r.Valid()
  {
  }

  datatype Outcome = Outcome(initiator: End, responder: End, initiatorSessions: R.Sessions,
                             responderSessions: R.Sessions)

  /** The first three calls of a run whose frames arrive as they were sent: the initiator after its first and
      second call, the responder after its first, and the second and third frame. */
  datatype Half = Half(i1: End, i2: End, r1: End, f2: Bytes, f3: Bytes)

  function FirstHalf(c: Crypto, vi: Verifier, vr: Verifier, client: Local, server: Local, p: N.Policy): Option<Half> {
    match Start(c, NewEnd(Initiator), client.offer, client.trustDomain, client.subject, client.private, client.public,
                client.ephemeral)
    case None => None
    case Some((i1, f1)) =>
      match OnClientHello(c, vr, NewEnd(Responder), f1, p, server)
      case None => None
      case Some((r1, f2)) =>
        match OnServerHello(c, vi, i1, f2)
        case None => None
        case Some((i2, f3)) => Some(Half(i1, i2, r1, f2, f3))
  }

  /** All five calls. */
  function HonestRun(c: Crypto, vi: Verifier, vr: Verifier, client: Local, server: Local, p: N.Policy,
                     mi: R.Sessions, mr: R.Sessions): Option<Outcome>
  {
    match FirstHalf(c, vi, vr, client, server, p)
    case None => None
    case Some(h) => Finish(h.i2, h.r1, h.f3, mi, mr)
  }

  function Finish(i2: End, r1: End, f3: Bytes, mi: R.Sessions, mr: R.Sessions): Option<Outcome> {
    match OnClientFinished(r1, mr, f3)
    case None => None
    case Some((r2, mr', f4)) =>
      match OnServerFinished(i2, mi, f4)
      case None => None
      case Some((i3, mi')) => Some(Outcome(i3, r2, mi', mr'))
  }

  /** Both ends ended up with the same. */
  predicate Agree(o: Outcome) {
    && o.initiator.state == Active && o.responder.state == Active
    && o.initiator.h1 == o.responder.h1 && o.initiator.h2 == o.responder.h2
    && o.initiator.h3 == o.responder.h3 && o.initiator.h4 == o.responder.h4
    && o.initiator.keys == o.responder.keys && o.initiator.keys != NO_KEYS
    && IdOf(o.initiator) == IdOf(o.responder)
    && IdOf(o.initiator) in o.initiatorSessions && IdOf(o.initiator) in o.responderSessions
    && SameSession(o.initiatorSessions[IdOf(o.initiator)], o.responderSessions[IdOf(o.initiator)])
  }

  predicate AgreeIfDone(o: Option<Outcome>) {
    o.Some? ==> Agree(o.value)
  }

  predicate SameSession(a: R.Record, b: R.Record) {
    && a.epoch == b.epoch && a.keyId == b.keyId && a.level == b.level && a.suite == b.suite
    && a.transcript == b.transcript && a.establishedAt == b.establishedAt && a.activatedAt == b.activatedAt
    && a.expiresAt == b.expiresAt && a.state == R.Active && b.state == R.Active
    && a.initiatorEpoch == b.initiatorEpoch && a.initiatorToken == b.initiatorToken
    && a.responderEpoch == b.responderEpoch && a.responderToken == b.responderToken
  }

  /** The last two flights: the responder finishes exactly when it can register, then the initiator exactly when
      it can, and then they agree. */
  lemma LastFlights(c: Crypto, vr: Verifier, client: Local, server: Local, p: N.Policy, signature: Bytes, i: End,
                    r: End, f2: Bytes, peer: R.Peer, i2: End, f3: Bytes, mi: R.Sessions, mr: R.Sessions)
    requires PartiesOk(c, client, server, p) && Answered(c, vr, client, server, p, signature, r, f2)
    requires i.role == Initiator && i.clientOffer == client.offer && i.h1 == r.h1
    requires i.trustDomain == client.trustDomain && i.subject == client.subject
    requires Continues(i, r, server, PublicOf(c, server.ephemeral), peer, i2, f3)
    ensures var id := SessionId(client.offer.endpoint.node, server.offer.endpoint.node);
            Finish(i2, r, f3, mi, mr).Some? <==>
              id != 0 && id !in mi && id !in mr && PeerOk(r.peer, client.offer.endpoint) &&
              PeerOk(peer, server.offer.endpoint)
    ensures AgreeIfDone(Finish(i2, r, f3, mi, mr))
  {
    hide ClientInput, AfterClientHello, AfterServerHello, ServerInput, ReadServerHello, ReadFinished, FinishedFrame,
      N.Transcript, N.Negotiate, Finished, Lawful, KeyPair, Absorb, SessionId, R.Acceptable, N.EncodeTranscript;
    ReadyToFinish(c, vr, client, server, p, signature, r, f2);
    var h3 := i2.h3;
    var mine := Finished(r.keys.responderFinished, h3).value;
    FinishedFrames(SERVER_FINISHED, mine);
    RegistersExactly(r, mr, p);
    RegistersExactly(i2, mi, p);
  }

  /** All a run depends on besides sound parties. */
  predicate RunConditions(vi: Verifier, vr: Verifier, client: Local, server: Local, p: N.Policy, mi: R.Sessions,
                          mr: R.Sessions)
  {
    var id := SessionId(client.offer.endpoint.node, server.offer.endpoint.node);
    var transcript := TranscriptOf(client, server, p);
    var asClient := Authenticate(vr, client.offer, transcript, client.public, NOW);
    var asServer := Authenticate(vi, server.offer, transcript, server.public, NOW);
    && N.Negotiate(client.offer, server.offer, p).status == N.Accepted
    && asClient.Some? && asServer.Some?
    && PeerOk(asClient.value, client.offer.endpoint) && PeerOk(asServer.value, server.offer.endpoint)
    && id != 0 && id !in mi && id !in mr
  }

  function FirstSignature(c: Crypto, client: Local): Bytes {
    Sign(c, client.private, ClientInput(HelloOf(c, client)))
  }

  /** What the last flights need of the first half. */
  ghost predicate HalfWay(c: Crypto, vr: Verifier, client: Local, server: Local, p: N.Policy, peer: R.Peer, h: Half) {
    && Answered(c, vr, client, server, p, FirstSignature(c, client), h.r1, h.f2)
    && h.i1.role == Initiator && h.i1.clientOffer == client.offer && h.i1.h1 == h.r1.h1
    && h.i1.trustDomain == client.trustDomain && h.i1.subject == client.subject
    && Continues(h.i1, h.r1, server, PublicOf(c, server.ephemeral), peer, h.i2, h.f3)
  }

  lemma FirstHalfSucceeds(c: Crypto, vi: Verifier, vr: Verifier, client: Local, server: Local, p: N.Policy)
    requires PartiesOk(c, client, server, p)
    ensures var h := FirstHalf(c, vi, vr, client, server, p);
            var transcript := TranscriptOf(client, server, p);
            && (h.Some? <==>
                  && N.Negotiate(client.offer, server.offer, p).status == N.Accepted
                  && Authenticate(vr, client.offer, transcript, client.public, NOW).Some?
                  && Authenticate(vi, server.offer, transcript, server.public, NOW).Some?)
            && (h.Some? ==>
                  HalfWay(c, vr, client, server, p,
                          Authenticate(vi, server.offer, transcript, server.public, NOW).value, h.value))
  {
    hide Start, OnClientHello, OnServerHello, PartiesOk, ClientInput, AfterClientHello, N.Transcript,
      N.Negotiate, ReadClientHello, ReadServerHello, ServerInput, AfterServerHello, Continues, DeriveKeys, HelloOf;
    FirstFlight(c, client, server, p);
    var (i1, f1) := Start(c, NewEnd(Initiator), client.offer, client.trustDomain, client.subject, client.private,
                          client.public, client.ephemeral).value;
    HelloNames(c, client);
    SecondFlight(c, vr, client, server, p, f1, FirstSignature(c, client));
    var answer := OnClientHello(c, vr, NewEnd(Responder), f1, p, server);
    if answer.Some? {
      var (r1, f2) := answer.value;
      ThirdFlight(c, vi, vr, client, server, p, FirstSignature(c, client), i1, r1, f2);
    }
  }

  lemma HelloNames(c: Crypto, l: Local)
    ensures HelloOf(c, l).publicKey == l.public
  {
  }

  /** A run whose frames are not tampered with completes exactly when the offers negotiate, both verifiers accept
      a peer in order, and the session number is nonzero and new at both ends; and whenever it completes, both
      ends are active with the same transcript hashes, the same keys and the same registered session. */
  lemma HonestRunAgrees(c: Crypto, vi: Verifier, vr: Verifier, client: Local, server: Local, p: N.Policy,
                        mi: R.Sessions, mr: R.Sessions)
    requires PartiesOk(c, client, server, p)
    ensures HonestRun(c, vi, vr, client, server, p, mi, mr).Some? <==> RunConditions(vi, vr, client, server, p, mi, mr)
    ensures AgreeIfDone(HonestRun(c, vi, vr, client, server, p, mi, mr))
  {
    hide FirstHalf, Finish, Agree, PartiesOk, ClientInput, AfterClientHello, SessionId, N.Transcript, N.Negotiate,
      PeerOk, ServerInput, AfterServerHello, Continues, DeriveKeys, HelloOf, ReadServerHello;
    FirstHalfSucceeds(c, vi, vr, client, server, p);
    var h := FirstHalf(c, vi, vr, client, server, p);
    if h.Some? {
      var peer := Authenticate(vi, server.offer, TranscriptOf(client, server, p), server.public, NOW).value;
      LastFlights(c, vr, client, server, p, FirstSignature(c, client), h.value.i1, h.value.r1, h.value.f2, peer,
                  h.value.i2, h.value.f3, mi, mr);
    }
  }

  // ---- Any calls at all --------------------------------------------------------------------------------------

  datatype Call =
    | CallStart(local: Local)
    | CallClientHello(clientHello: Bytes, policy: N.Policy, mine: Local)
    | CallServerHello(serverHello: Bytes)
    | CallClientFinished(clientFinished: Bytes)
    | CallServerFinished(serverFinished: Bytes)

  /** One call on an end: what it makes of the end and the registry, and whether it succeeded. */
  function Do(c: Crypto, v: Verifier, e: End, m: R.Sessions, call: Call): (End, R.Sessions, bool) {
    match call
    case CallStart(l) =>
      (match Start(c, e, l.offer, l.trustDomain, l.subject, l.private, l.public, l.ephemeral)
       case None => (Abort(e), m, false)
       case Some((e', _)) => (e', m, true))
    case CallClientHello(frame, p, l) =>
      (match OnClientHello(c, v, e, frame, p, l)
       case None => (Abort(e), m, false)
       case Some((e', _)) => (e', m, true))
    case CallServerHello(frame) =>
      (match OnServerHello(c, v, e, frame)
       case None => (Abort(e), m, false)
       case Some((e', _)) => (e', m, true))
    case CallClientFinished(frame) =>
      (match OnClientFinished(e, m, frame)
       case None => (Abort(e), m, false)
       case Some((e', m', _)) => (e', m', true))
    case CallServerFinished(frame) =>
      (match OnServerFinished(e, m, frame)
       case None => (Abort(e), m, false)
       case Some((e', m')) => (e', m', true))
  }

  /** The one state a call can succeed in. */
  function Wants(call: Call): (Role, State) {
    match call
    case CallStart(_) => (Initiator, Uninitialized)
    case CallClientHello(_, _, _) => (Responder, Uninitialized)
    case CallServerHello(_) => (Initiator, ClientHelloSent)
    case CallClientFinished(_) => (Responder, ServerHelloSent)
    case CallServerFinished(_) => (Initiator, ClientFinishedSent)
  }

  function Next(call: Call): State {
    match call
    case CallStart(_) => ClientHelloSent
    case CallClientHello(_, _, _) => ServerHelloSent
    case CallServerHello(_) => ClientFinishedSent
    case CallClientFinished(_) => Active
    case CallServerFinished(_) => Active
  }

  /** A call out of its order fails, a failed call leaves nothing but a failed end without keys and secrets and an
      untouched registry, and a successful one leads to the one next state. */
  lemma CallsKeepTheirOrder(c: Crypto, v: Verifier, e: End, m: R.Sessions, call: Call)
    ensures var (e', m', ok) := Do(c, v, e, m, call);
            && e'.role == e.role
            && (ok ==> (e.role, e.state) == Wants(call) && e'.state == Next(call))
            && (!ok ==>
                  && e'.state == Failed && e'.keys == NO_KEYS && e'.localPrivate == [] && e'.ephemeralPrivate == []
                  && m' == m)
  {
    hide AnswerHello, AcceptHello, ReadClientHello, ReadServerHello, ReadFinished, FinishedFrame, Finished, R.Establish,
      ClientInput, AfterClientHello, EncodeClientHello, Wrap, Absorb;
    if call.CallClientHello? && ReadClientHello(call.clientHello).Some? {
      var (h, signature) := ReadClientHello(call.clientHello).value;
      AnswerLeadsOn(c, v, e, call.policy, call.mine, h, signature);
    }
    if call.CallServerHello? && ReadServerHello(call.serverHello).Some? {
      var (h, n, signature) := ReadServerHello(call.serverHello).value;
      AcceptLeadsOn(c, v, e, h, n, signature);
    }
  }

  lemma AnswerLeadsOn(c: Crypto, v: Verifier, e: End, p: N.Policy, l: Local, h: Hello, signature: Bytes)
    ensures var a := AnswerHello(c, v, e, p, l, h, signature);
            a.Some? ==> a.value.0.role == e.role && a.value.0.state == ServerHelloSent
  {
    hide ClientInput, AfterClientHello, AfterServerHello, ServerInput, EncodeServerHello, Wrap, DeriveKeys, N.Negotiate,
      N.EncodeTranscript;
  }

  lemma AcceptLeadsOn(c: Crypto, v: Verifier, e: End, h: Hello, n: N.Result, signature: Bytes)
    ensures var a := AcceptHello(c, v, e, h, n, signature);
            a.Some? ==> a.value.0.role == e.role && a.value.0.state == ClientFinishedSent
  {
    hide AfterServerHello, ServerInput, DeriveKeys, N.EncodeTranscript, Finished, FinishedFrame, Absorb;
  }

  function DoAll(c: Crypto, v: Verifier, e: End, m: R.Sessions, calls: seq<Call>): (End, R.Sessions)
    decreases |calls|
  {
    if calls == [] then (e, m)
    else
      var (e', m', _) := Do(c, v, e, m, calls[0]);
      DoAll(c, v, e', m', calls[1..])
  }

  /** An end that has failed, and one that is active and is called again, is failed for ever after and registers
      nothing more. */
  lemma {:induction false} FailureIsForEver(c: Crypto, v: Verifier, e: End, m: R.Sessions, calls: seq<Call>)
    requires e.state == Failed || (e.state == Active && calls != [])
    ensures DoAll(c, v, e, m, calls).0.state == Failed && DoAll(c, v, e, m, calls).1 == m
    decreases |calls|
  {
    hide Do;
    if calls != [] {
      CallsKeepTheirOrder(c, v, e, m, calls[0]);
      var (e', m', _) := Do(c, v, e, m, calls[0]);
      FailureIsForEver(c, v, e', m', calls[1..]);
    }
  }
}
