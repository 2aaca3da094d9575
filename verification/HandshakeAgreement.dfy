/** What two ends that finished a handshake have in common, over any calls at either end: equal last transcript
    hashes mean equal everything, if no two of the strings they hashed share a digest. */
module HandshakeAgreement {

  import opened Basics
  import opened Wire
  import opened HandshakeMessages
  import opened Handshake
  import HashChain
  import N = Negotiation
  import R = SessionRegistry
  import Sha256Standard

  // ---- What an end absorbs -----------------------------------------------------------------------------------

  /** The transcript hash after these messages. */
  function Chain(messages: seq<Bytes>): Bytes { HashChain.Chain(H0(), messages) }

  /** Everything that is hashed on the way. */
  function Inputs(messages: seq<Bytes>): set<Bytes> { HashChain.Inputs(H0(), messages) }

  function TranscriptBytes(i: N.Offer, r: N.Offer, n: N.Result): Bytes {
    match N.EncodeTranscript(i, r, n)
    case None => []
    case Some(t) => t
  }

  function OrNone(b: Option<Bytes>): Bytes {
    match b
    case None => []
    case Some(data) => data
  }

  function FromHello(c: Crypto, p: N.Policy, l: Local, h: Hello, signature: Bytes): seq<Bytes> {
    var n := N.Negotiate(h.offer, l.offer, p);
    var mine := HelloOf(c, l);
    [ClientPrefix(h), signature, ServerPrefix(mine, n),
     Sign(c, l.private, ServerInput(AfterClientHello(h, signature), mine, n)), TranscriptBytes(h.offer, l.offer, n)]
  }

  function FromServerHello(c: Crypto, e: End, h: Hello, n: N.Result, signature: Bytes): seq<Bytes> {
    var transcript := TranscriptBytes(e.clientOffer, h.offer, n);
    var h2 := AfterServerHello(e.h1, h, n, signature, transcript);
    match DeriveKeys(c, h2, n.suite, e.ephemeralPrivate, h.ephemeral)
    case None => []
    case Some(keys) => [ServerPrefix(h, n), signature, transcript, OrNone(Finished(keys.initiatorFinished, h2))]
  }

  /** The messages a call that succeeds chains into the transcript, sent or received. */
  function Absorbed(c: Crypto, e: End, call: Call): seq<Bytes> {
    match call
    case CallStart(l) => [ClientPrefix(HelloOf(c, l)), FirstSignature(c, l)]
    case CallClientHello(frame, p, l) =>
      (match ReadClientHello(frame)
       case None => []
       case Some((h, signature)) => FromHello(c, p, l, h, signature))
    case CallServerHello(frame) =>
      (match ReadServerHello(frame)
       case None => []
       case Some((h, n, signature)) => FromServerHello(c, e, h, n, signature))
    case CallClientFinished(frame) =>
      (match ReadFinished(CLIENT_FINISHED, frame)
       case None => []
       case Some(verifyData) => [verifyData, OrNone(Finished(e.keys.responderFinished, Absorb(e.h2, verifyData)))])
    case CallServerFinished(frame) => [OrNone(ReadFinished(SERVER_FINISHED, frame))]
  }

  function AbsorbedAll(c: Crypto, v: Verifier, e: End, m: R.Sessions, calls: seq<Call>): seq<Bytes>
    decreases |calls|
  {
    if calls == [] then []
    else
      var (e', m', ok) := Do(c, v, e, m, calls[0]);
      (if ok then Absorbed(c, e, calls[0]) else []) + AbsorbedAll(c, v, e', m', calls[1..])
  }

  // ---- The chain ---------------------------------------------------------------------------------------------

  lemma ChainAdds(messages: seq<Bytes>, message: Bytes)
    ensures Chain(messages + [message]) == Absorb(Chain(messages), message)
  {
    hide H0, HashChain.Chain, Sha256Standard.Sha256;
    HashChain.ChainAdds(H0(), messages, message);
  }

  lemma ChainLength(messages: seq<Bytes>)
    ensures |Chain(messages)| == DIGEST_BYTES
  {
    hide H0, HashChain.Chain;
    FirstLength();
    HashChain.ChainLength(H0(), messages);
  }

  lemma FirstLength()
    ensures |H0()| == DIGEST_BYTES
  {
    hide Ascii;
  }

  /** Without collisions the last hash determines every message of the chain. */
  lemma ChainIsInjective(a: seq<Bytes>, b: seq<Bytes>)
    requires |a| == |b| && Chain(a) == Chain(b) && HashChain.NoCollision(Inputs(a) + Inputs(b))
    ensures a == b
  {
    hide H0, HashChain.Chain, HashChain.Inputs, HashChain.NoCollision;
    HashChain.ChainIsInjective(H0(), a, b);
  }

  lemma FewerInputs(a: seq<Bytes>, k: nat)
    requires k <= |a|
    ensures Inputs(a[..k]) <= Inputs(a)
  {
    hide H0, HashChain.Chain, HashChain.Inputs;
    HashChain.FewerInputs(H0(), a, k);
  }

  // ---- What an end knows -------------------------------------------------------------------------------------

  /** The client's hello, in an end's terms: its offer, and the ephemeral key the client has the private half of. */
  predicate IsClient(c: Crypto, e: End, h: Hello) {
    && h.Valid() && h.offer == e.clientOffer
    && h.ephemeral == if e.role == Initiator then PublicOf(c, e.ephemeralPrivate) else e.peerEphemeral
  }

  predicate IsServer(c: Crypto, e: End, h: Hello) {
    && h.Valid() && h.offer == e.serverOffer && e.result.status == N.Accepted
    && h.ephemeral == if e.role == Initiator then e.peerEphemeral else PublicOf(c, e.ephemeralPrivate)
  }

  ghost predicate Opened(c: Crypto, e: End, log: seq<Bytes>) {
    && |log| >= 2 && e.h1 == Chain(log[..2])
    && exists h :: IsClient(c, e, h) && log[0] == ClientPrefix(h)
  }

  ghost predicate Keyed(c: Crypto, e: End, log: seq<Bytes>) {
    && |log| >= 5 && e.h2 == Chain(log[..5])
    && (exists h :: IsServer(c, e, h) && log[2] == ServerPrefix(h, e.result))
    && DeriveKeys(c, e.h2, e.result.suite, e.ephemeralPrivate, e.peerEphemeral) == Some(e.keys)
  }

  predicate Registered(e: End, m: R.Sessions) {
    && IdOf(e) in m && m[IdOf(e)] == R.NewRecord(ProposalOf(e))
    && e.keys.responderFinished != []
  }

  /** An end and the messages it absorbed belong together. */
  ghost predicate Follows(c: Crypto, e: End, m: R.Sessions, log: seq<Bytes>) {
    match e.state
    case Uninitialized => log == []
    case ClientHelloSent => |log| == 2 && Opened(c, e, log)
    case ServerHelloSent => |log| == 5 && Opened(c, e, log) && Keyed(c, e, log)
    case ClientFinishedSent => |log| == 6 && Opened(c, e, log) && Keyed(c, e, log) && e.h3 == Chain(log)
    case Active => |log| == 7 && Opened(c, e, log) && Keyed(c, e, log) && e.h4 == Chain(log) && Registered(e, m)
    case Failed => true
  }

  lemma ChainStarts()
    ensures Chain([]) == H0()
  {
    hide H0;
  }

  lemma ChainTwo(a: Bytes, b: Bytes)
    ensures Chain([a, b]) == Absorb(Absorb(H0(), a), b)
  {
    hide Absorb, H0, Chain;
    ChainStarts();
    ChainAdds([], a);
    ChainAdds([a], b);
    assert [] + [a] == [a] && [a] + [b] == [a, b];
  }

  lemma ChainThreeMore(log: seq<Bytes>, a: Bytes, b: Bytes, d: Bytes)
    ensures Chain(log + [a, b, d]) == Absorb(Absorb(Absorb(Chain(log), a), b), d)
  {
    hide Absorb, H0, Chain;
    ChainAdds(log, a);
    ChainAdds(log + [a], b);
    ChainAdds(log + [a] + [b], d);
    assert log + [a] + [b] + [d] == log + [a, b, d];
  }

  lemma StartFollows(c: Crypto, e: End, m: R.Sessions, l: Local)
    requires Lawful(c)
    ensures var started := Start(c, e, l.offer, l.trustDomain, l.subject, l.private, l.public, l.ephemeral);
            started.Some? ==> Follows(c, started.value.0, m, Absorbed(c, e, CallStart(l)))
  {
    hide ClientInput, ClientPrefix, H0, Absorb, Wrap, Chain, PublicOf, Sign;
    var h := HelloOf(c, l);
    ChainTwo(ClientPrefix(h), FirstSignature(c, l));
    var log := [ClientPrefix(h), FirstSignature(c, l)];
    assert log[..2] == log;
    var started := Start(c, e, l.offer, l.trustDomain, l.subject, l.private, l.public, l.ephemeral);
    if started.Some? { assert IsClient(c, started.value.0, h); }
  }

  lemma AnswerFollows(c: Crypto, v: Verifier, e: End, m: R.Sessions, p: N.Policy, l: Local, h: Hello, signature: Bytes)
    requires Lawful(c) && h.Valid() && e.role == Responder
    ensures var answer := AnswerHello(c, v, e, p, l, h, signature);
            answer.Some? ==> Follows(c, answer.value.0, m, FromHello(c, p, l, h, signature))
  {
    hide ClientInput, ServerInput, ClientPrefix, ServerPrefix, H0, Absorb, Wrap, Chain, PublicOf, Sign, DeriveKeys,
      N.Negotiate, N.EncodeTranscript, Verifies, Authenticate;
    var log := FromHello(c, p, l, h, signature);
    ChainTwo(log[0], log[1]);
    ChainThreeMore(log[..2], log[2], log[3], log[4]);
    assert log[..2] == [log[0], log[1]] && log == log[..2] + [log[2], log[3], log[4]] == log[..5];
    var answer := AnswerHello(c, v, e, p, l, h, signature);
    if answer.Some? {
      var mine := HelloOf(c, l);
      assert IsClient(c, answer.value.0, h);
      assert IsServer(c, answer.value.0, mine);
    }
  }

  lemma AcceptFollows(c: Crypto, v: Verifier, e: End, m: R.Sessions, h: Hello, n: N.Result, signature: Bytes,
                      log: seq<Bytes>)
    requires |log| == 2 && Opened(c, e, log) && h.Valid() && n.status == N.Accepted && e.role == Initiator
    ensures var answer := AcceptHello(c, v, e, h, n, signature);
            answer.Some? ==> Follows(c, answer.value.0, m, log + FromServerHello(c, e, h, n, signature))
  {
    hide ServerInput, ClientPrefix, ServerPrefix, H0, Absorb, FinishedFrame, Chain, PublicOf, DeriveKeys, Finished,
      N.EncodeTranscript, Verifies, Authenticate;
    var answer := AcceptHello(c, v, e, h, n, signature);
    if answer.Some? {
      var more := FromServerHello(c, e, h, n, signature);
      ChainThreeMore(log, more[0], more[1], more[2]);
      ChainAdds(log + [more[0], more[1], more[2]], more[3]);
      var all := log + more;
      assert all == log + [more[0], more[1], more[2]] + [more[3]];
      assert all[..5] == log + [more[0], more[1], more[2]] && all[..2] == log[..2] == log;
      var client :| IsClient(c, e, client) && log[0] == ClientPrefix(client);
      assert IsClient(c, answer.value.0, client);
      assert IsServer(c, answer.value.0, h);
    }
  }
  /** The last two calls change nothing an end knows but the hashes they add. */
  predicate SameButHashes(e: End, e': End) {
    e' == e.(state := e'.state, h3 := e'.h3, h4 := e'.h4)
  }

  lemma FinishingKeeps(c: Crypto, e: End, e': End, log: seq<Bytes>, more: seq<Bytes>)
    requires SameButHashes(e, e')
    ensures Opened(c, e, log) ==> Opened(c, e', log + more)
    ensures Keyed(c, e, log) ==> Keyed(c, e', log + more)
    ensures IdOf(e') == IdOf(e) && ProposalOf(e') == ProposalOf(e)
  {
    hide ClientPrefix, ServerPrefix, Chain, PublicOf, DeriveKeys, SessionId;
    if Opened(c, e, log) {
      assert (log + more)[..2] == log[..2];
      var h :| IsClient(c, e, h) && log[0] == ClientPrefix(h);
      assert IsClient(c, e', h);
    }
    if Keyed(c, e, log) {
      assert (log + more)[..5] == log[..5];
      var h :| IsServer(c, e, h) && log[2] == ServerPrefix(h, e.result);
      assert IsServer(c, e', h);
    }
  }

  lemma RegistersOnce(e: End, m: R.Sessions)
    ensures var (m', ok) := R.Establish(m, IdOf(e), ProposalOf(e));
            ok ==> IdOf(e) in m' && m'[IdOf(e)] == R.NewRecord(ProposalOf(e))
  {
    hide SessionId, R.Acceptable, R.NewRecord;
  }

  /** What a call with a finished message makes of an end. */
  predicate Finishes(e: End, e': End, m': R.Sessions, h4: Bytes) {
    && SameButHashes(e, e') && e'.state == Active && e'.h4 == h4
    && IdOf(e) in m' && m'[IdOf(e)] == R.NewRecord(ProposalOf(e)) && e.keys.responderFinished != []
  }

  lemma ClientFinishedNeeds(c: Crypto, e: End, m: R.Sessions, frame: Bytes)
    requires OnClientFinished(e, m, frame).Some?
    ensures e.state == ServerHelloSent && |Absorbed(c, e, CallClientFinished(frame))| == 2
    ensures R.Establish(m, IdOf(e), ProposalOf(e)).1 && e.keys.responderFinished != []
  {
    hide ReadFinished, FinishedFrame, Absorb, IdOf, ProposalOf, R.Establish, Sha256Standard.Hmac, ReadClientHello,
      ReadServerHello, FromHello, FromServerHello, ClientPrefix, HelloOf, FirstSignature;
  }

  lemma ClientFinishedGives(c: Crypto, e: End, m: R.Sessions, frame: Bytes)
    requires OnClientFinished(e, m, frame).Some?
    ensures var (e', m', _) := OnClientFinished(e, m, frame).value;
            var more := Absorbed(c, e, CallClientFinished(frame));
            && m' == R.Establish(m, IdOf(e), ProposalOf(e)).0 && SameButHashes(e, e') && e'.state == Active
            && (|more| == 2 ==> e'.h4 == Absorb(Absorb(e.h2, more[0]), more[1]))
  {
    hide ReadFinished, FinishedFrame, Finished, Absorb, IdOf, ProposalOf, R.Establish, ReadClientHello,
      ReadServerHello, FromHello, FromServerHello, ClientPrefix, HelloOf, FirstSignature;
  }

  lemma ClientFinishedMakes(c: Crypto, e: End, m: R.Sessions, frame: Bytes)
    ensures var done := OnClientFinished(e, m, frame);
            var more := Absorbed(c, e, CallClientFinished(frame));
            done.Some? ==>
              && e.state == ServerHelloSent && |more| == 2
              && Finishes(e, done.value.0, done.value.1, Absorb(Absorb(e.h2, more[0]), more[1]))
  {
    hide OnClientFinished, Absorbed, Absorb, IdOf, ProposalOf, R.NewRecord, R.Establish;
    if OnClientFinished(e, m, frame).Some? {
      RegistersOnce(e, m);
      ClientFinishedNeeds(c, e, m, frame);
      ClientFinishedGives(c, e, m, frame);
    }
  }

  lemma FinishedFollows(c: Crypto, e: End, e': End, m': R.Sessions, log: seq<Bytes>, more: seq<Bytes>)
    requires Opened(c, e, log) && Keyed(c, e, log) && |log + more| == 7
    requires Finishes(e, e', m', Chain(log + more))
    ensures Follows(c, e', m', log + more)
  {
    hide Chain, Opened, Keyed, IdOf, ProposalOf, R.NewRecord;
    FinishingKeeps(c, e, e', log, more);
  }

  lemma ClientFinishedFollows(c: Crypto, e: End, m: R.Sessions, frame: Bytes, log: seq<Bytes>)
    requires Follows(c, e, m, log)
    ensures var done := OnClientFinished(e, m, frame);
            done.Some? ==> Follows(c, done.value.0, done.value.1, log + Absorbed(c, e, CallClientFinished(frame)))
  {
    ClientFinishedMakes(c, e, m, frame);
    hide OnClientFinished, Absorbed, Absorb, Chain, Opened, Keyed, Finishes, Registered;
    var done := OnClientFinished(e, m, frame);
    if done.Some? {
      var more := Absorbed(c, e, CallClientFinished(frame));
      KeyedChain(c, e, log);
      ChainAdds(log, more[0]);
      ChainAdds(log + [more[0]], more[1]);
      assert log + more == log + [more[0]] + [more[1]];
      FinishedFollows(c, e, done.value.0, done.value.1, log, more);
    }
  }

  lemma KeyedChain(c: Crypto, e: End, log: seq<Bytes>)
    requires Keyed(c, e, log) && |log| == 5
    ensures e.h2 == Chain(log) && log[..5] == log
  {
    hide Chain, ServerPrefix, DeriveKeys;
    assert log[..5] == log;
  }

  lemma FinishedNeedsKey(key: Bytes, h: Bytes)
    ensures Finished(key, h).Some? ==> key != []
  {
  }

  lemma AbsorbedOne(c: Crypto, e: End, frame: Bytes)
    ensures Absorbed(c, e, CallServerFinished(frame)) == [OrNone(ReadFinished(SERVER_FINISHED, frame))]
  {
    hide ReadClientHello, ReadServerHello, ReadFinished, FromHello, FromServerHello, ClientPrefix, HelloOf,
      FirstSignature, Finished, Absorb;
  }

  /** What the two calls with a hello from the peer add. */
  lemma AbsorbedFromClient(c: Crypto, e: End, frame: Bytes, p: N.Policy, l: Local)
    ensures match ReadClientHello(frame)
            case None => true
            case Some((h, signature)) =>
              Absorbed(c, e, CallClientHello(frame, p, l)) == FromHello(c, p, l, h, signature)
  {
    hide ReadClientHello, ReadServerHello, ReadFinished, FromHello, FromServerHello, ClientPrefix, HelloOf,
      FirstSignature, Finished, Absorb;
  }

  lemma AbsorbedFromServer(c: Crypto, e: End, frame: Bytes)
    ensures match ReadServerHello(frame)
            case None => true
            case Some((h, n, signature)) =>
              Absorbed(c, e, CallServerHello(frame)) == FromServerHello(c, e, h, n, signature)
  {
    hide ReadClientHello, ReadServerHello, ReadFinished, FromHello, FromServerHello, ClientPrefix, HelloOf,
      FirstSignature, Finished, Absorb;
  }

  lemma ServerFinishedNeeds(c: Crypto, e: End, m: R.Sessions, frame: Bytes)
    requires OnServerFinished(e, m, frame).Some?
    ensures e.state == ClientFinishedSent && R.Establish(m, IdOf(e), ProposalOf(e)).1 && e.keys.responderFinished != []
  {
    hide ReadFinished, Absorb, IdOf, ProposalOf, R.Establish, Sha256Standard.Hmac;
  }

  lemma ServerFinishedGives(c: Crypto, e: End, m: R.Sessions, frame: Bytes)
    requires OnServerFinished(e, m, frame).Some?
    ensures var (e', m') := OnServerFinished(e, m, frame).value;
            var more := Absorbed(c, e, CallServerFinished(frame));
            && m' == R.Establish(m, IdOf(e), ProposalOf(e)).0 && SameButHashes(e, e') && e'.state == Active
            && (|more| == 1 ==> e'.h4 == Absorb(e.h3, more[0]))
  {
    hide ReadFinished, Finished, Absorb, Absorbed, IdOf, ProposalOf, R.Establish;
    AbsorbedOne(c, e, frame);
  }

  lemma ServerFinishedMakes(c: Crypto, e: End, m: R.Sessions, frame: Bytes)
    ensures var done := OnServerFinished(e, m, frame);
            var more := Absorbed(c, e, CallServerFinished(frame));
            done.Some? ==>
              && e.state == ClientFinishedSent && |more| == 1
              && Finishes(e, done.value.0, done.value.1, Absorb(e.h3, more[0]))
  {
    hide OnServerFinished, Absorbed, Absorb, IdOf, ProposalOf, R.NewRecord, R.Establish;
    AbsorbedOne(c, e, frame);
    if OnServerFinished(e, m, frame).Some? {
      RegistersOnce(e, m);
      ServerFinishedNeeds(c, e, m, frame);
      ServerFinishedGives(c, e, m, frame);
    }
  }

  lemma ServerFinishedFollows(c: Crypto, e: End, m: R.Sessions, frame: Bytes, log: seq<Bytes>)
    requires Follows(c, e, m, log)
    ensures var done := OnServerFinished(e, m, frame);
            done.Some? ==> Follows(c, done.value.0, done.value.1, log + Absorbed(c, e, CallServerFinished(frame)))
  {
    ServerFinishedMakes(c, e, m, frame);
    hide OnServerFinished, Absorbed, Absorb, Chain, Opened, Keyed, Finishes, Registered;
    var done := OnServerFinished(e, m, frame);
    if done.Some? {
      var more := Absorbed(c, e, CallServerFinished(frame));
      ChainAdds(log, more[0]);
      assert log + more == log + [more[0]];
      FinishedFollows(c, e, done.value.0, done.value.1, log, more);
    }
  }

  lemma ReadIsValid(frame: Bytes)
    ensures ReadClientHello(frame).Some? ==> ReadClientHello(frame).value.0.Valid()
    ensures ReadServerHello(frame).Some? ==>
              ReadServerHello(frame).value.0.Valid() && ReadServerHello(frame).value.1.status == N.Accepted
  {
    hide Unwrap, Read, HelloShape, ServerShape, HelloFrom;
  }

  lemma ClientHelloFollows(c: Crypto, v: Verifier, e: End, m: R.Sessions, frame: Bytes, p: N.Policy, l: Local)
    requires Lawful(c)
    ensures var answer := OnClientHello(c, v, e, frame, p, l);
            answer.Some? ==>
              e.state == Uninitialized && Follows(c, answer.value.0, m, Absorbed(c, e, CallClientHello(frame, p, l)))
  {
    hide Lawful, AnswerHello, FromHello, FromServerHello, ReadClientHello, ReadServerHello, Follows, Absorbed;
    ReadIsValid(frame);
    AbsorbedFromClient(c, e, frame, p, l);
    if e.role == Responder && ReadClientHello(frame).Some? {
      var (h, signature) := ReadClientHello(frame).value;
      AnswerFollows(c, v, e, m, p, l, h, signature);
    }
  }

  lemma WaitingOpened(c: Crypto, e: End, m: R.Sessions, log: seq<Bytes>)
    requires Follows(c, e, m, log)
    ensures e.state == ClientHelloSent ==> |log| == 2 && Opened(c, e, log)
  {
    hide Opened, Keyed, Registered, Chain;
  }

  lemma ServerHelloFollows(c: Crypto, v: Verifier, e: End, m: R.Sessions, frame: Bytes, log: seq<Bytes>)
    requires e.state == ClientHelloSent ==> |log| == 2 && Opened(c, e, log)
    ensures var answer := OnServerHello(c, v, e, frame);
            answer.Some? ==> Follows(c, answer.value.0, m, log + Absorbed(c, e, CallServerHello(frame)))
  {
    hide AcceptHello, FromServerHello, FromHello, ReadServerHello, ReadClientHello, Opened, Follows, Absorbed;
    ReadIsValid(frame);
    AbsorbedFromServer(c, e, frame);
    if e.role == Initiator && e.state == ClientHelloSent && ReadServerHello(frame).Some? {
      var (h, n, signature) := ReadServerHello(frame).value;
      AcceptFollows(c, v, e, m, h, n, signature, log);
    }
  }

  /** Every call keeps an end and its messages together. */
  lemma DoFollows(c: Crypto, v: Verifier, e: End, m: R.Sessions, call: Call, log: seq<Bytes>)
    requires Lawful(c) && Follows(c, e, m, log)
    ensures var (e', m', ok) := Do(c, v, e, m, call);
            Follows(c, e', m', log + if ok then Absorbed(c, e, call) else [])
  {
    CallsKeepTheirOrder(c, v, e, m, call);
    hide Start, OnClientHello, OnServerHello, OnClientFinished, OnServerFinished, Absorbed, Opened, Keyed, Registered,
      Chain, Lawful;
    assert [] + Absorbed(c, e, call) == Absorbed(c, e, call);
    match call {
      case CallStart(l) => StartFollows(c, e, m, l);
      case CallClientHello(frame, p, l) => ClientHelloFollows(c, v, e, m, frame, p, l);
      case CallServerHello(frame) =>
        WaitingOpened(c, e, m, log);
        ServerHelloFollows(c, v, e, m, frame, log);
      case CallClientFinished(frame) => ClientFinishedFollows(c, e, m, frame, log);
      case CallServerFinished(frame) => ServerFinishedFollows(c, e, m, frame, log);
    }
  }

  lemma {:induction false} RunFollows(c: Crypto, v: Verifier, e: End, m: R.Sessions, calls: seq<Call>, log: seq<Bytes>)
    requires Lawful(c) && Follows(c, e, m, log)
    ensures var (e', m') := DoAll(c, v, e, m, calls);
            Follows(c, e', m', log + AbsorbedAll(c, v, e, m, calls)) && e'.role == e.role
    decreases |calls|
  {
    hide Do, Follows, Absorbed, Lawful;
    if calls == [] {
      assert log + [] == log;
    } else {
      var (e', m', ok) := Do(c, v, e, m, calls[0]);
      var more := if ok then Absorbed(c, e, calls[0]) else [];
      DoFollows(c, v, e, m, calls[0], log);
      CallsKeepTheirOrder(c, v, e, m, calls[0]);
      RunFollows(c, v, e', m', calls[1..], log + more);
      var rest := AbsorbedAll(c, v, e', m', calls[1..]);
      assert log + more + rest == log + (more + rest);
    }
  }

  // ---- Agreement ---------------------------------------------------------------------------------------------

  lemma SameClient(h: Hello, h': Hello)
    requires h.Valid() && h'.Valid() && ClientPrefix(h) == ClientPrefix(h')
    ensures h == h'
  {
    hide ClientPrefix, DecodeClientHello, Hello.Valid;
    var signature := Sha256Standard.Zeros(SIGNATURE_BYTES);
    ClientHelloBothWays(h, signature, ClientPrefix(h) + signature);
    ClientHelloBothWays(h', signature, ClientPrefix(h) + signature);
  }

  lemma SameServer(h: Hello, n: N.Result, h': Hello, n': N.Result)
    requires h.Valid() && h'.Valid() && n.status == N.Accepted && n'.status == N.Accepted
    requires ServerPrefix(h, n) == ServerPrefix(h', n')
    ensures h == h' && n == n'
  {
    hide ServerPrefix, DecodeServerHello, Hello.Valid;
    var signature := Sha256Standard.Zeros(SIGNATURE_BYTES);
    ServerHelloBothWays(h, n, signature, ServerPrefix(h, n) + signature);
    ServerHelloBothWays(h', n', signature, ServerPrefix(h, n) + signature);
  }

  /** What two ends that absorbed the same messages have in common. */
  lemma SameLogSameKeys(c: Crypto, i: End, r: End, log: seq<Bytes>)
    requires Lawful(c) && i.role == Initiator && r.role == Responder
    requires Opened(c, i, log) && Keyed(c, i, log) && Opened(c, r, log) && Keyed(c, r, log)
    ensures i.h1 == r.h1 && i.h2 == r.h2 && i.keys == r.keys && i.result == r.result
    ensures i.clientOffer == r.clientOffer && i.serverOffer == r.serverOffer
  {
    hide ClientPrefix, ServerPrefix, Chain, PublicOf, DeriveKeys, Hello.Valid, Lawful;
    var hi :| IsClient(c, i, hi) && log[0] == ClientPrefix(hi);
    var hr :| IsClient(c, r, hr) && log[0] == ClientPrefix(hr);
    SameClient(hi, hr);
    var si :| IsServer(c, i, si) && log[2] == ServerPrefix(si, i.result);
    var sr :| IsServer(c, r, sr) && log[2] == ServerPrefix(sr, r.result);
    SameServer(si, i.result, sr, r.result);
    SameKeys(c, i.h2, i.result.suite, i.ephemeralPrivate, r.ephemeralPrivate);
  }

  /** Whatever calls were made at either end and whatever bytes came in between: if an initiator and a responder are
      active and their last transcript hashes are equal, and no two of the strings hashed at the two ends share a
      digest, then they hold the same offers, result and keys, registered the same session, and agree on every
      message of the handshake. */
  lemma EqualHashesAgree(c: Crypto, vi: Verifier, vr: Verifier, mi: R.Sessions, mr: R.Sessions, ci: seq<Call>,
                         cr: seq<Call>)
    requires Lawful(c)
    requires DoAll(c, vi, NewEnd(Initiator), mi, ci).0.state == Active
    requires DoAll(c, vr, NewEnd(Responder), mr, cr).0.state == Active
    requires DoAll(c, vi, NewEnd(Initiator), mi, ci).0.h4 == DoAll(c, vr, NewEnd(Responder), mr, cr).0.h4
    requires HashChain.NoCollision(Inputs(AbsorbedAll(c, vi, NewEnd(Initiator), mi, ci)) +
                         Inputs(AbsorbedAll(c, vr, NewEnd(Responder), mr, cr)))
    ensures AbsorbedAll(c, vi, NewEnd(Initiator), mi, ci) == AbsorbedAll(c, vr, NewEnd(Responder), mr, cr)
    ensures var (i, mi') := DoAll(c, vi, NewEnd(Initiator), mi, ci);
            var (r, mr') := DoAll(c, vr, NewEnd(Responder), mr, cr);
            && i.clientOffer == r.clientOffer && i.serverOffer == r.serverOffer && i.result == r.result
            && i.h1 == r.h1 && i.h2 == r.h2 && i.keys == r.keys != NO_KEYS
            && IdOf(i) == IdOf(r) && IdOf(i) in mi' && IdOf(i) in mr' && SameSession(mi'[IdOf(i)], mr'[IdOf(i)])
  {
    hide DoAll, AbsorbedAll, HashChain.NoCollision, Inputs, Chain, Lawful, Opened, Keyed, SessionId;
    var a, b := AbsorbedAll(c, vi, NewEnd(Initiator), mi, ci), AbsorbedAll(c, vr, NewEnd(Responder), mr, cr);
    assert [] + a == a && [] + b == b;
    RunFollows(c, vi, NewEnd(Initiator), mi, ci, []);
    RunFollows(c, vr, NewEnd(Responder), mr, cr, []);
    ChainIsInjective(a, b);
    var (i, mi') := DoAll(c, vi, NewEnd(Initiator), mi, ci);
    var (r, mr') := DoAll(c, vr, NewEnd(Responder), mr, cr);
    SameLogSameKeys(c, i, r, a);
  }
}
