/** Whose hello an end accepted, over any calls and any bytes between the ends: if nobody signs with a key but its
    holder, and no two of the strings hashed share a digest, it is a hello its holder signed, in every field. */
module HandshakeAuthenticity {

  import opened Basics
  import opened Wire
  import opened HandshakeMessages
  import opened Handshake
  import opened HandshakeAgreement
  import HashChain
  import N = Negotiation
  import R = SessionRegistry

  // ---- What holders of keys sign -----------------------------------------------------------------------------

  /** A client signs its own hello; a server signs its own hello and the result, after the client hello it answers. */
  datatype Signing =
    | AsClient(hello: Hello)
    | AsServer(client: Hello, clientSignature: Bytes, server: Hello, result: N.Result)
  {
    predicate Valid() {
      match this
      case AsClient(h) => h.Valid()
      case AsServer(h, _, mine, n) => h.Valid() && mine.Valid() && n.status == N.Accepted
    }

    function Key(): Bytes {
      match this
      case AsClient(h) => h.publicKey
      case AsServer(_, _, mine, _) => mine.publicKey
    }

    /** The string that is signed. */
    function Input(): Bytes {
      match this
      case AsClient(h) => ClientInput(h)
      case AsServer(h, signature, mine, n) => ServerInput(AfterClientHello(h, signature), mine, n)
    }

    /** The messages hashed into it. */
    function Messages(): seq<Bytes> {
      match this
      case AsClient(h) => [ClientPrefix(h)]
      case AsServer(h, signature, mine, n) => [ClientPrefix(h), signature, ServerPrefix(mine, n)]
    }
  }

  /** The signature of the hello that a call hands to an end. */
  function SignatureIn(call: Call): set<Bytes> {
    match call
    case CallClientHello(frame, _, _) =>
      (match ReadClientHello(frame)
       case None => {}
       case Some((_, signature)) => {signature})
    case CallServerHello(frame) =>
      (match ReadServerHello(frame)
       case None => {}
       case Some((_, _, signature)) => {signature})
    case _ => {}
  }

  function SignaturesIn(calls: seq<Call>): set<Bytes>
    decreases |calls|
  {
    if calls == [] then {} else SignatureIn(calls[0]) + SignaturesIn(calls[1..])
  }

  /** Every string that one of these signatures proves under a key was signed by the holder of that key. */
  ghost predicate Unforged(c: Crypto, signatures: set<Bytes>, signings: set<Signing>) {
    forall public, message, signature ::
      signature in signatures && Verifies(c, public, message, signature) ==> Signed(signings, public, message)
  }

  ghost predicate Signed(signings: set<Signing>, public: Bytes, message: Bytes) {
    exists s :: s in signings && s.Valid() && s.Key() == public && s.Input() == message
  }

  /** The assumption lets honest signatures through: one that proves nothing but what it was made for is no forgery. */
  lemma HonestSignaturesAreNoForgeries(c: Crypto, s: Signing, private: Bytes)
    requires s.Valid()
    requires forall public, message ::
               Verifies(c, public, message, Sign(c, private, s.Input())) ==> public == s.Key() && message == s.Input()
    ensures Unforged(c, {Sign(c, private, s.Input())}, {s})
  {
    hide Signing.Input, Signing.Key, Signing.Valid, Verifies, Sign;
  }

  function HashedBy(signings: set<Signing>): set<Bytes> {
    set s, x | s in signings && x in Inputs(s.Messages()) :: x
  }

  // ---- The signed strings ------------------------------------------------------------------------------------

  lemma InputParts(context: Bytes, trustDomain: U32, subject: U64, h: Bytes)
    requires |context| == 18 && |h| == DIGEST_BYTES
    ensures var input := SignatureInput(context, trustDomain, subject, h);
            |input| == 62 && input[..18] == context && input[30..] == h
  {
    hide Little;
  }

  lemma ContextsDiffer()
    ensures |ClientContext()| == |ServerContext()| == 18 && ClientContext() != ServerContext()
  {
    var a, b := "LNS2-SIG-CLIENT-V1", "LNS2-SIG-SERVER-V1";
    assert a[9] == 'C' && b[9] == 'S';
    assert Ascii(a)[9] == 67 && Ascii(b)[9] == 83;
  }

  lemma InputOfSigning(s: Signing)
    ensures var context := if s.AsClient? then ClientContext() else ServerContext();
            var h := if s.AsClient? then s.hello else s.server;
            s.Input() == SignatureInput(context, h.trustDomain, h.subject, Chain(s.Messages()))
  {
    hide Absorb, H0, ClientPrefix, ServerPrefix, SignatureInput, ClientContext, ServerContext, Chain;
    match s {
      case AsClient(h) =>
        ChainAdds([], ClientPrefix(h));
        ChainStarts();
        assert [] + [ClientPrefix(h)] == [ClientPrefix(h)];
      case AsServer(h, signature, mine, n) =>
        ChainTwo(ClientPrefix(h), signature);
        ChainAdds([ClientPrefix(h), signature], ServerPrefix(mine, n));
        assert [ClientPrefix(h), signature] + [ServerPrefix(mine, n)] == s.Messages();
    }
  }

  /** Without collisions equal strings were signed in the same role after the same messages. */
  lemma SameInputSameMessages(s: Signing, t: Signing)
    requires s.Input() == t.Input() && HashChain.NoCollision(Inputs(s.Messages()) + Inputs(t.Messages()))
    ensures s.AsClient? == t.AsClient? && s.Messages() == t.Messages()
  {
    hide SignatureInput, ClientContext, ServerContext, Chain, Inputs, HashChain.NoCollision, Signing.Input,
      ClientPrefix, ServerPrefix;
    ContextsDiffer();
    InputOfSigning(s);
    InputOfSigning(t);
    ChainLength(s.Messages());
    ChainLength(t.Messages());
    var h, k := if s.AsClient? then s.hello else s.server, if t.AsClient? then t.hello else t.server;
    InputParts(if s.AsClient? then ClientContext() else ServerContext(), h.trustDomain, h.subject, Chain(s.Messages()));
    InputParts(if t.AsClient? then ClientContext() else ServerContext(), k.trustDomain, k.subject, Chain(t.Messages()));
    ChainIsInjective(s.Messages(), t.Messages());
  }

  lemma SameClientSigning(h: Hello, k: Hello)
    requires h.Valid() && k.Valid() && AsClient(h).Messages() == AsClient(k).Messages()
    ensures h == k
  {
    hide ClientPrefix, Hello.Valid;
    assert AsClient(h).Messages()[0] == AsClient(k).Messages()[0];
    SameClient(h, k);
  }

  lemma SameServerSigning(s: Signing, t: Signing)
    requires s.AsServer? && t.AsServer? && s.Valid() && t.Valid() && s.Messages() == t.Messages()
    ensures s == t
  {
    hide ClientPrefix, ServerPrefix, Hello.Valid;
    assert s.Messages()[0] == t.Messages()[0] && s.Messages()[1] == t.Messages()[1];
    assert s.Messages()[2] == t.Messages()[2];
    SameClient(s.client, t.client);
    SameServer(s.server, s.result, t.server, t.result);
  }

  /** So the signed string fixes every field that was signed. */
  lemma SameInputSameSigning(s: Signing, t: Signing)
    requires s.Valid() && t.Valid() && s.Input() == t.Input()
    requires HashChain.NoCollision(Inputs(s.Messages()) + Inputs(t.Messages()))
    ensures s == t
  {
    hide Signing.Input, Signing.Messages, Inputs, HashChain.NoCollision, Hello.Valid;
    SameInputSameMessages(s, t);
    if s.AsClient? { SameClientSigning(s.hello, t.hello); } else { SameServerSigning(s, t); }
  }

  // ---- What an end has checked -------------------------------------------------------------------------------

  /** The client hello a responder went on from verified under the key it names, and the verifier accepted that key. */
  ghost predicate CheckedClient(c: Crypto, v: Verifier, e: End, log: seq<Bytes>, seen: set<Bytes>) {
    && |log| >= 5 && log[1] in seen
    && exists h :: IsClient(c, e, h) && log[0] == ClientPrefix(h) && ClientVerified(c, v, e, log, h)
  }

  predicate ClientVerified(c: Crypto, v: Verifier, e: End, log: seq<Bytes>, h: Hello)
    requires |log| >= 5
  {
    && Verifies(c, h.publicKey, AsClient(h).Input(), log[1])
    && Authenticate(v, h.offer, log[4], h.publicKey, NOW) == Some(e.peer)
  }

  /** So did the server hello of an initiator, over the transcript of its own hello. */
  ghost predicate CheckedServer(c: Crypto, v: Verifier, e: End, log: seq<Bytes>, seen: set<Bytes>) {
    && |log| >= 5 && log[3] in seen
    && exists h :: IsServer(c, e, h) && log[2] == ServerPrefix(h, e.result) && ServerVerified(c, v, e, log, h)
  }

  predicate ServerVerified(c: Crypto, v: Verifier, e: End, log: seq<Bytes>, h: Hello)
    requires |log| >= 5
  {
    && Verifies(c, h.publicKey, ServerInput(e.h1, h, e.result), log[3])
    && Authenticate(v, h.offer, log[4], h.publicKey, NOW) == Some(e.peer)
  }

  ghost predicate Checked(c: Crypto, v: Verifier, e: End, log: seq<Bytes>, seen: set<Bytes>) {
    && (e.role == Responder && (e.state == ServerHelloSent || e.state == Active) ==>
          CheckedClient(c, v, e, log, seen))
    && (e.role == Initiator && (e.state == ClientFinishedSent || e.state == Active) ==>
          CheckedServer(c, v, e, log, seen))
  }

  lemma AnswerChecks(c: Crypto, v: Verifier, e: End, p: N.Policy, l: Local, h: Hello, signature: Bytes)
    requires h.Valid() && e.role == Responder
    ensures var answer := AnswerHello(c, v, e, p, l, h, signature);
            answer.Some? ==> CheckedClient(c, v, answer.value.0, FromHello(c, p, l, h, signature), {signature})
  {
    hide ClientInput, ServerInput, ClientPrefix, ServerPrefix, Absorb, AfterClientHello, Wrap, PublicOf, Sign,
      DeriveKeys, N.Negotiate, N.EncodeTranscript, Verifies, Authenticate, EncodeServerHello, AfterServerHello;
    var answer := AnswerHello(c, v, e, p, l, h, signature);
    if answer.Some? {
      var log := FromHello(c, p, l, h, signature);
      assert IsClient(c, answer.value.0, h) && ClientVerified(c, v, answer.value.0, log, h);
    }
  }

  lemma AcceptChecks(c: Crypto, v: Verifier, e: End, h: Hello, n: N.Result, signature: Bytes, log: seq<Bytes>)
    requires h.Valid() && n.status == N.Accepted && e.role == Initiator && |log| == 2
    ensures var answer := AcceptHello(c, v, e, h, n, signature);
            var more := FromServerHello(c, e, h, n, signature);
            answer.Some? ==> CheckedServer(c, v, answer.value.0, log + more, {signature})
  {
    hide ServerInput, ServerPrefix, Absorb, PublicOf, DeriveKeys, N.EncodeTranscript, Verifies, Authenticate, Finished,
      FinishedFrame, AfterServerHello;
    var answer := AcceptHello(c, v, e, h, n, signature);
    if answer.Some? {
      var all := log + FromServerHello(c, e, h, n, signature);
      assert IsServer(c, answer.value.0, h) && ServerVerified(c, v, answer.value.0, all, h);
    }
  }

  lemma FinishingKeepsChecks(c: Crypto, v: Verifier, e: End, e': End, log: seq<Bytes>, more: seq<Bytes>,
                             seen: set<Bytes>, seen': set<Bytes>)
    requires SameButHashes(e, e') && seen <= seen'
    ensures CheckedClient(c, v, e, log, seen) ==> CheckedClient(c, v, e', log + more, seen')
    ensures CheckedServer(c, v, e, log, seen) ==> CheckedServer(c, v, e', log + more, seen')
  {
    hide ClientPrefix, ServerPrefix, Verifies, Authenticate, ServerInput, Signing.Input, PublicOf, Hello.Valid;
    if CheckedClient(c, v, e, log, seen) {
      var h :| IsClient(c, e, h) && log[0] == ClientPrefix(h) && ClientVerified(c, v, e, log, h);
      assert IsClient(c, e', h) && ClientVerified(c, v, e', log + more, h);
    }
    if CheckedServer(c, v, e, log, seen) {
      var h :| IsServer(c, e, h) && log[2] == ServerPrefix(h, e.result) && ServerVerified(c, v, e, log, h);
      assert IsServer(c, e', h) && ServerVerified(c, v, e', log + more, h);
    }
  }

  lemma ClientHelloChecks(c: Crypto, v: Verifier, e: End, frame: Bytes, p: N.Policy, l: Local)
    ensures var answer, call := OnClientHello(c, v, e, frame, p, l), CallClientHello(frame, p, l);
            answer.Some? ==>
              e.role == Responder && CheckedClient(c, v, answer.value.0, Absorbed(c, e, call), SignatureIn(call))
  {
    hide AnswerHello, ReadClientHello, CheckedClient, FromHello, Hello.Valid;
    ReadIsValid(frame);
    if e.role == Responder && ReadClientHello(frame).Some? {
      var (h, signature) := ReadClientHello(frame).value;
      AnswerChecks(c, v, e, p, l, h, signature);
    }
  }

  lemma ServerHelloChecks(c: Crypto, v: Verifier, e: End, frame: Bytes, log: seq<Bytes>)
    requires e.state == ClientHelloSent ==> |log| == 2
    ensures var answer, call := OnServerHello(c, v, e, frame), CallServerHello(frame);
            answer.Some? ==>
              e.role == Initiator && CheckedServer(c, v, answer.value.0, log + Absorbed(c, e, call), SignatureIn(call))
  {
    hide AcceptHello, FromServerHello, ReadServerHello, CheckedServer, Hello.Valid;
    ReadIsValid(frame);
    if e.role == Initiator && e.state == ClientHelloSent && ReadServerHello(frame).Some? {
      var (h, n, signature) := ReadServerHello(frame).value;
      AcceptChecks(c, v, e, h, n, signature, log);
    }
  }

  lemma FinishedChecks(c: Crypto, v: Verifier, e: End, e': End, log: seq<Bytes>, more: seq<Bytes>, seen: set<Bytes>)
    requires SameButHashes(e, e') && (e.state == ServerHelloSent || e.state == ClientFinishedSent)
    requires e.role == Responder <==> e.state == ServerHelloSent
    requires Checked(c, v, e, log, seen)
    ensures Checked(c, v, e', log + more, seen)
  {
    hide CheckedClient, CheckedServer;
    FinishingKeepsChecks(c, v, e, e', log, more, seen, seen);
  }

  lemma MoreSeen(c: Crypto, v: Verifier, e: End, log: seq<Bytes>, seen: set<Bytes>, more: set<Bytes>)
    ensures CheckedClient(c, v, e, log, more) ==> CheckedClient(c, v, e, log, seen + more)
    ensures CheckedServer(c, v, e, log, more) ==> CheckedServer(c, v, e, log, seen + more)
  {
    hide CheckedClient, CheckedServer;
    assert log + [] == log;
    FinishingKeepsChecks(c, v, e, e, log, [], more, seen + more);
  }

  /** Every call keeps what an end has checked together with the messages it absorbed. */
  lemma DoChecks(c: Crypto, v: Verifier, e: End, m: R.Sessions, call: Call, log: seq<Bytes>, seen: set<Bytes>)
    requires Follows(c, e, m, log) && Checked(c, v, e, log, seen)
    ensures var (e', _, ok) := Do(c, v, e, m, call);
            Checked(c, v, e', log + (if ok then Absorbed(c, e, call) else []), seen + SignatureIn(call))
  {
    hide Start, OnClientHello, OnServerHello, OnClientFinished, OnServerFinished, Absorbed, CheckedClient,
      CheckedServer, Opened, Keyed, Registered, Chain, Follows, Finishes, SignatureIn, Abort;
    CallsKeepTheirOrder(c, v, e, m, call);
    WaitingOpened(c, e, m, log);
    StartsWithNothing(c, e, m, log);
    assert [] + Absorbed(c, e, call) == Absorbed(c, e, call);
    var (e', _, ok) := Do(c, v, e, m, call);
    match call {
      case CallStart(_) =>
      case CallClientHello(frame, p, l) =>
        ClientHelloChecks(c, v, e, frame, p, l);
        MoreSeen(c, v, e', Absorbed(c, e, call), seen, SignatureIn(call));
      case CallServerHello(frame) =>
        ServerHelloChecks(c, v, e, frame, log);
        MoreSeen(c, v, e', log + Absorbed(c, e, call), seen, SignatureIn(call));
      case CallClientFinished(frame) =>
        ClientFinishedChecks(c, v, e, m, frame, log, seen);
        NothingSeen(call, seen);
      case CallServerFinished(frame) =>
        ServerFinishedChecks(c, v, e, m, frame, log, seen);
        NothingSeen(call, seen);
    }
  }

  lemma ClientFinishedRole(e: End, m: R.Sessions, frame: Bytes)
    ensures OnClientFinished(e, m, frame).Some? ==> e.role == Responder
    ensures OnServerFinished(e, m, frame).Some? ==> e.role == Initiator
  {
    hide ReadFinished, Finished, FinishedFrame, Absorb, R.Establish, IdOf, ProposalOf;
  }

  lemma ClientFinishedChecks(c: Crypto, v: Verifier, e: End, m: R.Sessions, frame: Bytes, log: seq<Bytes>,
                             seen: set<Bytes>)
    requires Checked(c, v, e, log, seen)
    ensures var done := OnClientFinished(e, m, frame);
            done.Some? ==> Checked(c, v, done.value.0, log + Absorbed(c, e, CallClientFinished(frame)), seen)
  {
    hide OnClientFinished, Absorbed, Checked, IdOf, ProposalOf, R.NewRecord, Absorb;
    ClientFinishedMakes(c, e, m, frame);
    ClientFinishedRole(e, m, frame);
    var done := OnClientFinished(e, m, frame);
    if done.Some? { FinishedChecks(c, v, e, done.value.0, log, Absorbed(c, e, CallClientFinished(frame)), seen); }
  }

  lemma ServerFinishedChecks(c: Crypto, v: Verifier, e: End, m: R.Sessions, frame: Bytes, log: seq<Bytes>,
                             seen: set<Bytes>)
    requires Checked(c, v, e, log, seen)
    ensures var done := OnServerFinished(e, m, frame);
            done.Some? ==> Checked(c, v, done.value.0, log + Absorbed(c, e, CallServerFinished(frame)), seen)
  {
    hide OnServerFinished, Absorbed, Checked, IdOf, ProposalOf, R.NewRecord, Absorb;
    ServerFinishedMakes(c, e, m, frame);
    ClientFinishedRole(e, m, frame);
    var done := OnServerFinished(e, m, frame);
    if done.Some? { FinishedChecks(c, v, e, done.value.0, log, Absorbed(c, e, CallServerFinished(frame)), seen); }
  }

  lemma NothingSeen(call: Call, seen: set<Bytes>)
    requires call.CallClientFinished? || call.CallServerFinished?
    ensures seen + SignatureIn(call) == seen
  {
  }

  lemma StartsWithNothing(c: Crypto, e: End, m: R.Sessions, log: seq<Bytes>)
    requires Follows(c, e, m, log)
    ensures e.state == Uninitialized ==> log == []
  {
    hide Opened, Keyed, Registered, Chain;
  }

  lemma {:induction false} RunChecks(c: Crypto, v: Verifier, e: End, m: R.Sessions, calls: seq<Call>, log: seq<Bytes>,
                                     seen: set<Bytes>)
    requires Lawful(c) && Follows(c, e, m, log) && Checked(c, v, e, log, seen)
    ensures var (e', m') := DoAll(c, v, e, m, calls);
            Checked(c, v, e', log + AbsorbedAll(c, v, e, m, calls), seen + SignaturesIn(calls))
    decreases |calls|
  {
    hide Do, Follows, Absorbed, Lawful, Checked, SignatureIn;
    if calls == [] {
      assert log + [] == log && seen + {} == seen;
    } else {
      var (e', m', ok) := Do(c, v, e, m, calls[0]);
      var more := if ok then Absorbed(c, e, calls[0]) else [];
      DoFollows(c, v, e, m, calls[0], log);
      DoChecks(c, v, e, m, calls[0], log, seen);
      RunChecks(c, v, e', m', calls[1..], log + more, seen + SignatureIn(calls[0]));
      var rest := AbsorbedAll(c, v, e', m', calls[1..]);
      assert log + more + rest == log + (more + rest);
      assert seen + SignatureIn(calls[0]) + SignaturesIn(calls[1..]) == seen + SignaturesIn(calls);
    }
  }
  // ---- Authenticity ------------------------------------------------------------------------------------------

  lemma SigningInputs(signings: set<Signing>, s: Signing)
    requires s in signings
    ensures Inputs(s.Messages()) <= HashedBy(signings)
  {
    hide Inputs, Signing.Messages;
  }

  /** A signed string that was checked comes from just this signing. */
  lemma ComesFrom(signings: set<Signing>, mine: Signing, hashed: set<Bytes>)
    requires mine.Valid() && Signed(signings, mine.Key(), mine.Input())
    requires HashChain.NoCollision(hashed + HashedBy(signings)) && Inputs(mine.Messages()) <= hashed
    ensures mine in signings
  {
    hide Inputs, HashChain.NoCollision, Signing.Messages, Signing.Input, Signing.Valid, HashedBy, Signing.Key;
    var s :| s in signings && s.Valid() && s.Key() == mine.Key() && s.Input() == mine.Input();
    SigningInputs(signings, s);
    HashChain.FewerCollisions(Inputs(mine.Messages()) + Inputs(s.Messages()), hashed + HashedBy(signings));
    SameInputSameSigning(mine, s);
  }

  /** The client hello of a responder that went on, as its holder signed it: the offer it negotiated with, the
      ephemeral key it derived its keys with, and the public key its verifier accepted the peer by. */
  ghost predicate AnswersSigned(c: Crypto, v: Verifier, e: End, log: seq<Bytes>, signings: set<Signing>) {
    && |log| >= 5
    && exists h :: AsClient(h) in signings && log[0] == ClientPrefix(h) && h.offer == e.clientOffer
                   && h.ephemeral == e.peerEphemeral
                   && Authenticate(v, h.offer, log[4], h.publicKey, NOW) == Some(e.peer)
  }

  lemma CheckedClientWasSigned(c: Crypto, v: Verifier, e: End, log: seq<Bytes>, seen: set<Bytes>,
                               signings: set<Signing>)
    requires e.role == Responder && CheckedClient(c, v, e, log, seen) && Unforged(c, seen, signings)
    requires HashChain.NoCollision(Inputs(log) + HashedBy(signings))
    ensures AnswersSigned(c, v, e, log, signings)
  {
    hide Inputs, HashChain.NoCollision, Signing.Input, HashedBy, ClientPrefix, Verifies, Authenticate, Hello.Valid;
    var h :| IsClient(c, e, h) && log[0] == ClientPrefix(h) && ClientVerified(c, v, e, log, h);
    assert Signed(signings, AsClient(h).Key(), AsClient(h).Input());
    FewerInputs(log, 1);
    assert log[..1] == AsClient(h).Messages();
    ComesFrom(signings, AsClient(h), Inputs(log));
  }

  /** Over any calls and any bytes: a responder that got past a client hello - it answered, and may have finished - took
      one that the holder of the public key in it signed as its own, in every field, the ephemeral key included. */
  lemma ClientHelloWasSigned(c: Crypto, v: Verifier, m: R.Sessions, calls: seq<Call>, signings: set<Signing>)
    requires Lawful(c) && Unforged(c, SignaturesIn(calls), signings)
    requires HashChain.NoCollision(Inputs(AbsorbedAll(c, v, NewEnd(Responder), m, calls)) + HashedBy(signings))
    ensures var e := DoAll(c, v, NewEnd(Responder), m, calls).0;
            var log := AbsorbedAll(c, v, NewEnd(Responder), m, calls);
            e.state == ServerHelloSent || e.state == Active ==>
              && AnswersSigned(c, v, e, log, signings)
              && DeriveKeys(c, e.h2, e.result.suite, e.ephemeralPrivate, e.peerEphemeral) == Some(e.keys)
  {
    hide Do, AbsorbedAll, DoAll, Inputs, HashChain.NoCollision, HashedBy, CheckedClient, CheckedServer, AnswersSigned,
      Unforged, Lawful, DeriveKeys, Opened, Registered, Chain, SignaturesIn;
    var start := NewEnd(Responder);
    var log := AbsorbedAll(c, v, start, m, calls);
    assert [] + log == log && {} + SignaturesIn(calls) == SignaturesIn(calls);
    RunFollows(c, v, start, m, calls, []);
    RunChecks(c, v, start, m, calls, [], {});
    var e := DoAll(c, v, start, m, calls).0;
    if e.state == ServerHelloSent || e.state == Active {
      CheckedClientWasSigned(c, v, e, log, SignaturesIn(calls), signings);
    }
  }

  /** The server hello of an initiator that went on, signed by its holder in answer to this initiator's own hello and
      signature, and for the result the initiator goes by. */
  ghost predicate ContinuesSigned(c: Crypto, v: Verifier, e: End, log: seq<Bytes>, signings: set<Signing>) {
    && |log| >= 5
    && exists mine, h :: AsServer(mine, log[1], h, e.result) in signings && IsClient(c, e, mine)
                         && log[0] == ClientPrefix(mine) && log[2] == ServerPrefix(h, e.result)
                         && h.offer == e.serverOffer && h.ephemeral == e.peerEphemeral
                         && Authenticate(v, h.offer, log[4], h.publicKey, NOW) == Some(e.peer)
  }

  lemma ServerInputOfLog(log: seq<Bytes>, h1: Bytes, mine: Hello)
    requires |log| >= 5 && h1 == Chain(log[..2]) && log[0] == ClientPrefix(mine)
    ensures h1 == AfterClientHello(mine, log[1])
  {
    hide Absorb, H0, ClientPrefix, Chain;
    ChainTwo(log[0], log[1]);
    assert log[..2] == [log[0], log[1]];
  }

  lemma CheckedServerWasSigned(c: Crypto, v: Verifier, e: End, log: seq<Bytes>, seen: set<Bytes>,
                               signings: set<Signing>)
    requires e.role == Initiator && CheckedServer(c, v, e, log, seen) && Opened(c, e, log)
    requires Unforged(c, seen, signings) && HashChain.NoCollision(Inputs(log) + HashedBy(signings))
    ensures ContinuesSigned(c, v, e, log, signings)
  {
    hide Inputs, HashChain.NoCollision, HashedBy, ClientPrefix, ServerPrefix, Verifies, Authenticate, Hello.Valid,
      Chain, AfterClientHello, ServerInput, ClientInput;
    var h :| IsServer(c, e, h) && log[2] == ServerPrefix(h, e.result) && ServerVerified(c, v, e, log, h);
    var mine :| IsClient(c, e, mine) && log[0] == ClientPrefix(mine);
    ServerInputOfLog(log, e.h1, mine);
    var s := AsServer(mine, log[1], h, e.result);
    assert Signed(signings, s.Key(), s.Input());
    FewerInputs(log, 3);
    assert log[..3] == s.Messages();
    ComesFrom(signings, s, Inputs(log));
  }

  /** Over any calls and any bytes: an initiator that got past a server hello took one that the holder of the public
      key in it signed, in every field, for this client hello and this negotiated result. */
  lemma ServerHelloWasSigned(c: Crypto, v: Verifier, m: R.Sessions, calls: seq<Call>, signings: set<Signing>)
    requires Lawful(c) && Unforged(c, SignaturesIn(calls), signings)
    requires HashChain.NoCollision(Inputs(AbsorbedAll(c, v, NewEnd(Initiator), m, calls)) + HashedBy(signings))
    ensures var e := DoAll(c, v, NewEnd(Initiator), m, calls).0;
            var log := AbsorbedAll(c, v, NewEnd(Initiator), m, calls);
            e.state == ClientFinishedSent || e.state == Active ==>
              && ContinuesSigned(c, v, e, log, signings)
              && DeriveKeys(c, e.h2, e.result.suite, e.ephemeralPrivate, e.peerEphemeral) == Some(e.keys)
  {
    hide Do, AbsorbedAll, DoAll, Inputs, HashChain.NoCollision, HashedBy, CheckedClient, CheckedServer, ContinuesSigned,
      Unforged, Lawful, DeriveKeys, Opened, Registered, Chain, SignaturesIn;
    var start := NewEnd(Initiator);
    var log := AbsorbedAll(c, v, start, m, calls);
    assert [] + log == log && {} + SignaturesIn(calls) == SignaturesIn(calls);
    RunFollows(c, v, start, m, calls, []);
    RunChecks(c, v, start, m, calls, [], {});
    var e := DoAll(c, v, start, m, calls).0;
    if e.state == ClientFinishedSent || e.state == Active {
      CheckedServerWasSigned(c, v, e, log, SignaturesIn(calls), signings);
    }
  }

  // ---- Keys --------------------------------------------------------------------------------------------------

  const KEY_LABELS: seq<string> :=
    ["lns2.key.init", "lns2.key.resp", "lns2.iv.init", "lns2.iv.resp", "lns2.fin.init", "lns2.fin.resp"]

  lemma LabelsDiffer(i: nat, j: nat)
    requires i < 6 && j < 6 && Ascii(KEY_LABELS[i]) == Ascii(KEY_LABELS[j])
    ensures i == j
  {
    var a, b := KEY_LABELS[i], KEY_LABELS[j];
    assert |Ascii(a)| == |a| && |Ascii(b)| == |b|;
    assert Ascii(a)[5] == a[5] as nat % 256 && Ascii(b)[5] == b[5] as nat % 256;
    assert Ascii(a)[8] == a[8] as nat % 256 && Ascii(b)[8] == b[8] as nat % 256;
    assert Ascii(a)[9] == a[9] as nat % 256 && Ascii(b)[9] == b[9] as nat % 256;
  }

  function KeyList(k: Keys): seq<Bytes> {
    [k.initiatorTraffic, k.responderTraffic, k.initiatorIv, k.responderIv, k.initiatorFinished, k.responderFinished]
  }

  /** The i-th expansion of what is extracted from a transcript and a secret. */
  function Expanded(c: Crypto, h2: Bytes, secret: Bytes, i: nat): Bytes
    requires i < 6
  {
    c.expand(c.extract(h2, secret), Ascii(KEY_LABELS[i]), if i == 2 || i == 3 then 12 else 32)
  }

  /** Of the derivations behind two sets of keys, two with one result had one input. */
  ghost predicate NoKeyCollision(c: Crypto, h2: Bytes, secret: Bytes, h2': Bytes, secret': Bytes) {
    && (c.extract(h2, secret) == c.extract(h2', secret') ==> h2 == h2' && secret == secret')
    && (forall i: nat, j: nat :: i < 6 && j < 6 && Expanded(c, h2, secret, i) == Expanded(c, h2', secret', j) ==>
          c.extract(h2, secret) == c.extract(h2', secret') && Ascii(KEY_LABELS[i]) == Ascii(KEY_LABELS[j]))
  }

  lemma KeyAt(c: Crypto, h2: Bytes, suite: U16, private: Bytes, public: Bytes, i: nat)
    requires i < 6 && DeriveKeys(c, h2, suite, private, public).Some?
    ensures Exchange(c, private, public).Some?
    ensures KeyList(DeriveKeys(c, h2, suite, private, public).value)[i] ==
            Expanded(c, h2, Exchange(c, private, public).value, i)
  {
    hide Ascii;
  }

  /** Each of the six keys of an end fixes the transcript and the exchanged secret, and no two of them are equal, unless
      two of the derivations behind them collide. */
  lemma KeysDependOnSecret(c: Crypto, h2: Bytes, suite: U16, private: Bytes, public: Bytes,
                           h2': Bytes, suite': U16, private': Bytes, public': Bytes, i: nat, j: nat)
    requires i < 6 && j < 6 && Exchange(c, private, public).Some? && Exchange(c, private', public').Some?
    requires DeriveKeys(c, h2, suite, private, public).Some? && DeriveKeys(c, h2', suite', private', public').Some?
    requires NoKeyCollision(c, h2, Exchange(c, private, public).value, h2', Exchange(c, private', public').value)
    ensures var k := KeyList(DeriveKeys(c, h2, suite, private, public).value);
            var k' := KeyList(DeriveKeys(c, h2', suite', private', public').value);
            k[i] == k'[j] <==> i == j && h2 == h2' && Exchange(c, private, public) == Exchange(c, private', public')
  {
    hide Ascii, DeriveKeys, KeyList, Exchange;
    KeyAt(c, h2, suite, private, public, i);
    KeyAt(c, h2', suite', private', public', j);
    if Ascii(KEY_LABELS[i]) == Ascii(KEY_LABELS[j]) { LabelsDiffer(i, j); }
  }
}
