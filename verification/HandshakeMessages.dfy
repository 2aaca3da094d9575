/** The four messages of the SL2 handshake and the frames they travel in. */
module HandshakeMessages {

  import opened Basics
  import opened Wire
  import opened Frames
  import N = Negotiation

  const CLIENT_HELLO: U8 := 1
  const SERVER_HELLO: U8 := 2
  const CLIENT_FINISHED: U8 := 3
  const SERVER_FINISHED: U8 := 4

  const HANDSHAKE: U8 := 7
  const KEY_BYTES := 32
  const SIGNATURE_BYTES := 64
  const DIGEST_BYTES := 32

  /** Who speaks: the offer, the ephemeral key, and the identity with its public key. */
  datatype Hello = Hello(offer: N.Offer, ephemeral: Bytes, trustDomain: U32, subject: U64, publicKey: Bytes)
  {
    predicate Valid() {
      offer.Valid() && |ephemeral| == KEY_BYTES && |publicKey| == KEY_BYTES && trustDomain != 0 && subject != 0
    }
  }

  // ---- Layout ------------------------------------------------------------------------------------------------

  /** A hello up to its signature; this is what the transcript absorbs and the signature covers. */
  function HelloShape(): Shape {
    Then(Word(1), Then(N.OfferShape(), Then(Raw(KEY_BYTES), Then(Word(4), Then(Word(8), Raw(KEY_BYTES))))))
  }

  function HelloTree(kind: U8, h: Hello): Tree {
    Pair(Number(kind), Pair(N.OfferTree(h.offer), Pair(Blob(h.ephemeral), Pair(Number(h.trustDomain),
    Pair(Number(h.subject), Blob(h.publicKey))))))
  }

  function ClientPrefix(h: Hello): Bytes {
    Write(HelloShape(), HelloTree(CLIENT_HELLO, h))
  }

  function ServerShape(): Shape {
    Then(HelloShape(), N.ResultShape())
  }

  function ServerTree(h: Hello, n: N.Result): Tree {
    Pair(HelloTree(SERVER_HELLO, h), N.ResultTree(n))
  }

  function ServerPrefix(h: Hello, n: N.Result): Bytes {
    Write(ServerShape(), ServerTree(h, n))
  }

  function OfferFrom(t: Tree): N.Offer
    requires Fits(N.OfferShape(), t)
  {
    Powers();
    var a, b := t.head, t.tail.head;
    N.Offer(a.head.n, a.tail.head.n, a.tail.tail.head.n, a.tail.tail.tail.n,
            SuitesFrom(t.tail.tail.head.items), N.Endpoint(b.head.n, b.tail.head.n, b.tail.tail.head.n),
            b.tail.tail.tail.head.n, b.tail.tail.tail.tail.n, t.tail.tail.tail.bytes)
  }

  function SuiteOf(t: Tree): U16 {
    if t.Number? && t.n < 0x1_0000 then t.n else 0
  }

  function SuitesFrom(ts: seq<Tree>): (s: seq<U16>)
    ensures |s| == |ts| && forall i :: 0 <= i < |ts| ==> s[i] == SuiteOf(ts[i])
  {
    seq(|ts|, (i: nat) requires i < |ts| => SuiteOf(ts[i]))
  }

  function HelloFrom(t: Tree): Hello
    requires Fits(HelloShape(), t)
  {
    Powers();
    var u := t.tail.tail;
    Hello(OfferFrom(t.tail.head), u.head.bytes, u.tail.head.n, u.tail.tail.head.n, u.tail.tail.tail.bytes)
  }

  // ---- Encoding and decoding ---------------------------------------------------------------------------------

  function EncodeClientHello(h: Hello, signature: Bytes): Option<Bytes> {
    if !h.Valid() || |signature| != SIGNATURE_BYTES then None else Some(ClientPrefix(h) + signature)
  }

  function DecodeClientHello(b: Bytes): Option<(Hello, Bytes)> {
    match Read(HelloShape(), b)
    case Short => None
    case Got(t, rest) =>
      WriteBack(HelloShape(), b);
      Powers();
      var h := HelloFrom(t);
      if t.head.n != CLIENT_HELLO || !h.Valid() || |rest| != SIGNATURE_BYTES then None else Some((h, rest))
  }

  function EncodeServerHello(h: Hello, n: N.Result, signature: Bytes): Option<Bytes> {
    if !h.Valid() || |signature| != SIGNATURE_BYTES || n.status != N.Accepted then None
    else Some(ServerPrefix(h, n) + signature)
  }

  function DecodeServerHello(b: Bytes): Option<(Hello, N.Result, Bytes)> {
    match Read(ServerShape(), b)
    case Short => None
    case Got(t, rest) =>
      WriteBack(ServerShape(), b);
      Powers();
      var h := HelloFrom(t.head);
      var r := t.tail;
      if t.head.head.n != SERVER_HELLO || !h.Valid() || |rest| != SIGNATURE_BYTES || r.head.n != N.ACCEPTED then None
      else Some((h, N.Result(N.Accepted, r.tail.head.n, r.tail.tail.head.n, r.tail.tail.tail.n), rest))
  }

  function EncodeFinished(kind: U8, verifyData: Bytes): Option<Bytes> {
    if |verifyData| != DIGEST_BYTES then None else Some([kind] + verifyData)
  }

  function DecodeFinished(kind: U8, b: Bytes): Option<Bytes> {
    if |b| != 1 + DIGEST_BYTES || b[0] != kind then None else Some(b[1..])
  }

  const NO_STREAM := StreamId(0, 0, 0)

  function Wrap(payload: Bytes): Option<Bytes> {
    if payload == [] then None else Some(Frame(HANDSHAKE, NO_STREAM, payload))
  }

  function Unwrap(b: Bytes): Option<Bytes> {
    if |b| < HEADER_SIZE then None
    else
      var h := DecodeHeader(b).value;
      if h.magic != MAGIC || h.major != 0 || h.minor != 2 || h.kind != HANDSHAKE || h.flags != 0 || h.request != 0 ||
         h.execution != 0 || h.output != 0 || |b| != HEADER_SIZE + h.payloadLen
      then None
      else Some(b[HEADER_SIZE..])
  }

  // ---- Both ways ---------------------------------------------------------------------------------------------

  lemma OfferRoundTrip(o: N.Offer)
    requires o.Valid()
    ensures Fits(N.OfferShape(), N.OfferTree(o)) && OfferFrom(N.OfferTree(o)) == o
  {
    N.OfferFits(o);
    hide Fits;
    assert SuitesFrom(NumberTrees(o.suites)) == o.suites;
  }

  lemma LevelsAre(t: Tree)
    requires Fits(Then(Word(1), Then(Word(1), Then(Word(1), Word(1)))), t)
    ensures t == Pair(Number(t.head.n), Pair(Number(t.tail.head.n), Pair(Number(t.tail.tail.head.n),
                 Number(t.tail.tail.tail.n))))
  {
    hide Power256;
  }

  lemma EndpointIs(t: Tree)
    requires Fits(Then(Word(8), Then(Word(8), Then(Word(4), Then(Word(8), Word(8))))), t)
    ensures t == Pair(Number(t.head.n), Pair(Number(t.tail.head.n), Pair(Number(t.tail.tail.head.n),
                 Pair(Number(t.tail.tail.tail.head.n), Number(t.tail.tail.tail.tail.n)))))
  {
    hide Power256;
  }

  lemma OfferTreeRoundTrip(t: Tree)
    requires Fits(N.OfferShape(), t)
    ensures N.OfferTree(OfferFrom(t)) == t
  {
    hide Power256, NumberTrees, SuitesFrom;
    LevelsAre(t.head);
    EndpointIs(t.tail.head);
    var ts := t.tail.tail.head.items;
    assert forall i :: 0 <= i < |ts| ==> Fits(Word(2), ts[i]);
    SuiteTrees(ts);
    hide Fits;
  }

  lemma SuiteTrees(ts: seq<Tree>)
    requires forall i :: 0 <= i < |ts| ==> Fits(Word(2), ts[i])
    ensures NumberTrees(SuitesFrom(ts)) == ts
  {
    Powers();
    hide Power256;
  }

  lemma HelloRoundTrip(kind: U8, h: Hello)
    requires h.Valid()
    ensures Fits(HelloShape(), HelloTree(kind, h)) && HelloFrom(HelloTree(kind, h)) == h
  {
    hide N.OfferShape, N.OfferTree, OfferFrom;
    Powers();
    OfferRoundTrip(h.offer);
  }

  lemma HelloTreeRoundTrip(t: Tree)
    requires Fits(HelloShape(), t)
    ensures t.head.n < 256 && HelloTree(t.head.n, HelloFrom(t)) == t
  {
    hide N.OfferShape, N.OfferTree, OfferFrom;
    Powers();
    OfferTreeRoundTrip(t.tail.head);
  }

  /** A client hello and its signature come back from their bytes, and only from those. */
  lemma ClientHelloBothWays(h: Hello, signature: Bytes, b: Bytes)
    ensures DecodeClientHello(b) == Some((h, signature)) <==> EncodeClientHello(h, signature) == Some(b)
  {
    hide Write, Read, HelloShape, HelloTree, HelloFrom;
    if EncodeClientHello(h, signature) == Some(b) {
      HelloRoundTrip(CLIENT_HELLO, h);
      ReadBack(HelloShape(), HelloTree(CLIENT_HELLO, h), signature);
      KindOf(CLIENT_HELLO, h);
    }
    if DecodeClientHello(b) == Some((h, signature)) {
      WriteBack(HelloShape(), b);
      HelloTreeRoundTrip(Read(HelloShape(), b).tree);
    }
  }

  lemma KindOf(kind: U8, h: Hello)
    ensures HelloTree(kind, h).Pair? && HelloTree(kind, h).head == Number(kind)
  {
  }

  lemma ServerRoundTrip(h: Hello, n: N.Result)
    requires h.Valid()
    ensures Fits(ServerShape(), ServerTree(h, n))
  {
    hide HelloShape, HelloTree, N.ResultShape, N.ResultTree;
    HelloRoundTrip(SERVER_HELLO, h);
    N.ResultFits(n);
  }

  /** So do a server hello, its result and its signature. */
  lemma ServerHelloBothWays(h: Hello, n: N.Result, signature: Bytes, b: Bytes)
    ensures DecodeServerHello(b) == Some((h, n, signature)) <==> EncodeServerHello(h, n, signature) == Some(b)
  {
    hide Write, Read, HelloShape, HelloTree, HelloFrom;
    if EncodeServerHello(h, n, signature) == Some(b) {
      ServerRoundTrip(h, n);
      HelloRoundTrip(SERVER_HELLO, h);
      ReadBack(ServerShape(), ServerTree(h, n), signature);
      KindOf(SERVER_HELLO, h);
    }
    if DecodeServerHello(b) == Some((h, n, signature)) {
      WriteBack(ServerShape(), b);
      var t := Read(ServerShape(), b).tree;
      HelloTreeRoundTrip(t.head);
      assert N.ResultTree(n) == t.tail;
    }
  }

  lemma FinishedBothWays(kind: U8, verifyData: Bytes, b: Bytes)
    ensures DecodeFinished(kind, b) == Some(verifyData) <==> EncodeFinished(kind, verifyData) == Some(b)
  {
    if DecodeFinished(kind, b) == Some(verifyData) { assert b == [b[0]] + b[1..]; }
  }

  /** Bytes unwrap to a payload, other than the empty one, exactly when it wraps to them and its length fits the length
      field. */
  lemma WrapBothWays(payload: Bytes, b: Bytes)
    ensures Unwrap(b) == Some(payload) && payload != [] <==> Wrap(payload) == Some(b) && |payload| < 0x1_0000_0000
  {
    hide EncodeHeader, DecodeHeader;
    if Wrap(payload) == Some(b) && |payload| < 0x1_0000_0000 {
      OpenFrame(HANDSHAKE, NO_STREAM, payload);
      assert b[HEADER_SIZE..] == payload;
    }
    if Unwrap(b) == Some(payload) {
      HeaderWriteBack(b);
      assert b == b[..HEADER_SIZE] + b[HEADER_SIZE..];
    }
  }

  /** The empty payload unwraps from exactly one frame, the bare header, and wraps to none. */
  lemma EmptyUnwrapsOnly(b: Bytes)
    ensures Wrap([]) == None
    ensures Unwrap(b) == Some([]) <==> b == EncodeHeader(NewHeader(HANDSHAKE, 0, 0, 0, 0))
  {
    hide EncodeHeader, DecodeHeader;
    var h := NewHeader(HANDSHAKE, 0, 0, 0, 0);
    assert EncodeHeader(h) + [] == EncodeHeader(h);
    HeaderReadBack(h, []);
    if Unwrap(b) == Some([]) {
      HeaderWriteBack(b);
      assert b == b[..HEADER_SIZE];
    }
  }

  // ---- Lengths -----------------------------------------------------------------------------------------------

  lemma {:induction false} WordListLength(w: nat, ts: seq<Tree>)
    requires forall i :: 0 <= i < |ts| ==> Fits(Word(w), ts[i])
    ensures |WriteAll(Word(w), ts)| == w * |ts|
  {
    hide Power256, Little;
    if ts != [] {
      WordListLength(w, ts[1..]);
      assert w * |ts| == w + w * (|ts| - 1);
    }
  }

  lemma OfferLength(o: N.Offer)
    requires o.Valid()
    ensures |N.OfferBytes(o)| == 73 + 2 * |o.suites|
  {
    Powers();
    hide Power256, Little;
    var t := N.OfferTree(o);
    N.OfferFits(o);
    FixedWrites(N.OfferShape().first, t.head);
    FixedWrites(N.OfferShape().rest.first, t.tail.head);
    WordListLength(2, NumberTrees(o.suites));
    assert |Write(List(1, Word(2)), t.tail.tail.head)| == 1 + 2 * |o.suites|;
  }

  lemma HelloLength(kind: U8, h: Hello)
    requires h.Valid()
    ensures |Write(HelloShape(), HelloTree(kind, h))| == 150 + 2 * |h.offer.suites|
  {
    hide N.OfferShape, N.OfferTree, Little, Power256;
    OfferLength(h.offer);
    var last := Then(Raw(KEY_BYTES), Then(Word(4), Then(Word(8), Raw(KEY_BYTES))));
    var t := HelloTree(kind, h).tail.tail;
    assert |Write(last.rest, t.tail)| == 44;
    assert |Write(last, t)| == 76;
  }

  /** Every hello fits a frame with room to spare. */
  lemma HellosAreShort(h: Hello, n: N.Result)
    requires h.Valid()
    ensures |ClientPrefix(h)| <= 182 && |ServerPrefix(h, n)| <= 187
  {
    hide HelloShape, HelloTree, Little;
    HelloLength(CLIENT_HELLO, h);
    HelloLength(SERVER_HELLO, h);
    N.ResultFits(n);
    FixedWrites(N.ResultShape(), N.ResultTree(n));
  }
}
