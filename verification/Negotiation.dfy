/** Negotiation of a security level and a suite between two offers under a policy, and the transcript bytes both
    ends bind to. */
module Negotiation {

  import opened Basics
  import opened Wire

  const BASELINE: U8 := 1
  const AUTHENTICATED: U8 := 2
  const IDENTITY: U8 := 3
  const GOVERNED: U8 := 5

  const HMAC_SUITE: U16 := 1
  const AES_SUITE: U16 := 2
  const CHACHA_SUITE: U16 := 3

  const MAX_SUITES := 16
  const NONCE_BYTES := 32

  datatype Endpoint = Endpoint(node: U64, runtime: U64, endpoint: U32)

  datatype Offer = Offer(major: U8, minor: U8, minimum: U8, maximum: U8, suites: seq<U16>, endpoint: Endpoint,
                         epoch: U64, token: U64, nonce: Bytes)
  {
    predicate Valid() {
      && KnownLevel(minimum) && KnownLevel(maximum) && minimum <= maximum
      && 0 < |suites| <= MAX_SUITES && Distinct(suites) && (forall i :: 0 <= i < |suites| ==> KnownSuite(suites[i]))
      && endpoint.node != 0 && endpoint.runtime != 0 && endpoint.endpoint != 0 && epoch != 0 && token != 0
      && |nonce| == NONCE_BYTES && exists i :: 0 <= i < |nonce| && nonce[i] != 0
    }

    predicate Current() { major == 0 && minor == 2 }
  }

  datatype Policy = Policy(required: U8, preferred: seq<U16>)
  {
    predicate Valid() {
      && KnownLevel(required) && 0 < |preferred| <= MAX_SUITES && Distinct(preferred)
      && forall i :: 0 <= i < |preferred| ==> KnownSuite(preferred[i])
    }
  }

  datatype Status = NotNegotiated | Accepted | InvalidOffer | InvalidPolicy | VersionMismatch | NoCommonLevel |
                    NoCommonSuite | DowngradeRejected

  datatype Result = Result(status: Status, required: U8, level: U8, suite: U16)

  predicate Distinct(s: seq<U16>) {
    forall i, j :: 0 <= i < j < |s| ==> s[i] != s[j]
  }

  predicate KnownLevel(level: U8) { BASELINE <= level <= GOVERNED }

  predicate KnownSuite(suite: U16) { suite == HMAC_SUITE || suite == AES_SUITE || suite == CHACHA_SUITE }

  predicate Supports(suite: U16, level: U8) {
    if suite == HMAC_SUITE then level == AUTHENTICATED
    else (suite == AES_SUITE || suite == CHACHA_SUITE) && IDENTITY <= level <= GOVERNED
  }

  function Min(a: U8, b: U8): U8 { if a < b then a else b }
  function Max(a: U8, b: U8): U8 { if a < b then b else a }

  function Refuse(status: Status): Result { Result(status, 0, 0, 0) }

  // ---- Negotiation -------------------------------------------------------------------------------------------

  predicate Usable(i: Offer, r: Offer, suite: U16) {
    suite in i.suites && suite in r.suites && Supports(suite, Min(i.maximum, r.maximum))
  }

  /** The outcome, read off the offers and the policy. */
  predicate Outcome(i: Offer, r: Offer, p: Policy, result: Result) {
    if !i.Valid() || !r.Valid() then result == Refuse(InvalidOffer)
    else if !p.Valid() then result == Refuse(InvalidPolicy)
    else if !i.Current() || !r.Current() then result == Refuse(VersionMismatch)
    else
      var top, floor := Min(i.maximum, r.maximum), Max(i.minimum, r.minimum);
      if top < floor then result == Refuse(NoCommonLevel)
      else if top < p.required then result == Refuse(DowngradeRejected)
      else if forall k :: 0 <= k < |p.preferred| ==> !Usable(i, r, p.preferred[k]) then result == Refuse(NoCommonSuite)
      else
        && result.status == Accepted && result.level == top && result.required == Max(floor, p.required)
        && exists k :: 0 <= k < |p.preferred| && p.preferred[k] == result.suite && Usable(i, r, result.suite) &&
             forall j :: 0 <= j < k ==> !Usable(i, r, p.preferred[j])
  }

  /** Goes through the preferred suites in order. */
  function FirstUsable(i: Offer, r: Offer, suites: seq<U16>): Option<U16> {
    if suites == [] then None
    else if Usable(i, r, suites[0]) then Some(suites[0])
    else FirstUsable(i, r, suites[1..])
  }

  function Negotiate(i: Offer, r: Offer, p: Policy): Result {
    if !i.Valid() || !r.Valid() then Refuse(InvalidOffer)
    else if !p.Valid() then Refuse(InvalidPolicy)
    else if !i.Current() || !r.Current() then Refuse(VersionMismatch)
    else
      var top, floor := Min(i.maximum, r.maximum), Max(i.minimum, r.minimum);
      if top < floor then Refuse(NoCommonLevel)
      else if top < p.required then Refuse(DowngradeRejected)
      else match FirstUsable(i, r, p.preferred)
           case None => Refuse(NoCommonSuite)
           case Some(suite) => Result(Accepted, Max(floor, p.required), top, suite)
  }

  lemma {:induction false} FirstUsableIsFirst(i: Offer, r: Offer, suites: seq<U16>) returns (k: nat)
    ensures FirstUsable(i, r, suites).None? ==> forall j :: 0 <= j < |suites| ==> !Usable(i, r, suites[j])
    ensures FirstUsable(i, r, suites).Some? ==>
              && k < |suites| && suites[k] == FirstUsable(i, r, suites).value && Usable(i, r, suites[k])
              && forall j :: 0 <= j < k ==> !Usable(i, r, suites[j])
  {
    hide Usable;
    k := 0;
    if suites != [] && !Usable(i, r, suites[0]) {
      var n := FirstUsableIsFirst(i, r, suites[1..]);
      k := n + 1;
      assert forall j :: 0 < j < |suites| ==> suites[j] == suites[1..][j - 1];
    }
  }

  /** The source's walk over the suites finds the outcome that the offers and the policy determine. */
  method NegotiateInOrder(i: Offer, r: Offer, p: Policy) returns (result: Result)
    ensures result == Negotiate(i, r, p) && Outcome(i, r, p, result)
  {
    var first := FirstUsableIsFirst(i, r, p.preferred);
    result := Refuse(NotNegotiated);
    if !i.Valid() || !r.Valid() {
      return Refuse(InvalidOffer);
    }
    if !p.Valid() {
      return Refuse(InvalidPolicy);
    }
    if !i.Current() || !r.Current() {
      return Refuse(VersionMismatch);
    }
    var top, floor := Min(i.maximum, r.maximum), Max(i.minimum, r.minimum);
    if top < floor {
      return Refuse(NoCommonLevel);
    }
    if top < p.required {
      return Refuse(DowngradeRejected);
    }
    var required := Max(floor, p.required);
    var k := 0;
    while k < |p.preferred|
      invariant k <= |p.preferred|
      invariant forall j :: 0 <= j < k ==> !Usable(i, r, p.preferred[j])
    {
      var suite := p.preferred[k];
      if suite in i.suites && suite in r.suites && Supports(suite, top) {
        return Result(Accepted, required, top, suite);
      }
      k := k + 1;
    }
    result := Refuse(NoCommonSuite);
  }

  /** Which end proposes does not matter, and an accepted level is never below what either end or the policy
      asks for, nor above what either end can do. */
  lemma NegotiationIsFair(i: Offer, r: Offer, p: Policy)
    ensures Negotiate(i, r, p) == Negotiate(r, i, p)
    ensures var n := Negotiate(i, r, p);
            n.status == Accepted ==>
              && i.minimum <= n.level <= i.maximum && r.minimum <= n.level <= r.maximum
              && p.required <= n.required <= n.level && n.suite in i.suites && n.suite in r.suites
              && n.suite in p.preferred && Supports(n.suite, n.level)
  {
    SameFirst(i, r, p.preferred);
    var k := FirstUsableIsFirst(i, r, p.preferred);
  }

  lemma {:induction false} SameFirst(i: Offer, r: Offer, suites: seq<U16>)
    ensures FirstUsable(i, r, suites) == FirstUsable(r, i, suites)
  {
    if suites != [] { SameFirst(i, r, suites[1..]); }
  }

  /** Negotiating again under the policy made from the result - as the handshake does when it registers the
      session - comes to the same result. */
  lemma RenegotiationAgrees(i: Offer, r: Offer, p: Policy)
    requires Negotiate(i, r, p).status == Accepted
    ensures var n := Negotiate(i, r, p); Negotiate(i, r, Policy(n.required, [n.suite])) == n
  {
    var n := Negotiate(i, r, p);
    var k := FirstUsableIsFirst(i, r, p.preferred);
    assert FirstUsable(i, r, [n.suite]) == Some(n.suite);
  }

  // ---- When exactly ------------------------------------------------------------------------------------------

  /** What the two ends have in common with a policy: a top level no lower than either minimum and than the policy asks,
      and a preferred suite of both that serves it - HMAC at level 2, the two ciphers from 3 to 5. */
  predicate Compatible(i: Offer, r: Offer, p: Policy) {
    var top := if i.maximum <= r.maximum then i.maximum else r.maximum;
    && i.minimum <= top && r.minimum <= top && p.required <= top
    && exists s: U16 :: && s in p.preferred && s in i.suites && s in r.suites
                        && ((s == 1 && top == 2) || ((s == 2 || s == 3) && 3 <= top <= 5))
  }

  predicate WellFormedOffer(o: Offer) {
    && o.major == 0 && o.minor == 2 && 1 <= o.minimum <= o.maximum <= 5 && 1 <= |o.suites| <= 16
    && (forall s :: s in o.suites ==> 1 <= s <= 3)
    && (forall j, k :: 0 <= j < k < |o.suites| ==> o.suites[j] != o.suites[k])
    && o.endpoint.node > 0 && o.endpoint.runtime > 0 && o.endpoint.endpoint > 0 && o.epoch > 0 && o.token > 0
    && |o.nonce| == 32 && exists k :: 0 <= k < 32 && o.nonce[k] > 0
  }

  predicate WellFormedPolicy(p: Policy) {
    && 1 <= p.required <= 5 && 1 <= |p.preferred| <= 16 && (forall s :: s in p.preferred ==> 1 <= s <= 3)
    && forall j, k :: 0 <= j < k < |p.preferred| ==> p.preferred[j] != p.preferred[k]
  }

  /** Two offers and a policy are accepted exactly if all three are well formed and compatible. */
  lemma NegotiatesExactly(i: Offer, r: Offer, p: Policy)
    ensures Negotiate(i, r, p).status == Accepted <==>
            WellFormedOffer(i) && WellFormedOffer(r) && WellFormedPolicy(p) && Compatible(i, r, p)
  {
    var k := FirstUsableIsFirst(i, r, p.preferred);
    WellFormedExactly(i, p);
    WellFormedExactly(r, p);
    hide Offer.Valid, Policy.Valid, WellFormedOffer, WellFormedPolicy;
    if Compatible(i, r, p) {
      var s: U16 :| && s in p.preferred && s in i.suites && s in r.suites
                    && ((s == 1 && Min(i.maximum, r.maximum) == 2) ||
                        ((s == 2 || s == 3) && 3 <= Min(i.maximum, r.maximum) <= 5));
      assert Usable(i, r, s);
    }
  }

  lemma WellFormedExactly(o: Offer, p: Policy)
    ensures o.Valid() && o.Current() <==> WellFormedOffer(o)
    ensures p.Valid() <==> WellFormedPolicy(p)
  {
    SuitesKnown(o.suites);
    SuitesKnown(p.preferred);
    if WellFormedOffer(o) {
      var k :| 0 <= k < 32 && o.nonce[k] > 0;
      assert o.nonce[k] != 0;
    }
  }

  lemma SuitesKnown(suites: seq<U16>)
    ensures (forall k :: 0 <= k < |suites| ==> KnownSuite(suites[k])) <==> forall s :: s in suites ==> 1 <= s <= 3
  {
    if forall s :: s in suites ==> 1 <= s <= 3 {
      forall k | 0 <= k < |suites| ensures KnownSuite(suites[k]) { assert suites[k] in suites; }
    }
  }

  // ---- The transcript ----------------------------------------------------------------------------------------

  predicate Transcribable(i: Offer, r: Offer, n: Result) {
    && i.Valid() && r.Valid() && i.Current() && r.Current() && n.status == Accepted
    && KnownLevel(n.required) && KnownLevel(n.level) && n.level >= n.required
    && n.level == Min(i.maximum, r.maximum) && n.required >= Max(i.minimum, r.minimum)
    && KnownSuite(n.suite) && Usable(i, r, n.suite)
  }

  /** Exactly the results that some negotiation of the two offers ends with have a transcript. */
  lemma TranscribableExactly(i: Offer, r: Offer, n: Result)
    ensures Transcribable(i, r, n) <==> n.status == Accepted && exists p :: Negotiate(i, r, p) == n
  {
    var p := Policy(n.required, [n.suite]);
    if Transcribable(i, r, n) {
      assert FirstUsable(i, r, [n.suite]) == Some(n.suite);
      assert Negotiate(i, r, p) == n;
    }
    if n.status == Accepted && exists p :: Negotiate(i, r, p) == n {
      var q :| Negotiate(i, r, q) == n;
      var k := FirstUsableIsFirst(i, r, q.preferred);
    }
  }

  function OfferShape(): Shape {
    Then(Then(Word(1), Then(Word(1), Then(Word(1), Word(1)))),
    Then(Then(Word(8), Then(Word(8), Then(Word(4), Then(Word(8), Word(8))))),
    Then(List(1, Word(2)), Raw(NONCE_BYTES))))
  }

  function OfferTree(o: Offer): Tree {
    Pair(Pair(Number(o.major), Pair(Number(o.minor), Pair(Number(o.minimum), Number(o.maximum)))),
    Pair(Pair(Number(o.endpoint.node), Pair(Number(o.endpoint.runtime), Pair(Number(o.endpoint.endpoint),
         Pair(Number(o.epoch), Number(o.token))))),
    Pair(Items(NumberTrees(o.suites)), Blob(o.nonce))))
  }

  function OfferBytes(o: Offer): Bytes {
    Write(OfferShape(), OfferTree(o))
  }

  /** The byte of an accepted status. */
  const ACCEPTED: U8 := 1

  function ResultShape(): Shape {
    Then(Word(1), Then(Word(1), Then(Word(1), Word(2))))
  }

  function ResultTree(n: Result): Tree {
    Pair(Number(ACCEPTED), Pair(Number(n.required), Pair(Number(n.level), Number(n.suite))))
  }

  /** "LNS2NEG" */
  const LABEL: Bytes := [0x4C, 0x4E, 0x53, 0x32, 0x4E, 0x45, 0x47]

  function Transcript(i: Offer, r: Offer, n: Result): Bytes {
    LABEL + [1] + (OfferBytes(i) + ([2] + (OfferBytes(r) + Write(ResultShape(), ResultTree(n)))))
  }

  function EncodeTranscript(i: Offer, r: Offer, n: Result): Option<Bytes> {
    if Transcribable(i, r, n) then Some(Transcript(i, r, n)) else None
  }

  /** Every accepted result has a transcript. */
  lemma AcceptedHasTranscript(i: Offer, r: Offer, p: Policy)
    requires Negotiate(i, r, p).status == Accepted
    ensures EncodeTranscript(i, r, Negotiate(i, r, p)).Some?
  {
    var k := FirstUsableIsFirst(i, r, p.preferred);
  }

  lemma OfferFits(o: Offer)
    requires o.Valid()
    ensures Fits(OfferShape(), OfferTree(o))
  {
    Powers();
    hide Power256;
    assert forall k :: 0 <= k < |o.suites| ==> Fits(Word(2), NumberTrees(o.suites)[k]);
  }

  lemma SameOffer(o: Offer, q: Offer)
    requires OfferTree(o) == OfferTree(q)
    ensures o == q
  {
    hide NumberTrees;
    var a, b := NumberTrees(o.suites), NumberTrees(q.suites);
    assert |o.suites| == |q.suites|;
    forall k | 0 <= k < |o.suites| ensures o.suites[k] == q.suites[k] { assert a[k] == b[k]; }
  }

  lemma ResultFits(n: Result)
    ensures Fits(ResultShape(), ResultTree(n))
  {
    Powers();
  }

  /** The transcript determines both offers, nonces included, and the result. */
  lemma TranscriptIsInjective(i: Offer, r: Offer, n: Result, i': Offer, r': Offer, n': Result)
    requires EncodeTranscript(i, r, n).Some? && EncodeTranscript(i, r, n) == EncodeTranscript(i', r', n')
    ensures i == i' && r == r' && n == n'
  {
    hide OfferShape, OfferTree, ResultShape, ResultTree;
    OfferFits(i);
    OfferFits(i');
    OfferFits(r);
    OfferFits(r');
    ResultFits(n);
    ResultFits(n');
    var end, end' := Write(ResultShape(), ResultTree(n)), Write(ResultShape(), ResultTree(n'));
    var mid, mid' := [2] + (OfferBytes(r) + end), [2] + (OfferBytes(r') + end');
    SameTail(LABEL + [1], OfferBytes(i) + mid, OfferBytes(i') + mid');
    WritesApart(OfferShape(), OfferTree(i), OfferTree(i'), mid, mid');
    SameTail([2], OfferBytes(r) + end, OfferBytes(r') + end');
    WritesApart(OfferShape(), OfferTree(r), OfferTree(r'), end, end');
    assert end == end + [] && end' == end' + [];
    WritesApart(ResultShape(), ResultTree(n), ResultTree(n'), [], []);
    SameOffer(i, i');
    SameOffer(r, r');
    SameResult(n, n');
  }

  lemma SameTail(head: Bytes, x: Bytes, y: Bytes)
    requires head + x == head + y
    ensures x == y
  {
    assert x == (head + x)[|head|..];
    assert y == (head + y)[|head|..];
  }

  lemma SameResult(n: Result, n': Result)
    requires ResultTree(n) == ResultTree(n') && n.status == n'.status
    ensures n == n'
  {
  }
}
