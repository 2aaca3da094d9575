/** Chains of digests: each link hashes the digest before it together with one message. */
module HashChain {

  import opened Basics
  import opened Sha256Standard

  /** The digest after these messages. */
  function Chain(start: Bytes, messages: seq<Bytes>): Bytes {
    if messages == [] then start
    else Sha256(Chain(start, messages[..|messages| - 1]) + messages[|messages| - 1])
  }

  /** Everything that is hashed on the way. */
  function Inputs(start: Bytes, messages: seq<Bytes>): set<Bytes> {
    set i | 0 <= i < |messages| :: Chain(start, messages[..i]) + messages[i]
  }

  predicate NoCollision(inputs: set<Bytes>) {
    forall x, y :: x in inputs && y in inputs && Sha256(x) == Sha256(y) ==> x == y
  }

  lemma ChainAdds(start: Bytes, messages: seq<Bytes>, message: Bytes)
    ensures Chain(start, messages + [message]) == Sha256(Chain(start, messages) + message)
  {
    hide Sha256;
    assert (messages + [message])[..|messages|] == messages;
  }

  lemma DigestSize(input: Bytes)
    ensures |Sha256(input)| == 32
  {
  }

  lemma ChainLength(start: Bytes, messages: seq<Bytes>)
    ensures |Chain(start, messages)| == if messages == [] then |start| else 32
  {
    hide Sha256;
    if messages != [] { DigestSize(Chain(start, messages[..|messages| - 1]) + messages[|messages| - 1]); }
  }

  lemma LastInput(start: Bytes, a: seq<Bytes>)
    requires a != []
    ensures Chain(start, a[..|a| - 1]) + a[|a| - 1] in Inputs(start, a)
    ensures Chain(start, a) == Sha256(Chain(start, a[..|a| - 1]) + a[|a| - 1])
  {
    hide Sha256;
  }

  lemma FewerInputs(start: Bytes, a: seq<Bytes>, k: nat)
    requires k <= |a|
    ensures Inputs(start, a[..k]) <= Inputs(start, a)
  {
    hide Chain;
    forall x | x in Inputs(start, a[..k]) ensures x in Inputs(start, a) {
      var i :| 0 <= i < k && x == Chain(start, a[..k][..i]) + a[..k][i];
      assert a[..k][..i] == a[..i];
    }
  }

  lemma FewerCollisions(a: set<Bytes>, b: set<Bytes>)
    requires NoCollision(b) && a <= b
    ensures NoCollision(a)
  {
    hide Sha256;
  }

  lemma SameSplit(h: Bytes, message: Bytes, h': Bytes, message': Bytes)
    requires |h| == |h'| && h + message == h' + message'
    ensures h == h' && message == message'
  {
    assert h == (h + message)[..|h|] && h' == (h' + message')[..|h|];
    assert message == (h + message)[|h|..] && message' == (h' + message')[|h|..];
  }

  /** Without collisions equal digests were made of equal inputs. */
  lemma SameLastInput(start: Bytes, a: seq<Bytes>, b: seq<Bytes>)
    requires a != [] && b != [] && Chain(start, a) == Chain(start, b)
    requires NoCollision(Inputs(start, a) + Inputs(start, b))
    ensures Chain(start, a[..|a| - 1]) + a[|a| - 1] == Chain(start, b[..|b| - 1]) + b[|b| - 1]
    ensures NoCollision(Inputs(start, a[..|a| - 1]) + Inputs(start, b[..|b| - 1]))
  {
    hide Sha256, Inputs, Chain;
    LastInput(start, a);
    LastInput(start, b);
    FewerInputs(start, a, |a| - 1);
    FewerInputs(start, b, |b| - 1);
    FewerCollisions(Inputs(start, a[..|a| - 1]) + Inputs(start, b[..|b| - 1]), Inputs(start, a) + Inputs(start, b));
  }

  /** So the last digest determines every message of a chain of known length. */
  lemma {:induction false} ChainIsInjective(start: Bytes, a: seq<Bytes>, b: seq<Bytes>)
    requires |a| == |b| && Chain(start, a) == Chain(start, b) && NoCollision(Inputs(start, a) + Inputs(start, b))
    ensures a == b
    decreases |a|
  {
    hide Sha256, Inputs, Chain, NoCollision;
    if a != [] {
      var k := |a| - 1;
      SameLastInput(start, a, b);
      ChainLength(start, a[..k]);
      ChainLength(start, b[..k]);
      SameSplit(Chain(start, a[..k]), a[k], Chain(start, b[..k]), b[k]);
      ChainIsInjective(start, a[..k], b[..k]);
      assert a == a[..k] + [a[k]] && b == b[..k] + [b[k]];
    }
  }
}
