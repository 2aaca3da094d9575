/** Facts about division and remainder by an arbitrary modulus that the other modules share. */
module Arithmetic {

  lemma MultipleAtLeast(n: int, k: int)
    requires n >= 0
    ensures k >= 1 ==> n * k >= n
    ensures k <= -1 ==> n * k <= -n
  {
  }

  lemma SameQuotient(n: int, q1: int, r1: int, q2: int, r2: int)
    requires n >= 0 && n * q1 + r1 == n * q2 + r2 && -n < r1 - r2 < n
    ensures q1 == q2 && r1 == r2
  {
    MultipleAtLeast(n, q1 - q2);
    assert n * (q1 - q2) == n * q1 - n * q2;
  }

  lemma RemainderOf(q: nat, r: nat, n: nat)
    requires r < n
    ensures (n * q + r) % n == r && (n * q + r) / n == q
  {
    var m := n * q + r;
    assert n * (m / n) + m % n == m;
    SameQuotient(n, q, r, m / n, m % n);
  }

  lemma PlusModulus(x: nat, n: nat)
    requires n > 0
    ensures (x + n) % n == x % n
  {
    RemainderOf(x / n + 1, x % n, n);
    assert n * (x / n + 1) == n * (x / n) + n;
  }

  lemma NextRemainder(x: nat, n: nat)
    requires n > 0
    ensures (x + 1) % n == if x % n + 1 == n then 0 else x % n + 1
  {
    var q, r := x / n, x % n;
    assert x == n * q + r;
    if r + 1 == n {
      assert x + 1 == n * (q + 1) by { assert n * (q + 1) == n * q + n; }
      RemainderOf(q + 1, 0, n);
    } else {
      RemainderOf(q, r + 1, n);
    }
  }

  /** Two numbers less than n apart with the same remainder are equal. */
  lemma SameRemainder(p: nat, q: nat, n: nat)
    requires n > 0 && p % n == q % n && p < q + n && q < p + n
    ensures p == q
  {
    var a, b, r := p / n, q / n, p % n;
    assert p == n * a + r && q == n * b + r;
    SameQuotient(n, a, p - n * a, b, p - n * b);
  }

  /** Some number of any n consecutive ones has the remainder of pos. */
  lemma RemainderInWindow(pos: nat, low: nat, n: nat) returns (p: nat)
    requires n > 0
    ensures low <= p < low + n && p % n == pos % n
    decreases if pos < low then low - pos else pos - low
  {
    if pos < low {
      PlusModulus(pos, n);
      if pos + n <= low {
        p := RemainderInWindow(pos + n, low, n);
      } else {
        p := pos + n;
      }
    } else if pos >= low + n {
      PlusModulus(pos - n, n);
      p := RemainderInWindow(pos - n, low, n);
    } else {
      p := pos;
    }
  }
}
