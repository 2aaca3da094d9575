/** Sums over sequences, and how one element's change moves them; and the size of a subset. */
module Counting {

  function Sum<T>(s: seq<T>, weight: T -> nat): nat {
    if s == [] then 0 else weight(s[0]) + Sum(s[1..], weight)
  }

  lemma {:induction false} SumAppend<T>(s: seq<T>, x: T, weight: T -> nat)
    ensures Sum(s + [x], weight) == Sum(s, weight) + weight(x)
  {
    if s == [] {
      assert s + [x] == [x];
    } else {
      SumAppend(s[1..], x, weight);
      assert (s + [x])[1..] == s[1..] + [x];
    }
  }

  lemma {:induction false} SumUpdate<T>(s: seq<T>, i: nat, x: T, weight: T -> nat)
    requires i < |s|
    ensures Sum(s[i := x], weight) + weight(s[i]) == Sum(s, weight) + weight(x)
  {
    if i == 0 {
      assert s[0 := x][1..] == s[1..];
    } else {
      SumUpdate(s[1..], i - 1, x, weight);
      assert s[i := x][1..] == s[1..][i - 1 := x];
    }
  }

  /** One element weighs no more than all, and two no more than all. */
  lemma {:induction false} SumCovers<T>(s: seq<T>, i: nat, weight: T -> nat)
    requires i < |s|
    ensures weight(s[i]) <= Sum(s, weight)
    ensures forall j :: 0 <= j < |s| && j != i ==> weight(s[i]) + weight(s[j]) <= Sum(s, weight)
  {
    SumUpdate(s, i, s[i], weight);
    if i == 0 {
      forall j | 0 < j < |s| ensures weight(s[0]) + weight(s[j]) <= Sum(s, weight) {
        Below(s[1..], j - 1, weight);
      }
    } else {
      SumCovers(s[1..], i - 1, weight);
      forall j | 0 <= j < |s| && j != i ensures weight(s[i]) + weight(s[j]) <= Sum(s, weight) {
        if j > 0 { assert s[j] == s[1..][j - 1]; }
      }
    }
  }

  lemma {:induction false} Below<T>(s: seq<T>, i: nat, weight: T -> nat)
    requires i < |s|
    ensures weight(s[i]) <= Sum(s, weight)
  {
    if i > 0 { Below(s[1..], i - 1, weight); }
  }

  lemma {:induction false} SumZero<T>(s: seq<T>, weight: T -> nat)
    requires forall i :: 0 <= i < |s| ==> weight(s[i]) == 0
    ensures Sum(s, weight) == 0
  {
    if s != [] { SumZero(s[1..], weight); }
  }

  lemma {:induction false} SumPositive<T>(s: seq<T>, weight: T -> nat) returns (i: nat)
    requires Sum(s, weight) > 0
    ensures i < |s| && weight(s[i]) > 0
  {
    if weight(s[0]) > 0 {
      i := 0;
    } else {
      i := SumPositive(s[1..], weight);
      i := i + 1;
    }
  }

  lemma SumZeroMeans<T>(s: seq<T>, weight: T -> nat)
    requires Sum(s, weight) == 0
    ensures forall i :: 0 <= i < |s| ==> weight(s[i]) == 0
  {
    forall i | 0 <= i < |s| ensures weight(s[i]) == 0 {
      Below(s, i, weight);
    }
  }

  lemma SubsetSize<T>(a: set<T>, b: set<T>)
    requires a <= b
    ensures |a| <= |b|
  {
    if a != b { assert b == a + (b - a); }
  }
}
