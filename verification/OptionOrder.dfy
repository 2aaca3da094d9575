/** The order the extra options of a request are written in. */
module OptionOrder {

  import opened Basics

  /** Key and value of an option. */
  type Pair = (Bytes, Bytes)

  /** Strings as the sort compares them: byte by byte, a prefix first. */
  predicate Less(a: Bytes, b: Bytes) {
    b != [] && (a == [] || a[0] < b[0] || (a[0] == b[0] && Less(a[1..], b[1..])))
  }

  lemma {:induction false} LessTrichotomy(a: Bytes, b: Bytes)
    ensures Less(a, b) || a == b || Less(b, a)
    ensures !(Less(a, b) && Less(b, a)) && (a == b ==> !Less(a, b))
  {
    if a != [] && b != [] {
      LessTrichotomy(a[1..], b[1..]);
      assert a == [a[0]] + a[1..] && b == [b[0]] + b[1..];
    }
  }

  lemma {:induction false} LessTransitive(a: Bytes, b: Bytes, c: Bytes)
    requires Less(a, b) && Less(b, c)
    ensures Less(a, c)
  {
    if a != [] && a[0] == b[0] == c[0] { LessTransitive(a[1..], b[1..], c[1..]); }
  }

  predicate Ascending(e: seq<Pair>) {
    forall i :: 0 < i < |e| ==> !Less(e[i].0, e[i - 1].0)
  }

  predicate StrictlyAscending(e: seq<Pair>) {
    forall i :: 0 < i < |e| ==> Less(e[i - 1].0, e[i].0)
  }

  predicate DistinctKeys(e: seq<Pair>) {
    forall i, j :: 0 <= i < j < |e| ==> e[i].0 != e[j].0
  }

  function Insert(x: Pair, e: seq<Pair>): seq<Pair> {
    if e == [] || !Less(e[0].0, x.0) then [x] + e else [e[0]] + Insert(x, e[1..])
  }

  function Sort(e: seq<Pair>): seq<Pair> {
    if e == [] then [] else Insert(e[0], Sort(e[1..]))
  }

  lemma {:induction false} InsertPermutes(x: Pair, e: seq<Pair>)
    ensures multiset(Insert(x, e)) == multiset([x] + e)
  {
    hide Less;
    if !(e == [] || !Less(e[0].0, x.0)) {
      InsertPermutes(x, e[1..]);
      assert e == [e[0]] + e[1..];
    }
  }

  lemma {:induction false} InsertStarts(x: Pair, e: seq<Pair>)
    ensures |Insert(x, e)| == |e| + 1 && (Insert(x, e)[0] == x || (e != [] && Insert(x, e)[0] == e[0]))
  {
    hide Less;
    if !(e == [] || !Less(e[0].0, x.0)) { InsertStarts(x, e[1..]); }
  }

  lemma {:induction false} InsertOrders(x: Pair, e: seq<Pair>)
    requires Ascending(e)
    ensures Ascending(Insert(x, e))
  {
    hide Less;
    if e != [] && Less(e[0].0, x.0) {
      var tail := e[1..];
      var rest := Insert(x, tail);
      assert forall i :: 0 < i < |tail| ==> tail[i] == e[i + 1] && tail[i - 1] == e[i];
      InsertOrders(x, tail);
      InsertStarts(x, tail);
      LessTrichotomy(e[0].0, x.0);
      Prepended(e[0], rest);
    } else {
      Prepended(x, e);
    }
  }

  lemma Prepended(x: Pair, e: seq<Pair>)
    requires Ascending(e) && (e != [] ==> !Less(e[0].0, x.0))
    ensures Ascending([x] + e)
  {
    hide Less;
    var all := [x] + e;
    forall i | 0 < i < |all| ensures !Less(all[i].0, all[i - 1].0) {
      assert all[i] == e[i - 1] && (i > 1 ==> all[i - 1] == e[i - 2]);
    }
  }

  /** The sorted options are the same options, in order. */
  lemma {:induction false} SortOrders(e: seq<Pair>)
    ensures Ascending(Sort(e)) && multiset(Sort(e)) == multiset(e) && |Sort(e)| == |e|
  {
    if e != [] {
      SortOrders(e[1..]);
      InsertOrders(e[0], Sort(e[1..]));
      InsertPermutes(e[0], Sort(e[1..]));
      InsertStarts(e[0], Sort(e[1..]));
      assert e == [e[0]] + e[1..];
    }
  }

  lemma {:induction false} StrictIsDistinct(e: seq<Pair>, i: nat, j: nat)
    requires StrictlyAscending(e) && i < j < |e|
    ensures Less(e[i].0, e[j].0)
    decreases j
  {
    if i < j - 1 {
      StrictIsDistinct(e, i, j - 1);
      LessTransitive(e[i].0, e[j - 1].0, e[j].0);
    }
  }

  /** How often each key occurs. */
  function Keys(e: seq<Pair>): multiset<Bytes> {
    if e == [] then multiset{} else multiset{e[0].0} + Keys(e[1..])
  }

  lemma {:induction false} KeysOfInsert(x: Pair, e: seq<Pair>)
    ensures Keys(Insert(x, e)) == multiset{x.0} + Keys(e)
  {
    if e == [] || !Less(e[0].0, x.0) {
      assert ([x] + e)[1..] == e;
    } else {
      KeysOfInsert(x, e[1..]);
      assert ([e[0]] + Insert(x, e[1..]))[1..] == Insert(x, e[1..]);
    }
  }

  lemma {:induction false} KeysOfSort(e: seq<Pair>)
    ensures Keys(Sort(e)) == Keys(e)
  {
    if e != [] {
      KeysOfSort(e[1..]);
      KeysOfInsert(e[0], Sort(e[1..]));
    }
  }

  lemma {:induction false} KeyOccurs(e: seq<Pair>, k: Bytes)
    ensures k in Keys(e) <==> exists i :: 0 <= i < |e| && e[i].0 == k
  {
    if e != [] {
      KeyOccurs(e[1..], k);
      if k in Keys(e[1..]) {
        var i :| 0 <= i < |e[1..]| && e[1..][i].0 == k;
        assert e[i + 1].0 == k;
      }
      if i :| 0 < i < |e| && e[i].0 == k { assert e[1..][i - 1].0 == k; }
    }
  }

  lemma {:induction false} DistinctMeansOnce(e: seq<Pair>)
    ensures DistinctKeys(e) <==> forall k :: Keys(e)[k] <= 1
  {
    if e != [] {
      var rest := e[1..];
      DistinctMeansOnce(rest);
      KeyOccurs(rest, e[0].0);
      if DistinctKeys(e) {
        forall i, j | 0 <= i < j < |rest| ensures rest[i].0 != rest[j].0 { assert e[i + 1].0 != e[j + 1].0; }
        forall i | 0 <= i < |rest| ensures rest[i].0 != e[0].0 { assert e[i + 1] == rest[i]; }
      } else {
        var i, j :| 0 <= i < j < |e| && e[i].0 == e[j].0;
        var k := e[i].0;
        if i == 0 {
          assert rest[j - 1].0 == k;
          assert Keys(e)[k] > 1;
        } else {
          assert rest[i - 1].0 == rest[j - 1].0;
          var l :| Keys(rest)[l] > 1;
          assert Keys(e)[l] > 1;
        }
      }
    }
  }

  /** The check for equal neighbours after sorting finds exactly the lists with a repeated key. */
  lemma DuplicatesAreFound(e: seq<Pair>)
    ensures StrictlyAscending(Sort(e)) <==> DistinctKeys(e)
  {
    SortOrders(e);
    var s := Sort(e);
    KeysOfSort(e);
    DistinctMeansOnce(s);
    DistinctMeansOnce(e);
    if StrictlyAscending(s) {
      forall i, j | 0 <= i < j < |s| ensures s[i].0 != s[j].0 {
        StrictIsDistinct(s, i, j);
        LessTrichotomy(s[i].0, s[j].0);
      }
    } else {
      var i :| 0 < i < |s| && !Less(s[i - 1].0, s[i].0);
      LessTrichotomy(s[i - 1].0, s[i].0);
    }
  }

  /** Options already in strict order stay where they are. */
  lemma {:induction false} SortKeepsOrdered(e: seq<Pair>)
    requires StrictlyAscending(e)
    ensures Sort(e) == e
  {
    if e != [] {
      var rest := e[1..];
      forall i | 0 < i < |rest| ensures Less(rest[i - 1].0, rest[i].0) { assert Less(e[i].0, e[i + 1].0); }
      SortKeepsOrdered(rest);
      if rest != [] {
        assert Less(e[0].0, e[1].0);
        LessTrichotomy(e[0].0, rest[0].0);
      }
    }
  }
}
