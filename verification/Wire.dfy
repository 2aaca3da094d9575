/** Byte layouts. A shape says how a tree of values lies in a byte sequence: little-endian words, raw bytes of a
    known number, and texts and lists behind a length prefix. Writing and reading are defined once for every shape,
    and the envelopes are shapes. */
module Wire {

  import opened Basics

  function Power256(k: nat): (p: nat)
    ensures p > 0
  {
    if k == 0 then 1 else 256 * Power256(k - 1)
  }

  lemma Powers()
    ensures Power256(1) == 0x100 && Power256(2) == 0x1_0000 && Power256(4) == 0x1_0000_0000
    ensures Power256(8) == 0x1_0000_0000_0000_0000
  {
    assert Power256(0) == 1;
    assert Power256(3) == 256 * Power256(2) && Power256(5) == 256 * Power256(4);
    assert Power256(6) == 256 * Power256(5) && Power256(7) == 256 * Power256(6);
  }

  /** n reduced to k bytes. */
  function Cut(n: nat, k: nat): (r: nat)
    ensures r <= n && r < Power256(k) && (n < Power256(k) ==> r == n)
  {
    CutBounds(n, Power256(k));
    n % Power256(k)
  }

  lemma CutBounds(n: nat, m: nat)
    requires m > 0
    ensures n % m <= n && (n < m ==> n % m == n)
  {
    if n >= m { assert n % m < m; }
  }

  // ---- Words -------------------------------------------------------------------------------------------------

  /** The low k bytes of n, least significant first. */
  function Little(n: nat, k: nat): (b: Bytes)
    ensures |b| == k
  {
    if k == 0 then [] else [n % 256] + Little(n / 256, k - 1)
  }

  function FromLittle(b: Bytes): nat {
    if b == [] then 0 else b[0] + 256 * FromLittle(b[1..])
  }

  lemma {:induction false} LittleRoundTrip(n: nat, k: nat)
    requires n < Power256(k)
    ensures FromLittle(Little(n, k)) == n
  {
    if k > 0 {
      assert n / 256 < Power256(k - 1);
      LittleRoundTrip(n / 256, k - 1);
      assert Little(n, k)[1..] == Little(n / 256, k - 1);
    }
  }

  lemma {:induction false} FromLittleRoundTrip(b: Bytes)
    ensures FromLittle(b) < Power256(|b|) && Little(FromLittle(b), |b|) == b
  {
    if b != [] {
      FromLittleRoundTrip(b[1..]);
      var n := FromLittle(b);
      assert n % 256 == b[0] && n / 256 == FromLittle(b[1..]);
      assert b == [b[0]] + b[1..];
    }
  }

  // ---- Shapes ------------------------------------------------------------------------------------------------

  datatype Shape =
    | Empty
    | Word(width: nat)
    | Raw(size: nat)
    | Text(prefix: nat)
    | List(countWidth: nat, item: Shape)
    | Then(first: Shape, rest: Shape)

  datatype Tree =
    | Nothing
    | Number(n: nat)
    | Blob(bytes: Bytes)
    | Items(items: seq<Tree>)
    | Pair(head: Tree, tail: Tree)

  /** The values a shape can carry: numbers within their width, texts and lists within their prefix. */
  predicate Fits(s: Shape, t: Tree)
    decreases s
  {
    match s
    case Empty => t == Nothing
    case Word(w) => t.Number? && t.n < Power256(w)
    case Raw(k) => t.Blob? && |t.bytes| == k
    case Text(p) => t.Blob? && |t.bytes| < Power256(p)
    case List(c, item) =>
      t.Items? && |t.items| < Power256(c) && forall i :: 0 <= i < |t.items| ==> Fits(item, t.items[i])
    case Then(a, b) => t.Pair? && Fits(a, t.head) && Fits(b, t.tail)
  }

  /** What the writers put down. A text longer than its prefix can say is cut to the length modulo the prefix;
      the count of a list is reduced in the same way, but all its items are written. */
  function Write(s: Shape, t: Tree): Bytes
    decreases s, 0
  {
    match s
    case Empty => []
    case Word(w) => if t.Number? then Little(t.n, w) else []
    case Raw(_) => if t.Blob? then t.bytes else []
    case Text(p) => if t.Blob? then Little(Cut(|t.bytes|, p), p) + t.bytes[..Cut(|t.bytes|, p)] else []
    case List(c, item) => if t.Items? then Little(|t.items|, c) + WriteAll(item, t.items) else []
    case Then(a, b) => if t.Pair? then Write(a, t.head) + Write(b, t.tail) else []
  }

  function WriteAll(item: Shape, ts: seq<Tree>): Bytes
    decreases item, 1, |ts|
  {
    if ts == [] then [] else Write(item, ts[0]) + WriteAll(item, ts[1..])
  }

  datatype Reading = Short | Got(tree: Tree, rest: Bytes)

  datatype ListReading = ShortList | GotList(trees: seq<Tree>, rest: Bytes)

  function Read(s: Shape, b: Bytes): Reading
    decreases s, 0
  {
    match s
    case Empty => Got(Nothing, b)
    case Word(w) => if |b| < w then Short else Got(Number(FromLittle(b[..w])), b[w..])
    case Raw(k) => if |b| < k then Short else Got(Blob(b[..k]), b[k..])
    case Text(p) =>
      if |b| < p then Short
      else
        var len := FromLittle(b[..p]);
        if |b| - p < len then Short else Got(Blob(b[p..p + len]), b[p + len..])
    case List(c, item) =>
      if |b| < c then Short
      else (match ReadAll(item, FromLittle(b[..c]), b[c..])
            case ShortList => Short
            case GotList(ts, rest) => Got(Items(ts), rest))
    case Then(a, r) =>
      match Read(a, b)
      case Short => Short
      case Got(t, rest) =>
        match Read(r, rest)
        case Short => Short
        case Got(u, rest') => Got(Pair(t, u), rest')
  }

  function ReadAll(item: Shape, n: nat, b: Bytes): ListReading
    decreases item, 1, n
  {
    if n == 0 then GotList([], b)
    else match Read(item, b)
         case Short => ShortList
         case Got(t, rest) =>
           match ReadAll(item, n - 1, rest)
           case ShortList => ShortList
           case GotList(ts, rest') => GotList([t] + ts, rest')
  }

  // ---- Both ways, for every shape ----------------------------------------------------------------------------

  /** Whatever fits is read back exactly as it was written, and nothing after it is touched. */
  lemma {:induction false} ReadBack(s: Shape, t: Tree, rest: Bytes)
    requires Fits(s, t)
    ensures Read(s, Write(s, t) + rest) == Got(t, rest)
    decreases s, 0
  {
    hide Power256, Little, FromLittle;
    var b := Write(s, t) + rest;
    match s {
      case Empty => assert b == rest;
      case Word(w) =>
        LittleRoundTrip(t.n, w);
        assert b[..w] == Little(t.n, w) && b[w..] == rest;
      case Raw(k) => assert b[..k] == t.bytes && b[k..] == rest;
      case Text(p) => TextReadBack(p, t.bytes, rest);
      case List(c, item) =>
        LittleRoundTrip(|t.items|, c);
        assert b[..c] == Little(|t.items|, c) && b[c..] == WriteAll(item, t.items) + rest;
        ReadAllBack(item, t.items, rest);
      case Then(x, y) =>
        assert b == Write(x, t.head) + (Write(y, t.tail) + rest);
        ReadBack(x, t.head, Write(y, t.tail) + rest);
        ReadBack(y, t.tail, rest);
    }
  }

  lemma TextReadBack(p: nat, text: Bytes, rest: Bytes)
    ensures Read(Text(p), Write(Text(p), Blob(text)) + rest) == Got(Blob(text[..Cut(|text|, p)]), rest)
  {
    hide Power256, Little, FromLittle;
    var n := Cut(|text|, p);
    var b := Write(Text(p), Blob(text)) + rest;
    LittleRoundTrip(n, p);
    assert b[..p] == Little(n, p) && b[p..p + n] == text[..n] && b[p + n..] == rest;
    assert n == |text| ==> text[..n] == text;
  }

  lemma {:induction false} ReadAllBack(item: Shape, ts: seq<Tree>, rest: Bytes)
    requires forall i :: 0 <= i < |ts| ==> Fits(item, ts[i])
    ensures ReadAll(item, |ts|, WriteAll(item, ts) + rest) == GotList(ts, rest)
    decreases item, 1, |ts|
  {
    hide Fits;
    if ts == [] {
      assert WriteAll(item, ts) + rest == rest;
    } else {
      assert WriteAll(item, ts) + rest == Write(item, ts[0]) + (WriteAll(item, ts[1..]) + rest);
      ReadBack(item, ts[0], WriteAll(item, ts[1..]) + rest);
      ReadAllBack(item, ts[1..], rest);
      assert [ts[0]] + ts[1..] == ts;
    }
  }

  /** Whatever is read fits, and writing it gives back exactly the bytes it was read from. */
  lemma {:induction false} WriteBack(s: Shape, b: Bytes)
    requires Read(s, b).Got?
    ensures Fits(s, Read(s, b).tree) && b == Write(s, Read(s, b).tree) + Read(s, b).rest
    decreases s, 0
  {
    hide Power256, Little, FromLittle;
    match s {
      case Empty =>
      case Word(w) => FromLittleRoundTrip(b[..w]);
      case Raw(k) => assert b == b[..k] + b[k..];
      case Text(p) => TextWriteBack(p, b);
      case List(c, item) =>
        FromLittleRoundTrip(b[..c]);
        ReadAllLength(item, FromLittle(b[..c]), b[c..]);
        WriteAllBack(item, FromLittle(b[..c]), b[c..]);
        Regroup(b, b[..c], b[c..], WriteAll(item, Read(s, b).tree.items), Read(s, b).rest);
      case Then(x, y) =>
        WriteBack(x, b);
        var rest := Read(x, b).rest;
        WriteBack(y, rest);
        Regroup(b, Write(x, Read(x, b).tree), rest, Write(y, Read(y, rest).tree), Read(y, rest).rest);
    }
  }

  lemma Regroup(whole: Bytes, a: Bytes, rest: Bytes, b: Bytes, c: Bytes)
    requires whole == a + rest && rest == b + c
    ensures whole == (a + b) + c
  {
  }

  lemma TextWriteBack(p: nat, b: Bytes)
    requires Read(Text(p), b).Got?
    ensures Fits(Text(p), Read(Text(p), b).tree)
    ensures b == Write(Text(p), Read(Text(p), b).tree) + Read(Text(p), b).rest
  {
    hide Power256, Little, FromLittle;
    FromLittleRoundTrip(b[..p]);
    var len := FromLittle(b[..p]);
    var text := b[p..p + len];
    assert text[..len] == text;
    assert b == b[..p] + text + b[p + len..];
  }

  lemma {:induction false} WriteAllBack(item: Shape, n: nat, b: Bytes)
    requires ReadAll(item, n, b).GotList?
    ensures var ts := ReadAll(item, n, b).trees;
            && (forall i :: 0 <= i < |ts| ==> Fits(item, ts[i]))
            && b == WriteAll(item, ts) + ReadAll(item, n, b).rest
    decreases item, 1, n
  {
    hide Fits;
    if n > 0 {
      WriteBack(item, b);
      var t, rest := Read(item, b).tree, Read(item, b).rest;
      WriteAllBack(item, n - 1, rest);
      WriteAllCons(item, t, ReadAll(item, n - 1, rest).trees);
    }
  }

  lemma WriteAllCons(item: Shape, t: Tree, ts: seq<Tree>)
    ensures WriteAll(item, [t] + ts) == Write(item, t) + WriteAll(item, ts)
  {
    hide Write;
    assert ([t] + ts)[1..] == ts;
  }

  lemma {:induction false} ReadAllLength(item: Shape, n: nat, b: Bytes)
    requires ReadAll(item, n, b).GotList?
    ensures |ReadAll(item, n, b).trees| == n
    decreases n
  {
    if n > 0 { ReadAllLength(item, n - 1, Read(item, b).rest); }
  }

  /** A text survives exactly when its length fits its prefix. */
  lemma TextSurvivesExactlyWhenItFits(p: nat, text: Bytes, rest: Bytes)
    ensures Read(Text(p), Write(Text(p), Blob(text)) + rest) == Got(Blob(text), rest) <==> |text| < Power256(p)
  {
    hide Power256;
    TextReadBack(p, text, rest);
    assert |text| < Power256(p) ==> text[..|text|] == text;
  }

  /** Two values that fit and are written alike are the same value, and end at the same place. */
  lemma WritesApart(s: Shape, t: Tree, u: Tree, x: Bytes, y: Bytes)
    requires Fits(s, t) && Fits(s, u) && Write(s, t) + x == Write(s, u) + y
    ensures t == u && x == y
  {
    ReadBack(s, t, x);
    ReadBack(s, u, y);
  }

  // ---- Lists of texts ----------------------------------------------------------------------------------------

  function TextOf(t: Tree): Bytes {
    if t.Blob? then t.bytes else []
  }

  function TextTrees(ss: seq<Bytes>): (ts: seq<Tree>)
    ensures |ts| == |ss| && forall i :: 0 <= i < |ts| ==> ts[i] == Blob(ss[i])
  {
    seq(|ss|, (i: nat) requires i < |ss| => Blob(ss[i]))
  }

  function TextsFrom(ts: seq<Tree>): (ss: seq<Bytes>)
    ensures |ss| == |ts| && forall i :: 0 <= i < |ts| ==> ss[i] == TextOf(ts[i])
  {
    seq(|ts|, (i: nat) requires i < |ts| => TextOf(ts[i]))
  }

  lemma TextsRoundTrip(ss: seq<Bytes>)
    ensures TextsFrom(TextTrees(ss)) == ss
  {
  }

  function NumberOf(t: Tree): U32 {
    if t.Number? && t.n < 0x1_0000_0000 then t.n else 0
  }

  function NumberTrees(ns: seq<U32>): (ts: seq<Tree>)
    ensures |ts| == |ns| && forall i :: 0 <= i < |ts| ==> ts[i] == Number(ns[i])
  {
    seq(|ns|, (i: nat) requires i < |ns| => Number(ns[i]))
  }

  function NumbersFrom(ts: seq<Tree>): (ns: seq<U32>)
    ensures |ns| == |ts| && forall i :: 0 <= i < |ts| ==> ns[i] == NumberOf(ts[i])
  {
    seq(|ts|, (i: nat) requires i < |ts| => NumberOf(ts[i]))
  }

  // ---- Shapes of one size ------------------------------------------------------------------------------------

  predicate Fixed(s: Shape) {
    match s
    case Empty => true
    case Word(_) => true
    case Raw(_) => true
    case Then(a, b) => Fixed(a) && Fixed(b)
    case _ => false
  }

  function Width(s: Shape): nat
    requires Fixed(s)
  {
    match s
    case Empty => 0
    case Word(w) => w
    case Raw(k) => k
    case Then(a, b) => Width(a) + Width(b)
  }

  lemma {:induction false} FixedWrites(s: Shape, t: Tree)
    requires Fixed(s) && Fits(s, t)
    ensures |Write(s, t)| == Width(s)
  {
    hide Power256, Little;
    if s.Then? {
      FixedWrites(s.first, t.head);
      FixedWrites(s.rest, t.tail);
    }
  }

  /** A shape of one size reads from any bytes that are long enough, and takes exactly its size. */
  lemma {:induction false} FixedReads(s: Shape, b: Bytes)
    requires Fixed(s)
    ensures Read(s, b).Got? <==> |b| >= Width(s)
    ensures Read(s, b).Got? ==> Read(s, b).rest == b[Width(s)..]
  {
    hide FromLittle;
    if s.Then? {
      FixedReads(s.first, b);
      if Read(s.first, b).Got? {
        FixedReads(s.rest, b[Width(s.first)..]);
      }
    }
  }
}
