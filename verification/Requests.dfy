/** The request envelope: baseline fields, and behind them the generation options when there are any. Floats
    are carried as their 32-bit words. */
module Requests {

  import opened Basics
  import opened Wire
  import opened Frames
  import opened OptionOrder

  type I32 = n: int | -0x8000_0000 <= n < 0x8000_0000

  datatype Options = Options(
    topP: U32, topK: I32, repeatPenalty: U32, repeatLastN: I32, seed: U64, presence: U32, frequency: U32,
    stops: seq<Bytes>, extras: seq<OptionOrder.Pair>)

  /** The values an Options object starts with: 0.9, 40, 1.0, 64, 0, 0.0, 0.0. */
  const DEFAULTS := Options(0x3F66_6666, 40, 0x3F80_0000, 64, 0, 0, 0, [], [])

  datatype Request = Request(
    stream: StreamId, profile: U8, model: Bytes, payload: Bytes, maxTokens: U32, temperature: U32,
    streaming: bool, hasOptions: bool, options: Options)
  {
    predicate Valid() { stream.Valid() && profile != 0 && model != [] }
  }

  // ---- Two's complement --------------------------------------------------------------------------------------

  function FromSigned(n: I32): U32 { n % 0x1_0000_0000 }

  function ToSigned(w: U32): I32 { if w < 0x8000_0000 then w else w - 0x1_0000_0000 }

  lemma SignedRoundTrip(n: I32)
    ensures ToSigned(FromSigned(n)) == n
  {
  }

  // ---- Layout ------------------------------------------------------------------------------------------------

  function BaseShape(): Shape {
    Then(Word(1), Then(Text(2), Then(Text(4), Then(Word(4), Then(Word(4), Word(1))))))
  }

  function NumbersShape(): Shape {
    Then(Word(4), Then(Word(4), Then(Word(4), Then(Word(4), Then(Word(4), Then(Word(8), Then(Word(4), Word(4))))))))
  }

  function ListsShape(): Shape {
    Then(List(2, Text(2)), List(2, Then(Text(2), Text(2))))
  }

  function OptionsShape(): Shape {
    Then(NumbersShape(), ListsShape())
  }

  function BaseTree(q: Request): Tree {
    Tree.Pair(Number(q.profile), Tree.Pair(Blob(q.model), Tree.Pair(Blob(q.payload), Tree.Pair(Number(q.maxTokens),
    Tree.Pair(Number(q.temperature), Number(if q.streaming then 1 else 0))))))
  }

  function ExtraTrees(e: seq<OptionOrder.Pair>): seq<Tree> {
    seq(|e|, (i: nat) requires i < |e| => Tree.Pair(Blob(e[i].0), Blob(e[i].1)))
  }

  const ALL_FLAGS: U32 := 0x7F

  function NumbersTree(flags: U32, o: Options): (t: Tree)
    ensures Fits(NumbersShape(), t)
  {
    Powers();
    Tree.Pair(Number(flags), Tree.Pair(Number(o.topP), Tree.Pair(Number(FromSigned(o.topK)),
    Tree.Pair(Number(o.repeatPenalty), Tree.Pair(Number(FromSigned(o.repeatLastN)), Tree.Pair(Number(o.seed),
    Tree.Pair(Number(o.presence), Number(o.frequency))))))))
  }

  function ListsTree(o: Options): Tree {
    Tree.Pair(Items(TextTrees(o.stops)), Items(ExtraTrees(o.extras)))
  }

  function OptionsTree(flags: U32, o: Options): Tree {
    Tree.Pair(NumbersTree(flags, o), ListsTree(o))
  }

  function BaseFrom(stream: StreamId, t: Tree): Request
    requires Fits(BaseShape(), t)
  {
    Powers();
    Request(stream, t.head.n, t.tail.head.bytes, t.tail.tail.head.bytes, t.tail.tail.tail.head.n,
            t.tail.tail.tail.tail.head.n, t.tail.tail.tail.tail.tail.n != 0, false, DEFAULTS)
  }

  function ExtraOf(t: Tree): OptionOrder.Pair {
    if t.Pair? then (TextOf(t.head), TextOf(t.tail)) else ([], [])
  }

  function ExtrasFrom(ts: seq<Tree>): (e: seq<OptionOrder.Pair>)
    ensures |e| == |ts| && forall i :: 0 <= i < |ts| ==> e[i] == ExtraOf(ts[i])
  {
    seq(|ts|, (i: nat) requires i < |ts| => ExtraOf(ts[i]))
  }

  function NumbersFrom(t: Tree): (o: Options)
    requires Fits(NumbersShape(), t)
    ensures NumbersTree(t.head.n, o) == t && o.stops == [] && o.extras == []
  {
    Powers();
    var u := t.tail.tail.tail.tail;
    Options(t.tail.head.n, ToSigned(t.tail.tail.head.n), t.tail.tail.tail.head.n, ToSigned(u.head.n), u.tail.head.n,
            u.tail.tail.head.n, u.tail.tail.tail.n, [], [])
  }

  function OptionsFrom(t: Tree): Options
    requires Fits(OptionsShape(), t)
  {
    NumbersFrom(t.head).(stops := TextsFrom(t.tail.head.items), extras := ExtrasFrom(t.tail.tail.items))
  }

  // ---- Encoding and decoding ---------------------------------------------------------------------------------

  function Body(q: Request): Bytes {
    Write(BaseShape(), BaseTree(q)) +
    if q.hasOptions then Write(OptionsShape(), OptionsTree(ALL_FLAGS, q.options.(extras := Sort(q.options.extras))))
    else []
  }

  function Encode(q: Request): Option<Bytes> {
    if !q.Valid() then None
    else if q.hasOptions && (|q.options.stops| > 0xFFFF || |q.options.extras| > 0xFFFF) then None
    else if q.hasOptions && !StrictlyAscending(Sort(q.options.extras)) then None
    else Some(Frame(REQUEST, q.stream, Body(q)))
  }

  /** The flag word of the options is read and not looked at. */
  function ParseBody(stream: StreamId, payload: Bytes): Option<Request> {
    match Read(BaseShape(), payload)
    case Short => None
    case Got(base, rest) =>
      WriteBack(BaseShape(), payload);
      var q := BaseFrom(stream, base);
      if rest == [] then (if q.Valid() then Some(q) else None)
      else
        match Read(OptionsShape(), rest)
        case Short => None
        case Got(options, rest') =>
          WriteBack(OptionsShape(), rest);
          var o := OptionsFrom(options);
          if rest' != [] || !StrictlyAscending(o.extras) || !q.Valid() then None
          else Some(q.(hasOptions := true, options := o))
  }

  function Decode(data: Bytes): Option<Request> {
    match Open(data, REQUEST)
    case None => None
    case Some(o) => ParseBody(o.stream, o.payload)
  }

  // ---- Round trip --------------------------------------------------------------------------------------------

  /** What the bytes can say of a request: options in key order, and none at all unless it has them. */
  function Canonical(q: Request): Request {
    q.(options := if q.hasOptions then q.options.(extras := Sort(q.options.extras)) else DEFAULTS)
  }

  /** Every text fits its length prefix and the payload fits the frame: all a caller has to check. */
  predicate Encodable(q: Request) {
    && |q.model| < 0x1_0000 && |q.payload| < 0x1_0000_0000 && |Body(q)| < 0x1_0000_0000
    && (q.hasOptions ==>
          && (forall i :: 0 <= i < |q.options.stops| ==> |q.options.stops[i]| < 0x1_0000)
          && (forall i :: 0 <= i < |q.options.extras| ==>
                |q.options.extras[i].0| < 0x1_0000 && |q.options.extras[i].1| < 0x1_0000))
  }

  lemma BaseRoundTrip(q: Request)
    requires |q.model| < 0x1_0000 && |q.payload| < 0x1_0000_0000
    ensures Fits(BaseShape(), BaseTree(q))
    ensures BaseFrom(q.stream, BaseTree(q)) == q.(hasOptions := false, options := DEFAULTS)
  {
    Powers();
  }

  predicate TextsFit(o: Options) {
    && |o.stops| < 0x1_0000 && |o.extras| < 0x1_0000
    && (forall i :: 0 <= i < |o.stops| ==> |o.stops[i]| < 0x1_0000)
    && (forall i :: 0 <= i < |o.extras| ==> |o.extras[i].0| < 0x1_0000 && |o.extras[i].1| < 0x1_0000)
  }

  lemma ListsRoundTrip(o: Options)
    requires TextsFit(o)
    ensures Fits(ListsShape(), ListsTree(o))
    ensures TextsFrom(ListsTree(o).head.items) == o.stops && ExtrasFrom(ListsTree(o).tail.items) == o.extras
  {
    hide Power256;
    Powers();
    var stops, extras := TextTrees(o.stops), ExtraTrees(o.extras);
    assert forall i :: 0 <= i < |stops| ==> Fits(Text(2), stops[i]);
    assert forall i :: 0 <= i < |extras| ==> Fits(Then(Text(2), Text(2)), extras[i]);
    assert TextsFrom(stops) == o.stops;
    assert ExtrasFrom(extras) == o.extras;
  }

  lemma SameNumbers(flags: U32, o: Options, p: Options)
    requires NumbersTree(flags, o) == NumbersTree(flags, p)
    ensures o == p.(stops := o.stops, extras := o.extras)
  {
    SignedRoundTrip(o.topK);
    SignedRoundTrip(p.topK);
    SignedRoundTrip(o.repeatLastN);
    SignedRoundTrip(p.repeatLastN);
  }

  lemma OptionsRoundTrip(flags: U32, o: Options)
    requires TextsFit(o)
    ensures Fits(OptionsShape(), OptionsTree(flags, o)) && OptionsFrom(OptionsTree(flags, o)) == o
  {
    hide NumbersShape, ListsShape, ListsTree, TextsFit;
    ListsRoundTrip(o);
    SameNumbers(flags, o, NumbersFrom(NumbersTree(flags, o)));
  }

  lemma SortedTextsFit(o: Options)
    requires TextsFit(o)
    ensures TextsFit(o.(extras := Sort(o.extras)))
  {
    SortOrders(o.extras);
    var s := Sort(o.extras);
    forall i | 0 <= i < |s| ensures |s[i].0| < 0x1_0000 && |s[i].1| < 0x1_0000 {
      assert s[i] in multiset(s);
    }
  }

  lemma BodyParses(q: Request)
    requires Encode(q).Some? && Encodable(q)
    ensures ParseBody(q.stream, Body(q)) == Some(Canonical(q))
  {
    hide Write, Read, Fits, Power256, BaseShape, OptionsShape;
    BaseRoundTrip(q);
    if !q.hasOptions {
      assert Body(q) == Write(BaseShape(), BaseTree(q)) + [];
      ReadBack(BaseShape(), BaseTree(q), []);
    } else {
      var o := Canonical(q).options;
      SortedTextsFit(q.options);
      OptionsRoundTrip(ALL_FLAGS, o);
      var rest := Write(OptionsShape(), OptionsTree(ALL_FLAGS, o));
      ReadBack(BaseShape(), BaseTree(q), rest);
      assert rest == rest + [];
      ReadBack(OptionsShape(), OptionsTree(ALL_FLAGS, o), []);
      OptionsNotEmpty(OptionsTree(ALL_FLAGS, o));
    }
  }

  lemma OptionsNotEmpty(t: Tree)
    requires Fits(OptionsShape(), t)
    ensures Write(OptionsShape(), t) != []
  {
    OptionsLength(t);
  }

  /** Decoding what was encoded gives the request back, with its options in key order, both as sent and after
      the frame was signed. */
  lemma RoundTrip(q: Request, binding: Binding, direction: U8, number: U32, keyId: U16, key: Key)
    requires Encode(q).Some? && Encodable(q) && key != [] && number != 0
    ensures Decode(Encode(q).value) == Some(Canonical(q))
    ensures var signed := Sign(Encode(q).value, binding, direction, number, keyId, key);
            signed.Some? && Decode(signed.value) == Some(Canonical(q))
  {
    hide Body, ParseBody, Frame, Open, Sign;
    OpenFrame(REQUEST, q.stream, Body(q));
    OpenSigned(REQUEST, q.stream, Body(q), binding, direction, number, keyId, key);
    BodyParses(q);
  }

  // ---- Exactly when ------------------------------------------------------------------------------------------

  lemma TextTreesRoundTrip(ts: seq<Tree>)
    requires forall i :: 0 <= i < |ts| ==> Fits(Text(2), ts[i])
    ensures TextTrees(TextsFrom(ts)) == ts
    ensures forall i :: 0 <= i < |ts| ==> |TextsFrom(ts)[i]| < 0x1_0000
  {
    hide Power256;
    Powers();
  }

  lemma ExtraTreesRoundTrip(ts: seq<Tree>)
    requires forall i :: 0 <= i < |ts| ==> Fits(Then(Text(2), Text(2)), ts[i])
    ensures ExtraTrees(ExtrasFrom(ts)) == ts
    ensures forall i :: 0 <= i < |ts| ==> |ExtrasFrom(ts)[i].0| < 0x1_0000 && |ExtrasFrom(ts)[i].1| < 0x1_0000
  {
    hide Power256;
    Powers();
  }

  lemma OptionsTreeRoundTrip(t: Tree)
    requires Fits(OptionsShape(), t)
    ensures TextsFit(OptionsFrom(t)) && OptionsTree(t.head.head.n, OptionsFrom(t)) == t
  {
    hide Power256, TextTrees, ExtraTrees, TextsFrom, ExtrasFrom, NumbersShape;
    Powers();
    TextTreesRoundTrip(t.tail.head.items);
    ExtraTreesRoundTrip(t.tail.tail.items);
  }

  lemma BaseLength(t: Tree)
    requires Fits(BaseShape(), t)
    ensures |Write(BaseShape(), t)| == 16 + |t.tail.head.bytes| + |t.tail.tail.head.bytes|
  {
    hide Power256, Little;
    var s3 := Then(Word(4), Then(Word(4), Word(1)));
    var u := t.tail.tail.tail;
    assert |Write(s3, u)| == 9;
    assert |Write(Then(Text(4), s3), t.tail.tail)| == 13 + |t.tail.tail.head.bytes|;
  }

  lemma OptionsLength(t: Tree)
    requires Fits(OptionsShape(), t)
    ensures |Write(OptionsShape(), t)| == 36 + |Write(ListsShape(), t.tail)|
  {
    hide Power256, Little, ListsShape;
    FixedWrites(NumbersShape(), t.head);
  }

  /** What decodes carries only texts that fit, and would be written in as many bytes as it was read from. */
  lemma ParsedFits(stream: StreamId, payload: Bytes)
    requires ParseBody(stream, payload).Some?
    ensures var q := ParseBody(stream, payload).value;
            |q.model| < 0x1_0000 && |q.payload| < 0x1_0000_0000 && TextsFit(q.options) && |Body(q)| == |payload|
  {
    hide Write, Read, Power256, OptionsShape;
    Powers();
    var q := ParseBody(stream, payload).value;
    var base, rest := Read(BaseShape(), payload).tree, Read(BaseShape(), payload).rest;
    WriteBack(BaseShape(), payload);
    BaseRoundTrip(q);
    BaseLength(base);
    BaseLength(BaseTree(q));
    if rest != [] {
      WriteBack(OptionsShape(), rest);
      var t := Read(OptionsShape(), rest).tree;
      OptionsTreeRoundTrip(t);
      SortKeepsOrdered(q.options.extras);
      OptionsRoundTrip(ALL_FLAGS, q.options);
      OptionsLength(t);
      OptionsLength(OptionsTree(ALL_FLAGS, q.options));
    }
  }

  lemma UnsortedTextsFit(o: Options)
    requires TextsFit(o.(extras := Sort(o.extras)))
    ensures TextsFit(o)
  {
    SortOrders(o.extras);
    forall i | 0 <= i < |o.extras| ensures |o.extras[i].0| < 0x1_0000 && |o.extras[i].1| < 0x1_0000 {
      assert o.extras[i] in multiset(Sort(o.extras));
    }
  }

  lemma BodyOfCanonical(q: Request)
    requires q.hasOptions ==> StrictlyAscending(Sort(q.options.extras))
    ensures Body(Canonical(q)) == Body(q)
  {
    hide Write;
    if q.hasOptions { SortKeepsOrdered(Sort(q.options.extras)); }
  }

  /** Decoding gives an encoded request back exactly when its texts fit their prefixes and its payload fits the
      frame. */
  lemma RoundTripsExactly(q: Request)
    requires Encode(q).Some?
    ensures Decode(Encode(q).value) == Some(Canonical(q)) <==> Encodable(q)
  {
    hide Body, ParseBody, Frame, Open, Sort;
    var frame := Encode(q).value;
    if Encodable(q) {
      RoundTrip(q, Binding(0, 0, 0, 0, 0), 0, 1, 0, [0]);
    } else if Decode(frame) == Some(Canonical(q)) {
      var o := Open(frame, REQUEST).value;
      ParsedFits(o.stream, o.payload);
      if q.hasOptions {
        SortKeepsOrdered(Sort(q.options.extras));
        UnsortedTextsFit(q.options);
      }
      assert Body(Canonical(q)) == Body(q) by { BodyOfCanonical(q); }
      if |Body(q)| >= 0x1_0000_0000 { OpenOverlong(REQUEST, q.stream, Body(q)); }
    }
  }
}
