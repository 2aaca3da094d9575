/** The byte buffer the encoders append to and the reader the decoders move through, and that they follow the
    layouts. */
module Buffers {

  import opened Basics
  import opened Wire

  // ---- Writing -----------------------------------------------------------------------------------------------

  class Buffer {
    var bytes: Bytes

    constructor ()
      ensures bytes == []
    {
      bytes := [];
    }

    method PutWord(n: nat, width: nat)
      modifies this
      ensures bytes == old(bytes) + Little(n, width)
    {
      var left := n;
      for i := 0 to width
        invariant bytes + Little(left, width - i) == old(bytes) + Little(n, width)
      {
        ghost var before, n0 := bytes, left;
        bytes := bytes + [left % 256];
        left := left / 256;
        assert bytes + Little(left, width - i - 1) == before + Little(n0, width - i);
      }
    }

    /** The length is cut to the prefix, and the text with it. */
    method PutText(text: Bytes, prefix: nat)
      modifies this
      ensures bytes == old(bytes) + Write(Text(prefix), Blob(text))
    {
      var length := Cut(|text|, prefix);
      PutWord(length, prefix);
      if length > 0 {
        bytes := bytes + text[..length];
      }
    }

    method PutRaw(raw: Bytes)
      modifies this
      ensures bytes == old(bytes) + raw
    {
      bytes := bytes + raw;
    }

    /** Any value, field by field and item by item. */
    method PutTree(s: Shape, t: Tree)
      modifies this
      ensures bytes == old(bytes) + Write(s, t)
      decreases s
    {
      hide Little, Cut;
      match s {
        case Empty =>
        case Word(w) => if t.Number? { PutWord(t.n, w); }
        case Raw(_) => if t.Blob? { PutRaw(t.bytes); }
        case Text(p) => if t.Blob? { PutText(t.bytes, p); }
        case List(c, item) =>
          if t.Items? {
            PutWord(|t.items|, c);
            for i := 0 to |t.items|
              invariant bytes + WriteAll(item, t.items[i..]) == old(bytes) +
                (Little(|t.items|, c) + WriteAll(item, t.items))
            {
              ghost var before := bytes;
              PutTree(item, t.items[i]);
              Regroup(WriteAll(item, t.items[i..]), Write(item, t.items[i]), WriteAll(item, t.items[i + 1..]), before);
            }
          }
        case Then(a, b) =>
          if t.Pair? {
            PutTree(a, t.head);
            PutTree(b, t.tail);
          }
      }
    }

    static lemma Regroup(all: Bytes, first: Bytes, rest: Bytes, before: Bytes)
      requires all == first + rest
      ensures before + all == before + first + rest
    {
    }
  }

  // ---- Reading -----------------------------------------------------------------------------------------------

  class BufferReader {
    const data: Bytes
    var offset: nat

    ghost predicate Valid()
      reads this
    {
      offset <= |data|
    }

    ghost function Rest(): Bytes
      requires Valid()
      reads this
    {
      data[offset..]
    }

    constructor (data: Bytes)
      ensures Valid() && Rest() == data
    {
      this.data, offset := data, 0;
    }

    predicate HasRemaining(count: nat)
      reads this
    {
      offset + count <= |data|
    }

    function Remaining(): nat
      requires Valid()
      reads this
      ensures Remaining() == |Rest()|
    {
      |data| - offset
    }

    method ReadWord(width: nat) returns (ok: bool, n: nat)
      requires Valid()
      modifies this
      ensures Valid() && Read(Word(width), old(Rest())) == if ok then Got(Number(n), Rest()) else Short
    {
      hide Power256;
      if !HasRemaining(width) { return false, 0; }
      ghost var word := data[offset..offset + width];
      n := 0;
      for i := 0 to width
        invariant offset == old(offset) && n == FromLittle(word[..i])
      {
        assert word[..i] + [data[offset + i]] == word[..i + 1];
        NextByte(word[..i], data[offset + i]);
        n := n + Power256(i) * data[offset + i];
      }
      assert Rest()[..width] == word == word[..width] && Rest()[width..] == data[offset + width..];
      offset := offset + width;
      ok := true;
    }

    method ReadRaw(size: nat) returns (ok: bool, raw: Bytes)
      requires Valid()
      modifies this
      ensures Valid() && Read(Raw(size), old(Rest())) == if ok then Got(Blob(raw), Rest()) else Short
    {
      if !HasRemaining(size) { return false, []; }
      raw := data[offset..offset + size];
      assert Rest()[..size] == raw && Rest()[size..] == data[offset + size..];
      offset := offset + size;
      ok := true;
    }

    method ReadText(prefix: nat) returns (ok: bool, text: Bytes)
      requires Valid()
      modifies this
      ensures Valid() && Read(Text(prefix), old(Rest())) == if ok then Got(Blob(text), Rest()) else Short
    {
      hide FromLittle;
      ghost var start := Rest();
      var length;
      ok, length := ReadWord(prefix);
      if !ok { return false, []; }
      assert Rest() == start[prefix..];
      if !HasRemaining(length) { return false, []; }
      text := data[offset..offset + length];
      assert start[prefix..prefix + length] == Rest()[..length] == text;
      assert start[prefix + length..] == Rest()[length..] == data[offset + length..];
      offset := offset + length;
    }

    /** A value of any shape, field by field and item by item. */
    method ReadTree(s: Shape) returns (ok: bool, t: Tree)
      requires Valid()
      modifies this
      ensures Valid() && Read(s, old(Rest())) == if ok then Got(t, Rest()) else Short
      decreases s, 0
    {
      hide FromLittle;
      t := Nothing;
      match s {
        case Empty => ok := true;
        case Word(w) =>
          var n;
          ok, n := ReadWord(w);
          t := Number(n);
        case Raw(k) =>
          var raw;
          ok, raw := ReadRaw(k);
          t := Blob(raw);
        case Text(p) =>
          var text;
          ok, text := ReadText(p);
          t := Blob(text);
        case List(c, item) =>
          var items;
          ok, items := ReadItems(c, item);
          t := Items(items);
        case Then(a, b) =>
          var head, tail;
          ok, head := ReadTree(a);
          if ok {
            ok, tail := ReadTree(b);
            t := Pair(head, tail);
          }
      }
    }

    method ReadItems(countWidth: nat, item: Shape) returns (ok: bool, items: seq<Tree>)
      requires Valid()
      modifies this
      ensures Valid()
      ensures Read(List(countWidth, item), old(Rest())) == if ok then Got(Items(items), Rest()) else Short
      decreases item, 1
    {
      hide FromLittle;
      var count;
      items := [];
      ok, count := ReadWord(countWidth);
      if !ok { return; }
      ghost var start := Rest();
      for i := 0 to count
        invariant Valid() && ReadAll(item, count, start) == Behind(items, ReadAll(item, count - i, Rest()))
      {
        var t;
        ok, t := ReadTree(item);
        if !ok { return; }
        BehindOne(items, t, ReadAll(item, count - i - 1, Rest()));
        items := items + [t];
      }
      assert items + [] == items;
    }
  }

  /** What a reading becomes with items read before it. */
  ghost function Behind(items: seq<Tree>, r: ListReading): ListReading {
    if r.ShortList? then r else GotList(items + r.trees, r.rest)
  }

  lemma BehindOne(items: seq<Tree>, t: Tree, r: ListReading)
    ensures Behind(items + [t], r) == Behind(items, if r.ShortList? then r else GotList([t] + r.trees, r.rest))
  {
    if r.GotList? { assert items + [t] + r.trees == items + ([t] + r.trees); }
  }

  lemma {:induction false} NextByte(low: Bytes, high: U8)
    ensures 0 <= Power256(|low|) * high && FromLittle(low + [high]) == FromLittle(low) + Power256(|low|) * high
  {
    if low == [] {
      assert low + [high] == [high] && FromLittle([high]) == high + 256 * FromLittle([]);
    } else {
      NextByte(low[1..], high);
      assert (low + [high])[1..] == low[1..] + [high];
      Shift(low[0], FromLittle(low[1..]), Power256(|low| - 1), high);
    }
  }

  lemma Shift(byte: nat, low: nat, power: nat, high: nat)
    ensures byte + 256 * (low + power * high) == byte + 256 * low + (256 * power) * high
    ensures 0 <= (256 * power) * high
  {
  }
}
