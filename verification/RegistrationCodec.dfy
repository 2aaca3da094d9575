/** Registrations in place: fields appended to a buffer one by one, and parsed in one pass. */
module RegistrationCodec {

  import opened Basics
  import opened Wire
  import opened Frames
  import opened Buffers
  import opened Registration
  import opened RegistrationValidity
  import C = Codecs
  import Capabilities

  // ---- Writing -----------------------------------------------------------------------------------------------

  method PutField(f: Field, out: Buffer)
    modifies out
    ensures out.bytes == old(out.bytes) + FieldBytes(f)
  {
    hide Little;
    out.PutWord(f.tag, 2);
    out.PutWord(|f.value|, 4);
    out.PutRaw(f.value);
  }

  /** What is written of fields, one more at a time. */
  lemma {:induction false} WritesOneMore(fs: seq<Field>, f: Field)
    ensures WriteFields(fs + [f]) == WriteFields(fs) + FieldBytes(f)
  {
    hide FieldBytes;
    if fs == [] {
      assert fs + [f] == [f] && [f][1..] == [];
    } else {
      assert (fs + [f])[1..] == fs[1..] + [f];
      WritesOneMore(fs[1..], f);
    }
  }

  lemma {:induction false} WritesGrow(fs: seq<Field>, more: seq<Field>)
    ensures |WriteFields(fs)| <= |WriteFields(fs + more)|
    decreases |more|
  {
    hide WriteFields, FieldBytes;
    if more == [] {
      assert fs + more == fs;
    } else {
      WritesOneMore(fs, more[0]);
      assert fs + [more[0]] + more[1..] == fs + more;
      WritesGrow(fs + [more[0]], more[1..]);
    }
  }

  /** The fields are appended one by one, and the size is looked at after every extension. */
  method EncodeRegistration(e: Envelope) returns (frame: Option<Bytes>)
    ensures frame == Encode(e)
  {
    hide Valid, WriteFields, FieldBytes, Capabilities.Encode, Little, Frame;
    var valid := CheckEnvelope(e);
    if !valid { return None; }
    var out := new Buffer();
    out.PutRaw([1, 0, e.operation, 0]);
    PutCore(e, out);
    assert out.bytes == [1, 0, e.operation, 0] + WriteFields(CoreFields(e));
    var ok := PutExtensions(e, out);
    if !ok { return None; }
    if |out.bytes| > MAX_BYTES { return None; }
    var bytes := C.BuildFrame(RUNTIME_REGISTER, NO_STREAM, out.bytes);
    frame := Some(bytes);
  }

  method PutCore(e: Envelope, out: Buffer)
    modifies out
    ensures out.bytes == old(out.bytes) + WriteFields(CoreFields(e))
  {
    hide FieldBytes, Capabilities.Encode, Little;
    ghost var was := out.bytes;
    ghost var put: seq<Field> := [];
    assert was + WriteFields(put) == was;
    if e.operation == REGISTER || e.operation == CAPACITY_UPDATE {
      var slots := new Buffer();
      slots.PutWord(e.slots, 4);
      assert slots.bytes == Little(e.slots, 4);
      PutOne(was, put, Field(1, slots.bytes), out);
      put := put + [Field(1, Little(e.slots, 4))];
    }
    if e.operation == RESULT {
      var status := new Buffer();
      status.PutWord(e.status, 4);
      assert status.bytes == Little(e.status, 4);
      PutOne(was, put, Field(2, status.bytes), out);
      put := put + [Field(2, Little(e.status, 4))];
      PutOne(was, put, Field(3, e.reason), out);
      put := put + [Field(3, e.reason)];
    }
    if e.operation == REGISTER {
      var nested := C.EncodeCapabilities(e.capabilities);
      PutOne(was, put, Field(4, nested), out);
      put := put + [Field(4, nested)];
    }
    assert put == CoreFields(e);
  }

  method PutOne(ghost was: Bytes, ghost put: seq<Field>, f: Field, out: Buffer)
    requires out.bytes == was + WriteFields(put)
    modifies out
    ensures out.bytes == was + WriteFields(put + [f])
  {
    hide FieldBytes, WriteFields;
    PutField(f, out);
    WritesOneMore(put, f);
  }

  method PutExtensions(e: Envelope, out: Buffer) returns (ok: bool)
    requires out.bytes == [1, 0, e.operation, 0] + WriteFields(CoreFields(e))
    modifies out
    ensures ok ==> ValidExtensions(e.extensions) && out.bytes == Body(e)
    ensures !ok ==> !ValidExtensions(e.extensions) || |Body(e)| > MAX_BYTES
  {
    hide WriteFields, FieldBytes, CoreFields;
    ghost var head, core := [1, 0, e.operation, 0], CoreFields(e);
    var previous: U16 := 0x7fff;
    assert core + e.extensions[..0] == core;
    for i := 0 to |e.extensions|
      invariant out.bytes == head + WriteFields(core + e.extensions[..i])
      invariant previous == if i == 0 then 0x7fff else e.extensions[i - 1].tag
      invariant ValidExtensions(e.extensions[..i])
    {
      var x := e.extensions[i];
      if x.tag <= previous || |x.value| > MAX_BYTES {
        return false;
      }
      previous := x.tag;
      PutOne(head, core + e.extensions[..i], x, out);
      assert core + e.extensions[..i] + [x] == core + e.extensions[..i + 1];
      if |out.bytes| > MAX_BYTES {
        WritesGrow(core + e.extensions[..i + 1], e.extensions[i + 1..]);
        assert core + e.extensions[..i + 1] + e.extensions[i + 1..] == core + e.extensions;
        return false;
      }
    }
    assert e.extensions[..|e.extensions|] == e.extensions;
    ok := true;
  }

  method ReadWholeFrame(data: Bytes) returns (h: Option<Header>)
    ensures h.Some? <==> WholeFrame(data)
    ensures h.Some? ==> h == DecodeHeader(data)
  {
    hide DecodeHeader;
    h := C.ReadHeader(data);
    if h.None? { return; }
    var header := h.value;
    if header.magic != MAGIC || header.major != 0 || header.minor != 2 || header.flags > 1 { return None; }
    var start := HEADER_SIZE + if header.Authenticated() then EXTENSION_SIZE else 0;
    if header.payloadLen > MAX_PAYLOAD || |data| != start + header.payloadLen { return None; }
  }

  // ---- The registration parse loop ---------------------------------------------------------------------------

  lemma {:induction false} TakesOneMore(e: Envelope, fs: seq<Field>, f: Field)
    requires TakeAll(e, fs).Some?
    ensures TakeAll(e, fs + [f]) == Take(TakeAll(e, fs).value, f)
    decreases |fs|
  {
    hide Take;
    if fs == [] {
      assert fs + [f] == [f] && [f][1..] == [];
    } else {
      assert (fs + [f])[1..] == fs[1..] + [f];
      TakesOneMore(Take(e, fs[0]).value, fs[1..], f);
    }
  }

  /** Fields that are not taken are not taken with more behind them. */
  lemma {:induction false} RefusedForGood(e: Envelope, fs: seq<Field>, more: seq<Field>)
    requires TakeAll(e, fs).None?
    ensures TakeAll(e, fs + more).None?
    decreases |fs|
  {
    hide Take;
    assert fs != [];
    assert (fs + more)[0] == fs[0] && (fs + more)[1..] == fs[1..] + more;
    if Take(e, fs[0]).Some? { RefusedForGood(Take(e, fs[0]).value, fs[1..], more); }
  }

  /** Parsing goes on behind the fields already found. */
  ghost function Continued(fs: seq<Field>, rest: Option<seq<Field>>): Option<seq<Field>> {
    if rest.None? then None else Some(fs + rest.value)
  }

  lemma OutOfOrderForGood(fs: seq<Field>, f: Field, more: seq<Field>)
    requires f.tag <= if fs == [] then 0 else fs[|fs| - 1].tag
    ensures !Ascending(fs + ([f] + more))
  {
    var all := fs + ([f] + more);
    assert all[|fs|] == f && (fs != [] ==> all[|fs| - 1] == fs[|fs| - 1]);
  }

  lemma TagReads(b: Bytes)
    ensures Read(FieldShape(), b) ==
            if |b| < 2 then Short
            else match Read(Text(4), b[2..])
                 case Short => Short
                 case Got(t, rest) => Got(Pair(Number(FromLittle(b[..2])), t), rest)
  {
    hide FromLittle;
  }

  lemma ValueReads(b: Bytes)
    ensures Read(Text(4), b) ==
            if |b| < 4 || |b| - 4 < FromLittle(b[..4]) then Short
            else Got(Blob(b[4..4 + FromLittle(b[..4])]), b[4 + FromLittle(b[..4])..])
  {
    hide FromLittle;
  }

  lemma FieldOrShort(b: Bytes)
    ensures Read(FieldShape(), b) ==
            if |b| < 6 || |b| - 6 < FromLittle(b[2..6]) then Short
            else Got(Pair(Number(FromLittle(b[..2])), Blob(b[6..6 + FromLittle(b[2..6])])),
                     b[6 + FromLittle(b[2..6])..])
  {
    hide FromLittle, Read, FieldShape;
    TagReads(b);
    if |b| >= 2 {
      var rest := b[2..];
      ValueReads(rest);
      if |rest| >= 4 {
        assert rest[..4] == b[2..6];
        var n := FromLittle(b[2..6]);
        if |b| - 6 >= n { assert rest[4..4 + n] == b[6..6 + n] && rest[4 + n..] == b[6 + n..]; }
      }
    }
  }

  /** One pass over the fields: order, lengths, meaning and the set of known tags are all checked as they come. */
  method DecodeFields(body: Bytes) returns (e: Option<Envelope>)
    requires |body| >= 4 && body[0] == 1 && body[1] == 0 && body[3] == 0
    ensures e == ParseBody(body)
  {
    hide Take, TakeAll, ParseFields, Ascending, Seen, Expected, Valid, WholeConnectionFrame, FromLittle, Read, Write;
    ghost var fields := ParseFields(body[4..]);
    ghost var done: seq<Field> := [];
    var envelope := Fresh(body[2]);
    var pos, previous: U16, seen: set<U16> := 4, 0, {};
    assert fields == Continued(done, ParseFields(body[pos..])) by { NothingDone(fields); }
    NothingTaken(envelope);
    while pos < |body|
      invariant 4 <= pos <= |body| && fields == Continued(done, ParseFields(body[pos..]))
      invariant TakeAll(Fresh(body[2]), done) == Some(envelope) && envelope.operation == body[2]
      invariant Ascending(done) && previous == (if done == [] then 0 else done[|done| - 1].tag) && seen == Seen(done)
      decreases |body| - pos
    {
      ghost var rest := body[pos..];
      var f: Field;
      var found := FieldAt(body, pos);
      NextField(rest);
      if found.None? {
        return None;
      }
      f := found.value;
      ghost var next := ParseFields(rest[6 + |f.value|..]);
      assert body[pos + 6 + |f.value|..] == rest[6 + |f.value|..];
      assert fields == Continued(done + [f], next) by { Step(done, f, next); }
      if f.tag <= previous {
        if next.Some? {
          OutOfOrderForGood(done, f, next.value);
          assert done + [f] + next.value == done + ([f] + next.value);
        }
        return None;
      }
      previous := f.tag;
      TakesOneMore(Fresh(body[2]), done, f);
      var taken := TakeField(envelope, f);
      if taken.None? {
        if next.Some? { RefusedForGood(Fresh(body[2]), done + [f], next.value); }
        return None;
      }
      TakeKeepsRest(envelope, f);
      envelope := taken.value;
      if f.tag <= 4 { seen := seen + {f.tag}; }
      InOrder(done, f);
      done := done + [f];
      pos := pos + 6 + |f.value|;
    }
    NothingLeft(body);
    assert done + [] == done;
    var valid := CheckEnvelope(envelope);
    if seen != Expected(envelope.operation) || !valid { return None; }
    e := Some(envelope);
  }

  lemma NothingDone(fields: Option<seq<Field>>)
    ensures Continued([], fields) == fields
  {
    if fields.Some? { assert [] + fields.value == fields.value; }
  }

  lemma NothingTaken(e: Envelope)
    ensures TakeAll(e, []) == Some(e) && Ascending([]) && Seen([]) == {}
  {
  }

  lemma NothingLeft(body: Bytes)
    ensures body[|body|..] == [] && ParseFields([]) == Some([])
  {
  }

  lemma Step(done: seq<Field>, f: Field, next: Option<seq<Field>>)
    ensures Continued(done, if next.None? then None else Some([f] + next.value)) == Continued(done + [f], next)
  {
    if next.Some? { assert done + [f] + next.value == done + ([f] + next.value); }
  }

  lemma InOrder(done: seq<Field>, f: Field)
    requires Ascending(done) && f.tag > (if done == [] then 0 else done[|done| - 1].tag)
    ensures Ascending(done + [f])
    ensures Seen(done + [f]) == Seen(done) + if f.tag <= 4 then {f.tag} else {}
  {
    var all := done + [f];
    assert all[|done|] == f;
    forall t | t in Seen(done) ensures t in Seen(all) {
      var i :| 0 <= i < |done| && done[i].tag <= 4 && done[i].tag == t;
      assert all[i].tag == t;
    }
    if f.tag <= 4 { assert all[|done|].tag in Seen(all); }
  }

  lemma TakeKeepsRest(e: Envelope, f: Field)
    ensures Take(e, f).Some? ==> Take(e, f).value.operation == e.operation
  {
    hide WholeConnectionFrame, Capabilities.Encode, Capabilities.Decode, FromLittle;
  }

  /** The field at the start of the bytes, and what parsing makes of them because of it. */
  ghost function FirstField(b: Bytes): Option<Field> {
    if |b| < 6 || |b| - 6 < FromLittle(b[2..6]) then None
    else
      FromLittleRoundTrip(b[..2]);
      Powers();
      Some(Field(FromLittle(b[..2]), b[6..6 + FromLittle(b[2..6])]))
  }

  lemma NextField(b: Bytes)
    requires b != []
    ensures ParseFields(b) ==
            if FirstField(b).None? then None
            else
              var next := ParseFields(b[6 + |FirstField(b).value.value|..]);
              if next.None? then None else Some([FirstField(b).value] + next.value)
    ensures FirstField(b).Some? ==> 6 + |FirstField(b).value.value| <= |b|
  {
    hide FromLittle, Read, Write;
    FieldOrShort(b);
    if FirstField(b).Some? { WriteBack(FieldShape(), b); }
  }

  method FieldAt(body: Bytes, pos: nat) returns (f: Option<Field>)
    requires pos < |body|
    ensures f == FirstField(body[pos..])
  {
    hide FromLittle, Read;
    if |body| - pos < 6 { return None; }
    var r := new BufferReader(body[pos..]);
    var ok, tag := r.ReadWord(2);
    var length;
    WordReads(body[pos..], 2);
    WordReads(body[pos + 2..], 4);
    assert body[pos..][2..] == body[pos + 2..] && body[pos..][2..6] == body[pos + 2..][..4];
    ok, length := r.ReadWord(4);
    if length > |body| - pos - 6 { return None; }
    FromLittleRoundTrip(body[pos..][..2]);
    Powers();
    f := Some(Field(tag, body[pos + 6..pos + 6 + length]));
    assert body[pos..][6..6 + length] == body[pos + 6..pos + 6 + length];
  }

  lemma WordReads(b: Bytes, width: nat)
    requires |b| >= width
    ensures Read(Word(width), b) == Got(Number(FromLittle(b[..width])), b[width..])
  {
  }

  method TakeField(e: Envelope, f: Field) returns (r: Option<Envelope>)
    ensures r == Take(e, f)
  {
    hide FromLittle, Capabilities.Encode, Capabilities.Decode, Read;
    if f.tag == 1 || f.tag == 2 {
      if |f.value| != 4 { return None; }
      var word := new BufferReader(f.value);
      WordReads(f.value, 4);
      var ok, n := word.ReadWord(4);
      assert f.value[..4] == f.value;
      FromLittleRoundTrip(f.value);
      Powers();
      if f.tag == 1 { return Some(e.(slots := n)); }
      return Some(e.(status := n));
    }
    if f.tag == 3 {
      if |f.value| > MAX_REASON { return None; }
      return Some(e.(reason := f.value));
    }
    if f.tag == 4 {
      var h := ReadWholeFrame(f.value);
      if h.None? { return None; }
      if h.value.flags != 0 || h.value.request != 0 || h.value.execution != 0 || h.value.output != 0 { return None; }
      var d := C.DecodeCapabilities(f.value);
      if d.None? { return None; }
      var canonical := C.EncodeCapabilities(d.value);
      if canonical != f.value { return None; }
      return Some(e.(capabilities := d.value));
    }
    if f.tag < FIRST_EXTENSION { return None; }
    return Some(e.(extensions := e.extensions + [f]));
  }

  method DecodeRegistration(data: Bytes) returns (e: Option<Envelope>)
    ensures e == Decode(data)
  {
    hide DecodeHeader, ParseBody, WholeFrame;
    var header := ReadWholeFrame(data);
    if header.None? { return None; }
    var h := header.value;
    if h.kind != RUNTIME_REGISTER || h.request != 0 || h.execution != 0 || h.output != 0 { return None; }
    if h.payloadLen < 4 || h.payloadLen > MAX_BYTES { return None; }
    WholeFrameLength(data);
    var body := data[HEADER_SIZE + (if h.Authenticated() then EXTENSION_SIZE else 0)..];
    if body[0] != 1 || body[1] != 0 || body[3] != 0 {
      WrongStart(body);
      return None;
    }
    e := DecodeFields(body);
  }

  lemma WholeFrameLength(data: Bytes)
    requires WholeFrame(data)
    ensures |data| == Overhead(DecodeHeader(data).value) + DecodeHeader(data).value.payloadLen
  {
    hide DecodeHeader;
  }

  lemma WrongStart(body: Bytes)
    requires |body| >= 4 && (body[0] != 1 || body[1] != 0 || body[3] != 0)
    ensures ParseBody(body) == None
  {
    hide ParseFields, TakeAll;
  }
}
