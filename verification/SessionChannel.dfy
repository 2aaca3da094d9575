/** One direction of an authenticated connection, over every bind of both ends: what the receiver accepts against
    what was signed, and when an earlier numbering under the same binding can be heard again. */
module SessionChannel {

  import opened Basics
  import opened Frames
  import opened SessionAuth

  // ---- State -------------------------------------------------------------------------------------------------

  /** A signed frame, with the key it was signed with. */
  datatype SignedFrame = SignedFrame(data: Bytes, key: Key)

  /** What was signed from one start of the numbering to the next, under one binding: number 1 comes first. */
  datatype Numbering = Numbering(binding: Binding, frames: seq<SignedFrame>)

  /** What the receiver accepted from one start of its numbering to the next: number 2 comes first. */
  datatype Heard = Heard(binding: Binding, frames: seq<Bytes>)

  /** Something signed in the other direction, under whatever binding. */
  datatype ForeignFrame = ForeignFrame(header: Header, number: U32, keyId: U16, binding: Binding, direction: U8,
                                       payload: Bytes)

  /** The two ends and, as a record of the past, everything signed in this direction: by the sender in the numbering
      `own`, and in the others by the sender before or by anyone else. */
  datatype Channel = Channel(
    sends: Config, receives: Config, direction: U8,
    sender: Auth, receiver: Auth,
    signed: seq<Numbering>, own: nat, accepted: seq<Heard>, foreign: set<ForeignFrame>)

  datatype Action =
    | SendFrame(buffer: Bytes, any: U16)
    | Arrive(data: Bytes)
    | AtSender(event: Event)
    | AtReceiver(event: Event)
    | Elsewhere(numbering: Numbering)

  // ---- Steps -------------------------------------------------------------------------------------------------

  /** Whether a frame verifies under the one key the receiver would check it with. */
  predicate Passes(ch: Channel, binding: Binding, data: Bytes) {
    && KnownKey(ch.receives, KeyOf(data))
    && Verify(data, binding, ch.direction, ch.receives.keys[KeyOf(data)]).Some?
  }

  predicate SignedAs(ch: Channel, t: nat, i: nat, key: Key, input: Bytes) {
    && t < |ch.signed| && i < |ch.signed[t].frames|
    && Verify(ch.signed[t].frames[i].data, ch.signed[t].binding, ch.direction, key).Some?
    && InputOf(ch.signed[t].frames[i].data, ch.signed[t].binding, ch.direction) == input
  }

  /** The input of a frame is that of something that was signed: in this direction, with a code that holds under
      this key too, or in the other one. */
  ghost predicate Unforged(ch: Channel, data: Bytes, key: Key)
    requires Verify(data, ch.receiver.bind.binding, ch.direction, key).Some?
  {
    var input := InputOf(data, ch.receiver.bind.binding, ch.direction);
    || (exists t, i :: SignedAs(ch, t, i, key, input))
    || (exists f :: f in ch.foreign &&
          MacInput(f.header, f.number, f.keyId, f.binding, f.direction, f.payload) == input)
  }

  /** The i-th frame of a numbering carries number i + 1, and the last number of all is never used. */
  predicate NumberingOk(direction: U8, n: Numbering) {
    && |n.frames| < LAST_NUMBER
    && forall i :: 0 <= i < |n.frames| ==> FrameOk(direction, n, i)
  }

  predicate FrameOk(direction: U8, n: Numbering, i: nat)
    requires i < |n.frames|
  {
    var v := Verify(n.frames[i].data, n.binding, direction, n.frames[i].key);
    v.Some? && v.value.number == i + 1
  }

  /** The code cannot be made without the key: any bytes may arrive, but those that pass were signed. */
  ghost predicate Enabled(ch: Channel, act: Action) {
    match act
    case Arrive(data) =>
      ch.receiver.active && Passes(ch, ch.receiver.bind.binding, data) ==>
        Unforged(ch, data, ch.receives.keys[KeyOf(data)])
    case Elsewhere(n) => NumberingOk(ch.direction, n)
    case _ => true
  }

  /** Whether a move of one end starts its numbering over. */
  predicate Restarts(c: Config, a: Auth, e: Event) {
    e.Binds? && e.bind.sl1 && Step(c, a, e).generation != a.generation
  }

  function AddSigned(signed: seq<Numbering>, own: nat, frame: SignedFrame): seq<Numbering> {
    if own < |signed| then signed[own := Numbering(signed[own].binding, signed[own].frames + [frame])] else signed
  }

  function AddHeard(accepted: seq<Heard>, data: Bytes): seq<Heard> {
    if accepted == [] then []
    else
      var last := |accepted| - 1;
      accepted[last := Heard(accepted[last].binding, accepted[last].frames + [data])]
  }

  function Act(ch: Channel, act: Action): Channel {
    match act
    case SendFrame(buffer, any) =>
      var (a, data, answer) := SignOutbound(ch.sends, ch.sender, buffer, ch.direction, any);
      if answer.Done? && ch.sender.active then
        var frame := SignedFrame(data, ch.sends.keys[SigningKey(ch.sends, any).value]);
        ch.(sender := a, signed := AddSigned(ch.signed, ch.own, frame))
      else ch.(sender := a)
    case Arrive(data) =>
      var (a, answer) := VerifyInbound(ch.receives, ch.receiver, data, ch.direction);
      if answer.Done? && ch.receiver.active && KindOf(data) != SESSION_BIND then
        ch.(receiver := a, accepted := AddHeard(ch.accepted, data))
      else ch.(receiver := a)
    case AtSender(e) =>
      var moved := ch.(sender := Step(ch.sends, ch.sender, e));
      if Restarts(ch.sends, ch.sender, e) then
        moved.(signed := ch.signed + [Numbering(e.bind.binding, [])], own := |ch.signed|)
      else moved
    case AtReceiver(e) =>
      var moved := ch.(receiver := Step(ch.receives, ch.receiver, e));
      if Restarts(ch.receives, ch.receiver, e) then
        moved.(accepted := ch.accepted + [Heard(e.bind.binding, [])])
      else moved
    case Elsewhere(n) => ch.(signed := ch.signed + [n])
  }

  predicate NumberingsOk(ch: Channel) {
    forall t :: 0 <= t < |ch.signed| ==> NumberingOk(ch.direction, ch.signed[t])
  }

  predicate OtherWay(ch: Channel) {
    forall f :: f in ch.foreign ==> f.direction != ch.direction
  }

  /** A new connection: nothing is bound yet, but earlier connections may have signed frames under any binding. */
  ghost predicate Start(ch: Channel) {
    && ch.sender == NEW_AUTH && ch.receiver == NEW_AUTH && ch.accepted == []
    && NumberingsOk(ch) && OtherWay(ch)
  }

  ghost predicate Run(ch: Channel, acts: seq<Action>, end: Channel)
    decreases |acts|
  {
    if acts == [] then end == ch else Enabled(ch, acts[0]) && Run(Act(ch, acts[0]), acts[1..], end)
  }

  // ---- The invariant -----------------------------------------------------------------------------------------

  /** A numbering holds, under this number, a frame the receiver can accept under this binding. */
  predicate Acceptable(ch: Channel, binding: Binding, t: nat, number: nat) {
    && t < |ch.signed| && 1 < number <= |ch.signed[t].frames| && ch.signed[t].binding == binding
    && var data := ch.signed[t].frames[number - 1].data;
       Passes(ch, binding, data) && KindOf(data) != SESSION_BIND
  }

  predicate IsFrame(ch: Channel, binding: Binding, t: nat, number: nat, data: Bytes) {
    Acceptable(ch, binding, t, number) && ch.signed[t].frames[number - 1].data == data
  }

  ghost predicate WasSigned(ch: Channel, binding: Binding, number: nat, data: Bytes) {
    exists t :: IsFrame(ch, binding, t, number, data)
  }

  /** Each frame accepted is one that was signed under this binding, in this direction and with this number. */
  ghost predicate HeardOk(ch: Channel, h: Heard) {
    forall i :: 0 <= i < |h.frames| ==> WasSigned(ch, h.binding, i + 2, h.frames[i])
  }

  ghost predicate AllHeard(ch: Channel, accepted: seq<Heard>) {
    forall k :: 0 <= k < |accepted| ==> HeardOk(ch, accepted[k])
  }

  predicate SenderOk(ch: Channel) {
    ch.sender.active ==>
      && ch.own < |ch.signed| && ch.signed[ch.own].binding == ch.sender.bind.binding
      && ch.sender.outbound == |ch.signed[ch.own].frames| + 1
  }

  function Last(ch: Channel): Heard {
    if ch.accepted == [] then Heard(NO_BIND.binding, []) else ch.accepted[|ch.accepted| - 1]
  }

  predicate ReceiverOk(ch: Channel) {
    ch.receiver.active ==>
      && ch.accepted != [] && Last(ch).binding == ch.receiver.bind.binding
      && ch.receiver.inbound == |Last(ch).frames| + 2
  }

  ghost predicate Inv(ch: Channel) {
    && SenderOk(ch) && ReceiverOk(ch)
    && NumberingsOk(ch) && AllHeard(ch, ch.accepted) && OtherWay(ch)
  }

  /** Nothing signed is ever taken back. */
  predicate Grows(ch: Channel, ch': Channel) {
    && ch'.sends == ch.sends && ch'.receives == ch.receives && ch'.direction == ch.direction
    && ch'.foreign == ch.foreign && |ch.signed| <= |ch'.signed|
    && forall t :: 0 <= t < |ch.signed| ==> Extends(ch.signed[t], ch'.signed[t])
  }

  predicate Extends(n: Numbering, n': Numbering) {
    n'.binding == n.binding && n.frames <= n'.frames
  }

  lemma ActGrows(ch: Channel, act: Action)
    ensures Grows(ch, Act(ch, act))
  {
    hide SignOutbound, VerifyInbound, Step, KindOf, Restarts;
  }

  lemma SignedIsKept(ch: Channel, ch': Channel, binding: Binding, number: nat, data: Bytes)
    requires Grows(ch, ch') && WasSigned(ch, binding, number, data)
    ensures WasSigned(ch', binding, number, data)
  {
    hide Verify, KeyOf, KindOf, KnownKey;
    var t: nat :| IsFrame(ch, binding, t, number, data);
    assert Extends(ch.signed[t], ch'.signed[t]);
    assert IsFrame(ch', binding, t, number, data);
  }

  lemma GrowsKeepsHeard(ch: Channel, ch': Channel, h: Heard)
    requires Grows(ch, ch') && HeardOk(ch, h)
    ensures HeardOk(ch', h)
  {
    hide WasSigned, Grows;
    forall i | 0 <= i < |h.frames| ensures WasSigned(ch', h.binding, i + 2, h.frames[i]) {
      SignedIsKept(ch, ch', h.binding, i + 2, h.frames[i]);
    }
  }

  // ---- One frame ---------------------------------------------------------------------------------------------

  /** The number in the extension, 0 where there is none. */
  function NumberOf(data: Bytes): U32 {
    if |data| < HEADER_SIZE || DecodeExtension(data[HEADER_SIZE..]).None? then 0
    else DecodeExtension(data[HEADER_SIZE..]).value.number
  }

  lemma VerifiedNumber(data: Bytes, binding: Binding, direction: U8, key: Key)
    requires Verify(data, binding, direction, key).Some?
    ensures Verify(data, binding, direction, key).value.number == NumberOf(data)
  {
    hide MacInput, Mac, DecodeExtension, DecodeHeader;
  }

  /** The check of an arriving frame, in these terms. */
  lemma AcceptedPasses(c: Config, a: Auth, data: Bytes, ch: Channel)
    requires a == ch.receiver && c == ch.receives && a.active && KindOf(data) != SESSION_BIND
    ensures VerifyInbound(c, a, data, ch.direction).1.Done? <==>
            Passes(ch, a.bind.binding, data) && NumberOf(data) == a.inbound
  {
    hide MacInput, Mac, DecodeExtension, DecodeHeader, KnownKey;
  }

  /** Nothing signed in the other direction has the input of a frame of this one. */
  lemma ForeignDiffers(ch: Channel, data: Bytes, binding: Binding, key: Key, f: ForeignFrame)
    requires Verify(data, binding, ch.direction, key).Some? && f.direction != ch.direction
    ensures MacInput(f.header, f.number, f.keyId, f.binding, f.direction, f.payload) !=
            InputOf(data, binding, ch.direction)
  {
    hide MacInput, Mac, DecodeExtension, DecodeHeader;
    var e := DecodeExtension(data[HEADER_SIZE..]).value;
    if MacInput(f.header, f.number, f.keyId, f.binding, f.direction, f.payload) ==
       InputOf(data, binding, ch.direction)
    {
      MacInputIsInjective(f.header, f.number, f.keyId, f.binding, f.direction, f.payload, DecodeHeader(data).value,
                          e.number, e.keyId, binding, ch.direction, data[HEADER_SIZE + EXTENSION_SIZE..]);
    }
  }

  /** A frame that passes is one of those signed under the receiver's binding, in the place its number says. */
  lemma PassingWasSigned(ch: Channel, data: Bytes) returns (t: nat, i: nat)
    requires Inv(ch) && Enabled(ch, Arrive(data)) && ch.receiver.active
    requires Passes(ch, ch.receiver.bind.binding, data)
    ensures t < |ch.signed| && i < |ch.signed[t].frames| && ch.signed[t].binding == ch.receiver.bind.binding
    ensures ch.signed[t].frames[i].data == data && NumberOf(data) == i + 1
  {
    hide MacInput, Mac, EncodeHeader, DecodeExtension, DecodeHeader, InputOf, KeyOf, HeardOk, NumberOf;
    var key, binding := ch.receives.keys[KeyOf(data)], ch.receiver.bind.binding;
    forall f | f in ch.foreign
      ensures MacInput(f.header, f.number, f.keyId, f.binding, f.direction, f.payload) !=
              InputOf(data, binding, ch.direction)
    {
      ForeignDiffers(ch, data, binding, key, f);
    }
    t, i :| SignedAs(ch, t, i, key, InputOf(data, binding, ch.direction));
    var n := ch.signed[t];
    InputDeterminesFrame(data, binding, ch.direction, n.frames[i].data, n.binding, ch.direction, key);
    assert FrameOk(ch.direction, n, i);
    VerifiedNumber(data, binding, ch.direction, n.frames[i].key);
  }

  /** Exactly these are accepted: frames signed under the binding in force at the receiver, in this direction, with
      the number it waits for and a key it knows - whichever numbering they belong to. */
  lemma AcceptedExactly(ch: Channel, data: Bytes)
    requires Inv(ch) && Enabled(ch, Arrive(data)) && ch.receiver.active && KindOf(data) != SESSION_BIND
    ensures VerifyInbound(ch.receives, ch.receiver, data, ch.direction).1.Done? <==>
            WasSigned(ch, ch.receiver.bind.binding, ch.receiver.inbound, data)
  {
    hide VerifyInbound, Verify, KnownKey, KeyOf, KindOf, HeardOk, Enabled, NumberOf;
    AcceptedPasses(ch.receives, ch.receiver, data, ch);
    var binding := ch.receiver.bind.binding;
    if Passes(ch, binding, data) {
      var t, i := PassingWasSigned(ch, data);
      assert i > 0 ==> IsFrame(ch, binding, t, i + 1, data);
    }
    if WasSigned(ch, binding, ch.receiver.inbound, data) {
      var t: nat :| IsFrame(ch, binding, t, ch.receiver.inbound, data);
      var i := ch.receiver.inbound - 1;
      assert NumberingOk(ch.direction, ch.signed[t]) && FrameOk(ch.direction, ch.signed[t], i);
      VerifiedNumber(data, binding, ch.direction, ch.signed[t].frames[i].key);
    }
  }
  // ---- Every run ---------------------------------------------------------------------------------------------

  lemma AllStayHeard(ch: Channel, act: Action)
    requires AllHeard(ch, ch.accepted)
    ensures AllHeard(Act(ch, act), ch.accepted)
  {
    hide HeardOk, Act, Grows;
    ActGrows(ch, act);
    forall k | 0 <= k < |ch.accepted| ensures HeardOk(Act(ch, act), ch.accepted[k]) {
      GrowsKeepsHeard(ch, Act(ch, act), ch.accepted[k]);
    }
  }

  lemma SendAppends(ch: Channel, buffer: Bytes, any: U16)
    requires SenderOk(ch)
    ensures var ch' := Act(ch, SendFrame(buffer, any));
            || ch' == ch
            || (exists frame ::
                 && ch' == ch.(sender := ch.sender.(outbound := ch.sender.outbound + 1),
                               signed := AddSigned(ch.signed, ch.own, frame))
                 && ch.sender.active && ch.sender.outbound < LAST_NUMBER && Carries(ch, frame))
  {
    hide Verify, Sign, AddSigned;
    var (a, data, answer) := SignOutbound(ch.sends, ch.sender, buffer, ch.direction, any);
    if answer.Done? && ch.sender.active {
      var keyId := SigningKey(ch.sends, any).value;
      SignedFrameVerifies(buffer, ch.sender.bind.binding, ch.direction, ch.sender.outbound, keyId,
                          ch.sends.keys[keyId]);
      assert Carries(ch, SignedFrame(data, ch.sends.keys[keyId]));
    }
  }

  /** A frame the sender just signed: it verifies and carries the sender's number. */
  predicate Carries(ch: Channel, frame: SignedFrame) {
    var v := Verify(frame.data, ch.sender.bind.binding, ch.direction, frame.key);
    v.Some? && v.value.number == ch.sender.outbound
  }

  lemma OneMoreSigned(direction: U8, n: Numbering, frame: SignedFrame)
    requires NumberingOk(direction, n) && |n.frames| + 1 < LAST_NUMBER
    requires FrameOk(direction, Numbering(n.binding, n.frames + [frame]), |n.frames|)
    ensures NumberingOk(direction, Numbering(n.binding, n.frames + [frame]))
  {
    hide Verify;
    forall i | 0 <= i < |n.frames| ensures FrameOk(direction, Numbering(n.binding, n.frames + [frame]), i) {
      assert FrameOk(direction, n, i);
    }
  }

  lemma FrameAppended(ch: Channel, frame: SignedFrame, ch': Channel)
    requires Inv(ch) && ch.sender.active && ch.sender.outbound < LAST_NUMBER && Carries(ch, frame)
    requires ch' == ch.(sender := ch.sender.(outbound := ch.sender.outbound + 1),
                        signed := AddSigned(ch.signed, ch.own, frame))
    ensures SenderOk(ch') && ReceiverOk(ch') && NumberingsOk(ch')
  {
    hide Verify, AllHeard, NumberingOk;
    var n := ch.signed[ch.own];
    var n' := Numbering(n.binding, n.frames + [frame]);
    assert FrameOk(ch.direction, n', |n.frames|);
    OneMoreSigned(ch.direction, n, frame);
  }

  lemma SendKeepsInv(ch: Channel, buffer: Bytes, any: U16)
    requires Inv(ch)
    ensures Inv(Act(ch, SendFrame(buffer, any)))
  {
    AllStayHeard(ch, SendFrame(buffer, any));
    SendAppends(ch, buffer, any);
    hide AllHeard, Act, NumberingsOk, Carries, AddSigned;
    var ch' := Act(ch, SendFrame(buffer, any));
    if ch' != ch {
      var frame :|
        && ch' == ch.(sender := ch.sender.(outbound := ch.sender.outbound + 1),
                      signed := AddSigned(ch.signed, ch.own, frame))
        && ch.sender.active && ch.sender.outbound < LAST_NUMBER && Carries(ch, frame);
      FrameAppended(ch, frame, ch');
      hide SenderOk, ReceiverOk;
    }
  }

  /** A move of an end either starts the numbering over, or leaves it as it is if it stays on. */
  lemma MovesKeepNumbering(c: Config, a: Auth, e: Event)
    ensures var a' := Step(c, a, e);
            if Restarts(c, a, e) then
              a'.active && a'.bind == e.bind && a'.outbound == 1 && a'.inbound == 2
            else a'.active ==> a.active && a'.bind == a.bind && a'.outbound == a.outbound && a'.inbound == a.inbound
  {
  }

  lemma SenderMoveKeepsInv(ch: Channel, e: Event)
    requires Inv(ch)
    ensures Inv(Act(ch, AtSender(e)))
  {
    AllStayHeard(ch, AtSender(e));
    MovesKeepNumbering(ch.sends, ch.sender, e);
    hide HeardOk, Step, Restarts, FrameOk;
  }

  lemma ReceiverMoveKeepsInv(ch: Channel, e: Event)
    requires Inv(ch)
    ensures Inv(Act(ch, AtReceiver(e)))
  {
    AllStayHeard(ch, AtReceiver(e));
    MovesKeepNumbering(ch.receives, ch.receiver, e);
    hide HeardOk, Step, Restarts, NumberingOk;
    if Restarts(ch.receives, ch.receiver, e) { NothingHeardYet(Act(ch, AtReceiver(e)), e.bind.binding); }
  }

  lemma NothingHeardYet(ch: Channel, binding: Binding)
    ensures HeardOk(ch, Heard(binding, []))
  {
  }

  lemma OneMoreHeard(ch: Channel, h: Heard, data: Bytes)
    requires HeardOk(ch, h) && WasSigned(ch, h.binding, |h.frames| + 2, data)
    ensures HeardOk(ch, Heard(h.binding, h.frames + [data]))
  {
    hide WasSigned;
  }

  lemma ArriveAppends(ch: Channel, data: Bytes)
    requires ReceiverOk(ch)
    ensures var ch' := Act(ch, Arrive(data));
            || ch' == ch
            || (&& ch.receiver.active && KindOf(data) != SESSION_BIND
                && VerifyInbound(ch.receives, ch.receiver, data, ch.direction).1.Done?
                && ch'.receiver.inbound == (if ch.receiver.inbound < LAST_NUMBER then ch.receiver.inbound + 1
                                            else LAST_NUMBER)
                && ch' == ch.(receiver := ch.receiver.(inbound := ch'.receiver.inbound),
                              accepted := AddHeard(ch.accepted, data)))
  {
    InboundCounts(ch.receives, ch.receiver, data, ch.direction);
    hide VerifyInbound, KindOf, AddHeard;
  }

  lemma AcceptedWasSigned(ch: Channel, data: Bytes)
    requires Inv(ch) && Enabled(ch, Arrive(data)) && ch.receiver.active && KindOf(data) != SESSION_BIND
    requires VerifyInbound(ch.receives, ch.receiver, data, ch.direction).1.Done?
    ensures ch.receiver.inbound < LAST_NUMBER
    ensures WasSigned(Act(ch, Arrive(data)), ch.receiver.bind.binding, ch.receiver.inbound, data)
  {
    AcceptedExactly(ch, data);
    ActGrows(ch, Arrive(data));
    hide HeardOk, Passes, KindOf, SenderOk, ReceiverOk, FrameOk, Enabled, VerifyInbound, Act, Grows;
    SignedIsKept(ch, Act(ch, Arrive(data)), ch.receiver.bind.binding, ch.receiver.inbound, data);
  }

  lemma FrameHeard(ch: Channel, data: Bytes, ch': Channel)
    requires ReceiverOk(ch) && ch.receiver.active && ch.receiver.inbound < LAST_NUMBER
    requires AllHeard(ch', ch.accepted)
    requires WasSigned(ch', ch.receiver.bind.binding, ch.receiver.inbound, data)
    requires ch' == ch.(receiver := ch.receiver.(inbound := ch.receiver.inbound + 1),
                        accepted := AddHeard(ch.accepted, data))
    ensures ReceiverOk(ch') && AllHeard(ch', ch'.accepted)
  {
    hide HeardOk, WasSigned;
    OneMoreHeard(ch', Last(ch), data);
  }

  lemma SentIsKept(ch: Channel, ch': Channel)
    requires SenderOk(ch) && NumberingsOk(ch) && OtherWay(ch)
    requires ch' == ch.(receiver := ch'.receiver, accepted := ch'.accepted)
    ensures SenderOk(ch') && NumberingsOk(ch') && OtherWay(ch')
  {
    hide NumberingOk;
  }

  lemma ArriveKeepsInv(ch: Channel, data: Bytes)
    requires Inv(ch) && Enabled(ch, Arrive(data))
    ensures Inv(Act(ch, Arrive(data)))
  {
    AllStayHeard(ch, Arrive(data));
    ArriveAppends(ch, data);
    hide VerifyInbound, Enabled, KindOf, AllHeard, NumberingsOk, WasSigned, Act, AddHeard, ReceiverOk,
      SenderOk, OtherWay;
    if Act(ch, Arrive(data)) != ch {
      AcceptedWasSigned(ch, data);
      FrameHeard(ch, data, Act(ch, Arrive(data)));
      SentIsKept(ch, Act(ch, Arrive(data)));
    }
  }

  /** The invariant is kept by every step of the two ends, of the network and of other signers. */
  lemma ActKeepsInv(ch: Channel, act: Action)
    requires Inv(ch) && Enabled(ch, act)
    ensures Inv(Act(ch, act))
  {
    match act {
      case SendFrame(buffer, any) => SendKeepsInv(ch, buffer, any);
      case Arrive(data) => ArriveKeepsInv(ch, data);
      case AtSender(e) => SenderMoveKeepsInv(ch, e);
      case AtReceiver(e) => ReceiverMoveKeepsInv(ch, e);
      case Elsewhere(_) => AllStayHeard(ch, act);
    }
  }

  lemma {:induction false} RunKeepsInv(ch: Channel, acts: seq<Action>, end: Channel)
    requires Inv(ch) && Run(ch, acts, end)
    ensures Inv(end)
    decreases |acts|
  {
    hide Inv, Enabled, Act;
    if acts != [] {
      ActKeepsInv(ch, acts[0]);
      RunKeepsInv(Act(ch, acts[0]), acts[1..], end);
    }
  }
  /** In every run, whatever is bound, re-bound, lost, repeated, reordered, altered or invented: each frame accepted
      was signed under the binding then in force, in this direction and with the number it was accepted as. */
  lemma AcceptedWereSigned(ch: Channel, acts: seq<Action>, end: Channel, k: nat, i: nat)
    requires Start(ch) && Run(ch, acts, end) && k < |end.accepted| && i < |end.accepted[k].frames|
    ensures WasSigned(end, end.accepted[k].binding, i + 2, end.accepted[k].frames[i])
    ensures NumberOf(end.accepted[k].frames[i]) == i + 2
  {
    hide WasSigned, NumberOf, Run, NumberingOk;
    RunKeepsInv(ch, acts, end);
    assert HeardOk(end, end.accepted[k]);
    SignedNumber(end, end.accepted[k].binding, i + 2, end.accepted[k].frames[i]);
  }

  lemma SignedNumber(ch: Channel, binding: Binding, number: nat, data: Bytes)
    requires WasSigned(ch, binding, number, data)
    requires NumberingsOk(ch)
    ensures NumberOf(data) == number
  {
    hide NumberOf, Passes, KindOf, Verify;
    var t: nat :| IsFrame(ch, binding, t, number, data);
    var frame := ch.signed[t].frames[number - 1];
    assert FrameOk(ch.direction, ch.signed[t], number - 1);
    VerifiedNumber(data, binding, ch.direction, frame.key);
  }

  // ---- In order and without gap ------------------------------------------------------------------------------

  /** What was heard is, without gap, what was signed in this numbering behind its first frame, in that order. */
  predicate Prefix(h: Heard, n: Numbering) {
    && (h.frames != [] ==> |h.frames| < |n.frames|)
    && forall i :: 0 <= i < |h.frames| && i + 1 < |n.frames| ==> h.frames[i] == n.frames[i + 1].data
  }

  /** No other numbering holds a frame numbered 2 or more that the receiver can accept under this binding. */
  ghost predicate OnlyFrom(ch: Channel, binding: Binding, t: nat) {
    forall t': nat, number: nat :: Acceptable(ch, binding, t', number) ==> t' == t
  }

  lemma HeardFromOne(ch: Channel, h: Heard, t: nat)
    requires HeardOk(ch, h) && t < |ch.signed| && OnlyFrom(ch, h.binding, t)
    ensures Prefix(h, ch.signed[t])
  {
    hide Passes, KindOf;
    forall i | 0 <= i < |h.frames|
      ensures i + 1 < |ch.signed[t].frames| && h.frames[i] == ch.signed[t].frames[i + 1].data
    {
      assert WasSigned(ch, h.binding, i + 2, h.frames[i]);
      var t': nat :| IsFrame(ch, h.binding, t', i + 2, h.frames[i]);
      assert Acceptable(ch, h.binding, t', i + 2);
    }
    if h.frames != [] { var last := h.frames[|h.frames| - 1]; }
  }

  /** In every run: what the receiver accepted between two starts of its numbering is, without gap and in order, what
      was signed in one numbering under that binding - if no other numbering under it holds a frame numbered 2 or
      more that the receiver would take. The i-th frame of each numbering carries number i + 1, and 2^32 - 1 is never
      used. */
  lemma AcceptedIsAPrefix(ch: Channel, acts: seq<Action>, end: Channel, k: nat, t: nat)
    requires Start(ch) && Run(ch, acts, end) && k < |end.accepted| && t < |end.signed|
    requires OnlyFrom(end, end.accepted[k].binding, t)
    ensures Prefix(end.accepted[k], end.signed[t])
    ensures NumberingsOk(end) && ReceiverOk(end)
  {
    hide Run, HeardOk, OnlyFrom, NumberingOk, Prefix;
    RunKeepsInv(ch, acts, end);
    HeardFromOne(end, end.accepted[k], t);
  }

  predicate DistinctBindings(ch: Channel) {
    && (forall s, t :: 0 <= s < t < |ch.signed| ==> ch.signed[s].binding != ch.signed[t].binding)
    && (forall k, l :: 0 <= k < l < |ch.accepted| ==> ch.accepted[k].binding != ch.accepted[l].binding)
  }

  predicate HeardAt(ch: Channel, k: int, i: int) {
    0 <= k < |ch.accepted| && 0 <= i < |ch.accepted[k].frames|
  }

  /** So a run in which no numbering starts under an earlier binding, at either end, delivers in order, without gap,
      and nothing twice. */
  lemma NewBindingsDeliverOnce(ch: Channel, acts: seq<Action>, end: Channel)
    requires Start(ch) && Run(ch, acts, end) && DistinctBindings(end)
    ensures forall k :: 0 <= k < |end.accepted| && end.accepted[k].frames != [] ==>
              exists t :: 0 <= t < |end.signed| && end.signed[t].binding == end.accepted[k].binding
                          && Prefix(end.accepted[k], end.signed[t])
    ensures forall k, i, l, j ::
              && HeardAt(end, k, i) && HeardAt(end, l, j) && end.accepted[k].binding == end.accepted[l].binding
              && end.accepted[k].frames[i] == end.accepted[l].frames[j]
              ==> k == l && i == j
  {
    hide Run, Start, Passes, KindOf, NumberOf, Prefix;
    forall k | 0 <= k < |end.accepted| && end.accepted[k].frames != []
      ensures exists t :: 0 <= t < |end.signed| && end.signed[t].binding == end.accepted[k].binding
                          && Prefix(end.accepted[k], end.signed[t])
    {
      var binding := end.accepted[k].binding;
      AcceptedWereSigned(ch, acts, end, k, 0);
      var t: nat :| IsFrame(end, binding, t, 2, end.accepted[k].frames[0]);
      forall t': nat, number: nat | Acceptable(end, binding, t', number) ensures t' == t {
      }
      AcceptedIsAPrefix(ch, acts, end, k, t);
    }
    forall k, i, l, j |
      && HeardAt(end, k, i) && HeardAt(end, l, j) && end.accepted[k].binding == end.accepted[l].binding
      && end.accepted[k].frames[i] == end.accepted[l].frames[j]
      ensures k == l && i == j
    {
      AcceptedWereSigned(ch, acts, end, k, i);
      AcceptedWereSigned(ch, acts, end, l, j);
    }
  }

  // ---- Right after a bind ------------------------------------------------------------------------------------

  /** Both ends just started their numbering under the same binding; the bind has number 1. */
  ghost predicate Restarted(ch: Channel) {
    && Inv(ch) && ch.sender.active && ch.receiver.active && ch.sender.bind.binding == ch.receiver.bind.binding
    && ch.sender.outbound == 1 && ch.receiver.inbound == 2
  }

  function BothBind(ch: Channel, bind: Bind, keyId: U16, lease: Option<bool>, lease': Option<bool>): Channel {
    Act(Act(ch, AtSender(Binds(bind, 1, keyId, lease))), AtReceiver(Binds(bind, 1, keyId, lease')))
  }

  /** An authenticated bind that is new to an end starts its numbering; the bind of a new connection always is. */
  lemma BindRestarts(c: Config, a: Auth, bind: Bind, keyId: U16, lease: Option<bool>)
    requires bind.Valid() && bind.sl1 && KnownKey(c, keyId) && lease != Some(false)
    ensures Restarts(c, a, Binds(bind, 1, keyId, lease)) <==>
            (a.state == Unbound || (a.bind.SameIdentity(bind) && (a.state == Stale || a.bind != bind)))
  {
  }

  /** When both ends take the same bind, whatever happened before, the channel is right after a bind. */
  lemma BindingStarts(ch: Channel, bind: Bind, keyId: U16, lease: Option<bool>, lease': Option<bool>)
    requires Inv(ch)
    requires Restarts(ch.sends, ch.sender, Binds(bind, 1, keyId, lease))
    requires Restarts(ch.receives, ch.receiver, Binds(bind, 1, keyId, lease'))
    ensures var ch' := BothBind(ch, bind, keyId, lease, lease');
            && Restarted(ch') && Grows(ch, ch') && ch'.own == |ch.signed|
            && ch'.signed == ch.signed + [Numbering(bind.binding, [])]
            && ch'.accepted == ch.accepted + [Heard(bind.binding, [])]
            && ch'.sender.state == Current && ch'.sender.bind == bind
            && ch'.receiver.state == Current && ch'.receiver.bind == bind
  {
    hide Inv, Bind.Valid;
    var first := AtSender(Binds(bind, 1, keyId, lease));
    ActKeepsInv(ch, first);
    ActKeepsInv(Act(ch, first), AtReceiver(Binds(bind, 1, keyId, lease')));
  }

  /** From here to the next start of a numbering: what is heard is what the sender signs, in order, without gap. */
  ghost predicate InOrder(ch: Channel) {
    ch.own < |ch.signed| && Prefix(Last(ch), ch.signed[ch.own])
  }

  /** Every run in which no numbering starts delivers in order. */
  ghost predicate DeliversInOrder(ch: Channel) {
    forall acts, end ::
      Run(ch, acts, end) && |end.signed| == |ch.signed| && |end.accepted| == |ch.accepted| ==> InOrder(end)
  }

  /** What stays while no numbering starts. */
  predicate Continues(ch: Channel, end: Channel) {
    && end.own == ch.own && end.receives == ch.receives && end.sends == ch.sends && end.direction == ch.direction
    && |end.signed| == |ch.signed| && |end.accepted| == |ch.accepted| && Last(end).binding == Last(ch).binding
    && (forall t :: 0 <= t < |ch.signed| && t != ch.own ==> end.signed[t] == ch.signed[t])
  }

  lemma ActContinues(ch: Channel, act: Action)
    ensures var ch' := Act(ch, act);
            && |ch.signed| <= |ch'.signed| && |ch.accepted| <= |ch'.accepted|
            && (|ch.signed| == |ch'.signed| && |ch.accepted| == |ch'.accepted| ==> Continues(ch, ch'))
  {
    hide SignOutbound, VerifyInbound, Step, KindOf, Restarts;
  }

  lemma {:induction false} RunContinues(ch: Channel, acts: seq<Action>, end: Channel)
    requires Run(ch, acts, end)
    ensures |ch.signed| <= |end.signed| && |ch.accepted| <= |end.accepted|
    ensures |ch.signed| == |end.signed| && |ch.accepted| == |end.accepted| ==> Continues(ch, end)
    decreases |acts|
  {
    hide Act, Enabled;
    if acts != [] {
      ActContinues(ch, acts[0]);
      RunContinues(Act(ch, acts[0]), acts[1..], end);
    }
  }

  /** With no acceptable frame in an earlier numbering, every run delivers in order. */
  lemma NothingOldDeliversInOrder(ch: Channel)
    requires Restarted(ch) && OnlyFrom(ch, ch.receiver.bind.binding, ch.own)
    ensures DeliversInOrder(ch)
  {
    hide Run, HeardOk, NumberingOk, Prefix, Passes, KindOf;
    forall acts, end | Run(ch, acts, end) && |end.signed| == |ch.signed| && |end.accepted| == |ch.accepted|
      ensures InOrder(end)
    {
      RunKeepsInv(ch, acts, end);
      RunContinues(ch, acts, end);
      forall t: nat, number: nat | Acceptable(end, Last(end).binding, t, number) ensures t == ch.own {
        if t != ch.own { SamePasses(ch, end, t, number); }
      }
      HeardFromOne(end, Last(end), ch.own);
    }
  }

  lemma SamePasses(ch: Channel, end: Channel, t: nat, number: nat)
    requires Continues(ch, end) && t != ch.own && Acceptable(end, Last(end).binding, t, number)
    ensures Acceptable(ch, Last(ch).binding, t, number)
  {
    hide Verify, KeyOf, KindOf, KnownKey;
  }
  // ---- Runs that accept --------------------------------------------------------------------------------------

  /** Whatever was signed under the receiver's binding may arrive, at any time and as often as the network likes. */
  lemma SignedFramesMayArrive(ch: Channel, t: nat, i: nat)
    requires t < |ch.signed| && i < |ch.signed[t].frames| && ch.signed[t].binding == ch.receiver.bind.binding
    ensures Enabled(ch, Arrive(ch.signed[t].frames[i].data))
  {
    hide MacInput, Mac, DecodeHeader, DecodeExtension, KeyOf;
    var data := ch.signed[t].frames[i].data;
    if Passes(ch, ch.receiver.bind.binding, data) {
      assert SignedAs(ch, t, i, ch.receives.keys[KeyOf(data)], InputOf(data, ch.receiver.bind.binding, ch.direction));
    }
  }

  /** And it is accepted if it carries the number the receiver waits for and a key it knows, old or new. */
  lemma NextNumberIsAccepted(ch: Channel, t: nat)
    requires Inv(ch) && ch.receiver.active && Acceptable(ch, ch.receiver.bind.binding, t, ch.receiver.inbound)
    ensures var data := ch.signed[t].frames[ch.receiver.inbound - 1].data;
            Enabled(ch, Arrive(data)) && Act(ch, Arrive(data)).accepted == AddHeard(ch.accepted, data)
  {
    hide Inv, Enabled, Passes, KindOf, VerifyInbound, AddHeard;
    var data := ch.signed[t].frames[ch.receiver.inbound - 1].data;
    SignedFramesMayArrive(ch, t, ch.receiver.inbound - 1);
    assert IsFrame(ch, ch.receiver.bind.binding, t, ch.receiver.inbound, data);
    AcceptedExactly(ch, data);
  }

  /** Both ends share a key under the number the sender signs with. */
  predicate SharesKey(ch: Channel, any: U16) {
    && SigningKey(ch.sends, any).Some?
    && var keyId := SigningKey(ch.sends, any).value;
       KnownKey(ch.receives, keyId) && ch.receives.keys[keyId] == ch.sends.keys[keyId] != []
  }

  /** A whole envelope of another kind than a bind. */
  predicate Sendable(buffer: Bytes) {
    && |buffer| >= HEADER_SIZE && |buffer| == HEADER_SIZE + DecodeHeader(buffer).value.payloadLen
    && DecodeHeader(buffer).value.kind != SESSION_BIND
  }

  /** The sender signs it as its next frame: one the receiver can accept, if it is bound alike. */
  lemma SendSigns(ch: Channel, buffer: Bytes, any: U16)
    requires SenderOk(ch) && ch.sender.active && ch.sender.outbound < LAST_NUMBER
    requires SharesKey(ch, any) && Sendable(buffer)
    ensures var ch' := Act(ch, SendFrame(buffer, any));
            && ch' == ch.(sender := ch.sender.(outbound := ch.sender.outbound + 1), signed := ch'.signed)
            && |ch'.signed| == |ch.signed|
            && (ch.sender.outbound > 1 ==> Acceptable(ch', ch.sender.bind.binding, ch.own, ch.sender.outbound))
  {
    hide MacInput, Mac, EncodeHeader, DecodeHeader, EncodeExtension, DecodeExtension;
    var keyId := SigningKey(ch.sends, any).value;
    SignedFrameVerifies(buffer, ch.sender.bind.binding, ch.direction, ch.sender.outbound, keyId, ch.sends.keys[keyId]);
  }

  /** Both ends are bound alike, and all frames of this numbering behind the first were heard. */
  ghost predicate InStep(ch: Channel) {
    && Inv(ch) && ch.sender.active && ch.receiver.active && ch.sender.bind.binding == ch.receiver.bind.binding
    && ch.sender.outbound == ch.receiver.inbound
  }

  /** The ends and their configurations are the same but for the counters. */
  predicate SameBinds(ch: Channel, ch': Channel) {
    && ch'.sends == ch.sends && ch'.receives == ch.receives
    && ch'.sender == ch.sender.(outbound := ch'.sender.outbound, inbound := ch'.sender.inbound)
    && ch'.receiver == ch.receiver.(outbound := ch'.receiver.outbound, inbound := ch'.receiver.inbound)
  }

  /** One frame sent and delivered, when all before it were. */
  lemma OneFrameDelivered(ch: Channel, buffer: Bytes, any: U16) returns (acts: seq<Action>, end: Channel)
    requires InStep(ch) && SharesKey(ch, any) && Sendable(buffer) && ch.sender.outbound < LAST_NUMBER
    ensures Run(ch, acts, end) && InStep(end) && SharesKey(end, any)
    ensures |end.signed| == |ch.signed| && |end.accepted| == |ch.accepted| && SameBinds(ch, end)
    ensures end.sender.outbound == ch.sender.outbound + 1
  {
    hide Act, Inv, HeardOk, Sendable, Enabled, Acceptable, SharesKey, AddHeard;
    var send := SendFrame(buffer, any);
    var sent := Act(ch, send);
    InvEnds(ch);
    SendSigns(ch, buffer, any);
    SendKeepsInv(ch, buffer, any);
    AcceptableIsSigned(sent, ch.sender.bind.binding, ch.own, ch.receiver.inbound);
    var data := sent.signed[ch.own].frames[ch.receiver.inbound - 1].data;
    NextNumberIsAccepted(sent, ch.own);
    end := Act(sent, Arrive(data));
    Delivered(sent, data);
    acts := [send, Arrive(data)];
    AlwaysEnabled(ch, send);
    RunTwo(ch, send, Arrive(data), end);
    SameKeys(ch, sent, any);
    SameKeys(sent, end, any);
  }

  lemma InvEnds(ch: Channel)
    requires Inv(ch)
    ensures SenderOk(ch) && ReceiverOk(ch)
  {
    hide HeardOk, NumberingOk, SenderOk, ReceiverOk;
  }

  lemma AcceptableIsSigned(ch: Channel, binding: Binding, t: nat, number: nat)
    requires Acceptable(ch, binding, t, number)
    ensures t < |ch.signed| && 1 < number <= |ch.signed[t].frames|
  {
    hide Passes, KindOf;
  }

  lemma SameKeys(ch: Channel, ch': Channel, any: U16)
    requires SharesKey(ch, any) && ch'.sends == ch.sends && ch'.receives == ch.receives
    ensures SharesKey(ch', any)
  {
  }

  /** An arriving frame that is added to what was heard moves the receiver on by one. */
  lemma Delivered(ch: Channel, data: Bytes)
    requires Inv(ch) && Enabled(ch, Arrive(data)) && ch.receiver.active
    requires Act(ch, Arrive(data)).accepted == AddHeard(ch.accepted, data)
    ensures var ch' := Act(ch, Arrive(data));
            && Inv(ch') && ch'.receiver == ch.receiver.(inbound := ch'.receiver.inbound)
            && ch' == ch.(receiver := ch'.receiver, accepted := ch'.accepted)
            && ch'.receiver.inbound == ch.receiver.inbound + 1 && |ch'.accepted| == |ch.accepted|
            && Last(ch').frames == Last(ch).frames + [data]
  {
    hide Act, Inv, Enabled, VerifyInbound, KindOf;
    InvEnds(ch);
    ArriveAppends(ch, data);
    ArriveKeepsInv(ch, data);
    InvEnds(Act(ch, Arrive(data)));
    assert Last(Act(ch, Arrive(data))).frames == Last(ch).frames + [data];
  }

  lemma AlwaysEnabled(ch: Channel, act: Action)
    requires act.SendFrame? || act.AtSender? || act.AtReceiver?
    ensures Enabled(ch, act)
  {
  }

  lemma RunTwo(ch: Channel, a: Action, b: Action, end: Channel)
    requires Enabled(ch, a) && Enabled(Act(ch, a), b) && end == Act(Act(ch, a), b)
    ensures Run(ch, [a, b], end)
  {
    hide Enabled, Act;
    assert [a, b][1..] == [b] && [b][1..] == [];
    assert Run(Act(ch, a), [b], end);
  }

  lemma {:induction false} RunOn(ch: Channel, first: seq<Action>, mid: Channel, rest: seq<Action>, end: Channel)
    requires Run(ch, first, mid) && Run(mid, rest, end)
    ensures Run(ch, first + rest, end)
    decreases |first|
  {
    hide Enabled, Act;
    if first == [] {
      assert first + rest == rest;
    } else {
      RunOn(Act(ch, first[0]), first[1..], mid, rest, end);
      assert (first + rest)[1..] == first[1..] + rest;
    }
  }
  /** Any number of frames gets through: a run in which all of them are accepted. */
  lemma {:induction false} FramesGetThrough(ch: Channel, buffers: seq<Bytes>, any: U16)
    returns (acts: seq<Action>, end: Channel)
    requires InStep(ch) && SharesKey(ch, any) && forall i :: 0 <= i < |buffers| ==> Sendable(buffers[i])
    requires ch.sender.outbound + |buffers| <= LAST_NUMBER
    ensures Run(ch, acts, end) && InStep(end) && end.sender.outbound == ch.sender.outbound + |buffers|
    ensures |end.signed| == |ch.signed| && |end.accepted| == |ch.accepted| && SameBinds(ch, end)
    decreases |buffers|
  {
    hide InStep, Act, Enabled, Sendable, SharesKey;
    if buffers == [] {
      acts, end := [], ch;
      assert Run(ch, acts, end);
    } else {
      var first, mid := OneFrameDelivered(ch, buffers[0], any);
      var rest;
      rest, end := FramesGetThrough(mid, buffers[1..], any);
      RunOn(ch, first, mid, rest, end);
      acts := first + rest;
    }
  }

  /** Right after a bind, the first frame sent takes the place of the bind and the others get through. */
  lemma FramesGetThroughAfterBind(ch: Channel, first: Bytes, buffers: seq<Bytes>, any: U16)
    returns (acts: seq<Action>, end: Channel)
    requires Restarted(ch) && SharesKey(ch, any) && Sendable(first)
    requires |buffers| + 1 < LAST_NUMBER && forall i :: 0 <= i < |buffers| ==> Sendable(buffers[i])
    ensures Run(ch, acts, end) && InStep(end) && end.sender.outbound == |buffers| + 2
    ensures |end.signed| == |ch.signed| && |end.accepted| == |ch.accepted| && SameBinds(ch, end)
  {
    hide Act, Inv, Enabled, Sendable, SharesKey, Acceptable;
    var send := SendFrame(first, any);
    var mid := Act(ch, send);
    InvEnds(ch);
    SendSigns(ch, first, any);
    SendKeepsInv(ch, first, any);
    SameKeys(ch, mid, any);
    var rest;
    rest, end := FramesGetThrough(mid, buffers, any);
    acts := [send] + rest;
    AlwaysEnabled(ch, send);
    assert acts[1..] == rest;
  }

  /** An envelope to send. */
  const ENVELOPE: Bytes := Frame(EVENT, StreamId(0, 0, 0), [])

  lemma EnvelopeIsSendable()
    ensures Sendable(ENVELOPE)
  {
    hide EncodeHeader, DecodeHeader;
    OpenFrame(EVENT, StreamId(0, 0, 0), []);
  }

  lemma OldStaysAcceptable(ch: Channel, end: Channel, t: nat, number: nat)
    requires Continues(ch, end) && t != ch.own && Acceptable(ch, Last(ch).binding, t, number)
    ensures Acceptable(end, Last(end).binding, t, number)
  {
    hide Verify, KeyOf, KindOf, KnownKey;
  }

  /** Any acceptable frame of an earlier numbering is heard in place of a new one in some run: the sender's new frames
      are delivered up to its number, and then the old one comes. */
  lemma OldFrameIsHeard(ch: Channel, any: U16, t: nat, number: nat)
    requires Restarted(ch) && SharesKey(ch, any) && t != ch.own
    requires Acceptable(ch, ch.receiver.bind.binding, t, number)
    ensures !DeliversInOrder(ch)
  {
    hide Act, Inv, HeardOk, Enabled, Sendable, SharesKey, Acceptable, Run, AddHeard, Continues;
    InvEnds(ch);
    EnvelopeIsSendable();
    OldIsBelowLast(ch, ch.receiver.bind.binding, t, number);
    var buffers := seq(number - 2, i => ENVELOPE);
    var first, mid := FramesGetThroughAfterBind(ch, ENVELOPE, buffers, any);
    RunContinues(ch, first, mid);
    OldStaysAcceptable(ch, mid, t, number);
    InvEnds(mid);
    AcceptableIsSigned(mid, Last(mid).binding, t, number);
    var data := mid.signed[t].frames[number - 1].data;
    NextNumberIsAccepted(mid, t);
    Delivered(mid, data);
    var end := Act(mid, Arrive(data));
    RunOne(mid, Arrive(data), end);
    RunOn(ch, first, mid, [Arrive(data)], end);
    assert !InOrder(end);
    assert Run(ch, first + [Arrive(data)], end);
  }

  lemma OldIsBelowLast(ch: Channel, binding: Binding, t: nat, number: nat)
    requires Inv(ch) && Acceptable(ch, binding, t, number)
    ensures 1 < number < LAST_NUMBER
  {
    hide HeardOk, Passes, KindOf, SenderOk, ReceiverOk, FrameOk;
  }

  lemma RunOne(ch: Channel, act: Action, end: Channel)
    requires Enabled(ch, act) && end == Act(ch, act)
    ensures Run(ch, [act], end)
  {
    hide Enabled, Act;
    assert [act][1..] == [];
  }

  /** Right after both ends took a bind, every run to the next one delivers in order and without gap what was sent
      after it, exactly if no frame numbered 2 or more was signed before under this binding, in this direction and
      with a key the receiver knows. */
  lemma DeliversInOrderExactly(ch: Channel, any: U16)
    requires Restarted(ch) && SharesKey(ch, any)
    ensures DeliversInOrder(ch) <==> OnlyFrom(ch, ch.receiver.bind.binding, ch.own)
  {
    hide Restarted, SharesKey, Acceptable, DeliversInOrder;
    if OnlyFrom(ch, ch.receiver.bind.binding, ch.own) {
      NothingOldDeliversInOrder(ch);
    } else {
      var t: nat, number: nat :| Acceptable(ch, ch.receiver.bind.binding, t, number) && t != ch.own;
      OldFrameIsHeard(ch, any, t, number);
    }
  }
  // ---- New connections, and a run that accepts a frame twice -------------------------------------------------

  /** A new connection whose two ends know one and the same key. */
  function NewChannel(key: Key, direction: U8): Channel {
    var config := Config(false, true, 1, 0, 1, map[1 := key]);
    Channel(config, config, direction, NEW_AUTH, NEW_AUTH, [], 0, [], {})
  }

  /** Both ends take a bind that starts their numbering: a run that ends right after the bind. */
  lemma BothBindRuns(ch: Channel, bind: Bind) returns (acts: seq<Action>)
    requires Inv(ch) && bind.Valid() && bind.sl1 && KnownKey(ch.sends, 1) && KnownKey(ch.receives, 1)
    requires ch.sender.state == Unbound || (ch.sender.state == Stale && ch.sender.bind == bind)
    requires ch.receiver.state == Unbound || (ch.receiver.state == Stale && ch.receiver.bind == bind)
    ensures var end := BothBind(ch, bind, 1, Some(true), Some(true));
            && Run(ch, acts, end) && Restarted(end) && Grows(ch, end) && end.own == |ch.signed|
            && end.signed == ch.signed + [Numbering(bind.binding, [])]
            && end.accepted == ch.accepted + [Heard(bind.binding, [])]
            && end.sender.state == Current && end.sender.bind == bind
            && end.receiver.state == Current && end.receiver.bind == bind
  {
    hide Act, Inv, Enabled, Run, KnownKey, Restarts, Restarted, Bind.Valid, Grows;
    var event := Binds(bind, 1, 1, Some(true));
    BindRestarts(ch.sends, ch.sender, bind, 1, Some(true));
    BindRestarts(ch.receives, ch.receiver, bind, 1, Some(true));
    BindingStarts(ch, bind, 1, Some(true), Some(true));
    AlwaysEnabled(ch, AtSender(event));
    AlwaysEnabled(Act(ch, AtSender(event)), AtReceiver(event));
    acts := [AtSender(event), AtReceiver(event)];
    RunTwo(ch, acts[0], acts[1], BothBind(ch, bind, 1, Some(true), Some(true)));
  }

  lemma NewChannelIsReady(key: Key, direction: U8)
    requires key != []
    ensures var ch := NewChannel(key, direction);
            && Start(ch) && Inv(ch) && SharesKey(ch, 1) && KnownKey(ch.sends, 1) && KnownKey(ch.receives, 1)
  {
  }

  /** On a new connection with any nonempty key, once both ends took the bind, any list of envelopes sent behind a first
      frame - the place of the bind - is accepted in full in some run. */
  lemma HonestRunsAccept(bind: Bind, key: Key, direction: U8, first: Bytes, buffers: seq<Bytes>)
    returns (acts: seq<Action>, end: Channel)
    requires bind.Valid() && bind.sl1 && key != []
    requires Sendable(first) && forall i :: 0 <= i < |buffers| ==> Sendable(buffers[i])
    requires |buffers| + 1 < LAST_NUMBER
    ensures Start(NewChannel(key, direction)) && Run(NewChannel(key, direction), acts, end)
    ensures Last(end).binding == bind.binding && |Last(end).frames| == |buffers| && |end.accepted| == 1
    ensures SameBinds(BothBind(NewChannel(key, direction), bind, 1, Some(true), Some(true)), end)
    ensures end.sender.state == end.receiver.state == Current && end.sender.bind == end.receiver.bind == bind
    ensures end.sender.active && end.receiver.active
    ensures end.sends == end.receives == NewChannel(key, direction).sends
  {
    hide Act, Inv, Enabled, Run, KnownKey, Bind.Valid, Sendable, SharesKey, Start;
    var ch := NewChannel(key, direction);
    NewChannelIsReady(key, direction);
    var binds := BothBindRuns(ch, bind);
    var bound := BothBind(ch, bind, 1, Some(true), Some(true));
    SameKeys(ch, bound, 1);
    var rest;
    rest, end := FramesGetThroughAfterBind(bound, first, buffers, 1);
    InvEnds(end);
    RunOn(ch, binds, bound, rest, end);
    acts := binds + rest;
  }

  lemma BothGoStale(ch: Channel) returns (acts: seq<Action>, end: Channel)
    requires Inv(ch) && ch.sender.state == Current && ch.receiver.state == Current
    ensures Run(ch, acts, end) && Inv(end) && Grows(ch, end)
    ensures end.sender.state == Stale && end.receiver.state == Stale
    ensures end.sender.bind == ch.sender.bind && end.receiver.bind == ch.receiver.bind
    ensures end.sends == ch.sends && end.receives == ch.receives
    ensures end.signed == ch.signed && end.accepted == ch.accepted
  {
    hide Inv, Run, Enabled;
    var mid := Act(ch, AtSender(GoesStale));
    end := Act(mid, AtReceiver(GoesStale));
    acts := [AtSender(GoesStale), AtReceiver(GoesStale)];
    SenderMoveKeepsInv(ch, GoesStale);
    ReceiverMoveKeepsInv(mid, GoesStale);
    AlwaysEnabled(ch, acts[0]);
    AlwaysEnabled(mid, acts[1]);
    RunTwo(ch, acts[0], acts[1], end);
  }

  /** Wherever a frame was heard under a bind, it is heard again once both ends went stale and took that bind once
      more, though nothing is sent in between. */
  lemma RebindReplays(ch: Channel, bind: Bind) returns (acts: seq<Action>, end: Channel)
    requires Inv(ch) && bind.Valid() && bind.sl1 && KnownKey(ch.sends, 1) && KnownKey(ch.receives, 1)
    requires ch.sender.state == Current && ch.sender.bind == bind
    requires ch.receiver.state == Current && ch.receiver.bind == bind && ch.receiver.active
    requires Last(ch).frames != []
    ensures Run(ch, acts, end) && end.own == |ch.signed| && end.signed == ch.signed + [Numbering(bind.binding, [])]
    ensures end.accepted == ch.accepted + [Heard(bind.binding, [Last(ch).frames[0]])]
  {
    hide Act, Inv, Enabled, Run, KnownKey, Bind.Valid, HeardOk, WasSigned, BothBind, Restarted;
    var data := Last(ch).frames[0];
    InvEnds(ch);
    FirstHeardWasSigned(ch);
    var stales, stale := BothGoStale(ch);
    var binds := BothBindRuns(stale, bind);
    var bound := BothBind(stale, bind, 1, Some(true), Some(true));
    SignedIsKept(ch, stale, bind.binding, 2, data);
    SignedIsKept(stale, bound, bind.binding, 2, data);
    RestartedEnds(bound);
    HeardAgain(bound, data);
    end := Act(bound, Arrive(data));
    StartOfHeard(ch.accepted, bind.binding, data);
    RunOne(bound, Arrive(data), end);
    RunOn(stale, binds, bound, [Arrive(data)], end);
    RunOn(ch, stales, stale, binds + [Arrive(data)], end);
    acts := stales + (binds + [Arrive(data)]);
  }

  lemma FirstHeardWasSigned(ch: Channel)
    requires Inv(ch) && Last(ch).frames != []
    ensures WasSigned(ch, Last(ch).binding, 2, Last(ch).frames[0])
  {
    hide WasSigned, SenderOk, ReceiverOk, NumberingOk;
    assert HeardOk(ch, ch.accepted[|ch.accepted| - 1]);
  }

  lemma StartOfHeard(accepted: seq<Heard>, binding: Binding, data: Bytes)
    ensures AddHeard(accepted + [Heard(binding, [])], data) == accepted + [Heard(binding, [data])]
  {
    assert [] + [data] == [data];
  }

  lemma RestartedEnds(ch: Channel)
    requires Restarted(ch)
    ensures Inv(ch) && ch.receiver.active && ch.receiver.inbound == 2
  {
  }

  lemma HeardAgain(ch: Channel, data: Bytes)
    requires Inv(ch) && ch.receiver.active && WasSigned(ch, ch.receiver.bind.binding, ch.receiver.inbound, data)
    ensures Enabled(ch, Arrive(data)) && Act(ch, Arrive(data)).accepted == AddHeard(ch.accepted, data)
    ensures Act(ch, Arrive(data)).signed == ch.signed && Act(ch, Arrive(data)).own == ch.own
  {
    hide Act, Inv, Acceptable, Enabled, AddHeard;
    var t: nat :| IsFrame(ch, ch.receiver.bind.binding, t, ch.receiver.inbound, data);
    AcceptableIsSigned(ch, ch.receiver.bind.binding, t, ch.receiver.inbound);
    NextNumberIsAccepted(ch, t);
    Delivered(ch, data);
  }

  /** A whole run in which a frame is accepted twice: on a new connection both ends take a bind, two frames are sent
      and the second is accepted; both go stale and take the bind again; then the old frame comes once more. */
  lemma ARunThatAcceptsTwice(bind: Bind, key: Key, direction: U8, first: Bytes, second: Bytes)
    returns (acts: seq<Action>, end: Channel)
    requires bind.Valid() && bind.sl1 && key != [] && Sendable(first) && Sendable(second)
    ensures Start(NewChannel(key, direction)) && Run(NewChannel(key, direction), acts, end)
    ensures |end.accepted| == 2 && |end.accepted[0].frames| == 1 && end.accepted[1] == end.accepted[0]
    ensures end.own < |end.signed| && end.signed[end.own] == Numbering(bind.binding, [])
  {
    hide Act, Inv, Enabled, Run, KnownKey, Bind.Valid, Sendable, Start;
    var ch := NewChannel(key, direction);
    NewChannelIsReady(key, direction);
    var sent, mid := HonestRunsAccept(bind, key, direction, first, [second]);
    RunKeepsInv(ch, sent, mid);
    InvEnds(mid);
    var rest;
    rest, end := RebindReplays(mid, bind);
    RunOn(ch, sent, mid, rest, end);
    acts := sent + rest;
  }
}
