/** One end of a connection: its binding to a lease, and the authenticated frames on it, numbered without gaps in
    each direction and covered by a code that also names the binding and the direction. */
module SessionAuth {

  import opened Basics
  import opened Frames

  const LAST_NUMBER: U32 := 0xFFFF_FFFF

  // ---- State -------------------------------------------------------------------------------------------------

  datatype Config = Config(requireLease: bool, requireSl1: bool, current: U16, previous: U16, fallback: U16,
                           keys: map<U16, Key>)

  datatype BindState = Unbound | Current | Stale

  datatype Bind = Bind(binding: Binding, sl1: bool, keyId: U16)
  {
    predicate Valid() { binding.node != 0 && binding.runtime != 0 && binding.token != 0 }

    predicate SameIdentity(other: Bind) {
      binding.node == other.binding.node && binding.runtime == other.binding.runtime &&
      binding.endpoint == other.binding.endpoint
    }
  }

  const NO_BIND := Bind(Binding(0, 0, 0, 0, 0), false, 1)

  datatype Auth = Auth(state: BindState, bind: Bind, generation: nat, active: bool, outbound: U32, inbound: U32)

  const NEW_AUTH := Auth(Unbound, NO_BIND, 0, false, 1, 1)

  // ---- Binding -----------------------------------------------------------------------------------------------

  predicate KnownKey(c: Config, keyId: U16) {
    keyId in c.keys && (c.previous != 0 ==> keyId == c.current || keyId == c.previous)
  }

  /** number and keyId are those of the bind frame's extension; lease is what the router said of the binding,
      if there is a router. */
  function BindSession(c: Config, a: Auth, b: Bind, number: U32, keyId: U16, lease: Option<bool>): (Auth, Answer) {
    if !b.Valid() then (a, Refused(400))
    else if a.state != Unbound && !a.bind.SameIdentity(b) then (a, Refused(401))
    else if lease == Some(false) then (a, Refused(401))
    else if c.requireSl1 && !b.sl1 then (a, Refused(401))
    else if b.sl1 && (number != 1 || !KnownKey(c, keyId)) then (a, Refused(401))
    else if a.state == Current && a.bind == b then (a, Done)
    else if b.sl1 then (Auth(Current, b, a.generation + 1, true, 1, 2), Done)
    else (a.(state := Current, bind := b, generation := a.generation + 1, active := false), Done)
  }

  function MarkStale(a: Auth): Auth {
    if a.state == Current then a.(state := Stale, generation := a.generation + 1) else a
  }

  /** What admission of a request asks of the binding. */
  predicate MayRequest(c: Config, a: Auth) {
    !c.requireLease || a.state == Current
  }

  // ---- Frames ------------------------------------------------------------------------------------------------

  /** The envelope kind in the header, 0 where there is no header. */
  function KindOf(data: Bytes): U8 {
    if |data| < HEADER_SIZE then 0 else DecodeHeader(data).value.kind
  }

  /** The key the extension names, 0 where there is no extension. */
  function KeyOf(data: Bytes): U16 {
    if |data| < HEADER_SIZE || DecodeExtension(data[HEADER_SIZE..]).None? then 0
    else DecodeExtension(data[HEADER_SIZE..]).value.keyId
  }

  function VerifyInbound(c: Config, a: Auth, data: Bytes, direction: U8): (Auth, Answer) {
    if |data| < HEADER_SIZE then (a, Refused(400))
    else
      var h := DecodeHeader(data).value;
      if h.kind == SESSION_BIND then (a, Done)
      else if !a.active then (a, if h.Authenticated() then Refused(401) else Done)
      else if !h.Authenticated() || |data| < HEADER_SIZE + EXTENSION_SIZE then (a, Refused(401))
      else match DecodeExtension(data[HEADER_SIZE..])
           case None => (a, Refused(401))
           case Some(e) =>
             if e.number != a.inbound || !KnownKey(c, e.keyId) then (a, Refused(401))
             else if Verify(data, a.bind.binding, direction, c.keys[e.keyId]).None? then (a, Refused(401))
             else (if a.inbound < LAST_NUMBER then a.(inbound := a.inbound + 1) else a, Done)
  }

  /** The key frames are signed with: the current one, else the fallback, else any (the last choice is the map's). */
  function SigningKey(c: Config, any: U16): (k: Option<U16>)
    ensures k.Some? ==> k.value in c.keys
  {
    if c.current in c.keys then Some(c.current)
    else if c.fallback in c.keys then Some(c.fallback)
    else if any in c.keys then Some(any)
    else None
  }

  function SignOutbound(c: Config, a: Auth, buffer: Bytes, direction: U8, any: U16): (r: (Auth, Bytes, Answer))
    ensures r.2.Done? && a.active ==> SigningKey(c, any).Some?
  {
    if |buffer| < HEADER_SIZE then (a, buffer, Refused(400))
    else if !a.active then (a, buffer, Done)
    else match SigningKey(c, any)
         case None => (a, buffer, Refused(401))
         case Some(keyId) =>
           if a.outbound >= LAST_NUMBER then (a, buffer, Refused(401))
           else match Sign(buffer, a.bind.binding, direction, a.outbound, keyId, c.keys[keyId])
                case None => (a, buffer, Refused(500))
                case Some(signed) => (a.(outbound := a.outbound + 1), signed, Done)
  }

  /** A refused frame moves no counter, and an accepted one moves only the inbound counter, by one, except at the
      very last number, which the sender therefore must not use. */
  lemma InboundCounts(c: Config, a: Auth, data: Bytes, direction: U8)
    ensures var (a', answer) := VerifyInbound(c, a, data, direction);
            && (answer.Refused? || !a.active || KindOf(data) == SESSION_BIND ==> a' == a)
            && a' == a.(inbound := a'.inbound)
            && (answer.Done? && a.active && KindOf(data) != SESSION_BIND ==>
                  a'.inbound == if a.inbound == LAST_NUMBER then LAST_NUMBER else a.inbound + 1)
  {
    hide Verify, DecodeExtension, DecodeHeader;
  }

  /** While a key is being replaced only the two that take part are known, else every key of the table. */
  lemma KnownKeysExactly(c: Config, keyId: U16)
    ensures KnownKey(c, keyId) <==>
            keyId in c.keys.Keys * if c.previous == 0 then c.keys.Keys else {c.current, c.previous}
  {
  }

  /** A frame is accepted exactly if it is a bind, or comes unsigned to an end without authentication, or has an
      extension with the number the end waits for and a key it knows, and verifies under that key for this binding and
      direction. */
  lemma AcceptsExactly(c: Config, a: Auth, data: Bytes, direction: U8)
    ensures var answer := VerifyInbound(c, a, data, direction).1;
            && (answer == Refused(400) <==> |data| < HEADER_SIZE)
            && (answer.Refused? ==> answer.code in {400, 401})
            && (|data| >= HEADER_SIZE ==>
                  var h, extension := DecodeHeader(data).value, DecodeExtension(data[HEADER_SIZE..]);
                  (answer.Done? <==>
                    || h.kind == SESSION_BIND || (!a.active && h.flags % 2 == 0)
                    || (&& a.active && extension.Some? && extension.value.number == a.inbound
                        && KnownKey(c, extension.value.keyId)
                        && Verify(data, a.bind.binding, direction, c.keys[extension.value.keyId]).Some?)))
  {
    hide DecodeHeader, DecodeExtension, MacInput, Mac, KnownKey;
  }

  /** What an end sends: without authentication the frame as it is; else the frame signed for its binding under its
      next number, which it then uses up, by the current key or, without one, the fallback or any. It refuses, and
      keeps number and frame, when the frame is not whole, no key is there or its numbers are used up. */
  lemma SignsOutExactly(c: Config, a: Auth, buffer: Bytes, direction: U8, any: U16)
    ensures var (a', data, answer) := SignOutbound(c, a, buffer, direction, any);
            var keyId := if c.current in c.keys then c.current else if c.fallback in c.keys then c.fallback else any;
            && (answer == Refused(400) <==> |buffer| < HEADER_SIZE)
            && (!a.active && |buffer| >= HEADER_SIZE ==> answer.Done?)
            && (a.active ==> (answer.Done? <==>
                  && |buffer| >= HEADER_SIZE && keyId in c.keys && a.outbound < LAST_NUMBER
                  && Sign(buffer, a.bind.binding, direction, a.outbound, keyId, c.keys[keyId]).Some?))
            && (answer.Done? && a.active ==>
                  && a' == a.(outbound := a.outbound + 1)
                  && Sign(buffer, a.bind.binding, direction, a.outbound, keyId, c.keys[keyId]) == Some(data))
            && (answer.Refused? || !a.active ==> a' == a && data == buffer)
  {
    hide Sign;
  }

  // ---- Bindings over a run -----------------------------------------------------------------------------------

  datatype Event = Binds(bind: Bind, number: U32, keyId: U16, lease: Option<bool>) | GoesStale

  function Step(c: Config, a: Auth, e: Event): Auth {
    match e
    case Binds(b, number, keyId, lease) => BindSession(c, a, b, number, keyId, lease).0
    case GoesStale => MarkStale(a)
  }

  function RunAll(c: Config, events: seq<Event>): Auth {
    if events == [] then NEW_AUTH else Step(c, RunAll(c, events[..|events| - 1]), events[|events| - 1])
  }

  /** Once bound, a connection keeps the identity it was first bound to, through every re-bind. */
  lemma {:induction false} IdentityIsForever(c: Config, events: seq<Event>, k: nat)
    requires k <= |events| && RunAll(c, events[..k]).state != Unbound
    ensures RunAll(c, events).state != Unbound
    ensures RunAll(c, events[..k]).bind.SameIdentity(RunAll(c, events).bind)
    decreases |events|
  {
    if k == |events| {
      assert events[..k] == events;
    } else {
      var before := events[..|events| - 1];
      assert before[..k] == events[..k];
      IdentityIsForever(c, before, k);
    }
  }

  /** A connection that counts as bound carries a valid bind; where authentication is required it is on; and the
      numbering starts over exactly when the bind is not the one already in force. */
  lemma {:induction false} BoundMeansBound(c: Config, events: seq<Event>)
    ensures var a := RunAll(c, events);
            && (a.state != Unbound ==> a.bind.Valid() && a.active == a.bind.sl1)
            && (a.state != Unbound && c.requireSl1 ==> a.active)
            && (a.active ==> a.state != Unbound && a.outbound > 0)
  {
    if events != [] { BoundMeansBound(c, events[..|events| - 1]); }
  }

  function IdentityIn(b: Bind): (U64, U64, U32) { (b.binding.node, b.binding.runtime, b.binding.endpoint) }

  /** A bind is taken exactly if it is valid, keeps the identity, was not refused by a router, is authenticated where
      that is required, and then has number 1 and a known key; one that is not taken changes nothing. */
  lemma TakenExactly(c: Config, a: Auth, b: Bind, number: U32, keyId: U16, lease: Option<bool>)
    ensures var (a', answer) := BindSession(c, a, b, number, keyId, lease);
            && (answer.Done? <==>
                  && b.binding.node != 0 && b.binding.runtime != 0 && b.binding.token != 0
                  && (a.state == Unbound || IdentityIn(a.bind) == IdentityIn(b)) && lease != Some(false)
                  && (c.requireSl1 ==> b.sl1) && (b.sl1 ==> number == 1 && KnownKey(c, keyId)))
            && (answer.Refused? ==> a' == a && answer.code == if b.Valid() then 401 else 400)
  {
  }

  /** The step of a run that made a connection current: a bind with just this identity, epoch and token that was taken
      and that no router refused at that moment; nothing has moved the binding since. */
  predicate MadeCurrent(c: Config, events: seq<Event>, i: nat)
    requires i < |events|
  {
    var e, before := events[i], RunAll(c, events[..i]);
    && e.Binds? && e.bind == RunAll(c, events).bind && e.lease != Some(false)
    && BindSession(c, before, e.bind, e.number, e.keyId, e.lease).1.Done?
    && RunAll(c, events[..i + 1]) == RunAll(c, events)
  }

  /** In every run a connection that is current was made so by such a bind. */
  lemma {:induction false} CurrentWasTaken(c: Config, events: seq<Event>)
    requires RunAll(c, events).state == Current
    ensures exists i :: 0 <= i < |events| && MadeCurrent(c, events, i)
  {
    var before, e := events[..|events| - 1], events[|events| - 1];
    var a := RunAll(c, before);
    if e.Binds? && BindSession(c, a, e.bind, e.number, e.keyId, e.lease).1.Done? {
      assert events[..|events| - 1 + 1] == events;
      assert MadeCurrent(c, events, |events| - 1);
    } else {
      assert RunAll(c, events) == a;
      CurrentWasTaken(c, before);
      var i :| 0 <= i < |before| && MadeCurrent(c, before, i);
      assert before[..i] == events[..i] && before[..i + 1] == events[..i + 1];
      assert MadeCurrent(c, events, i);
    }
  }

  lemma NumberingRestartsExactlyOnNewBinds(c: Config, a: Auth, b: Bind, number: U32, keyId: U16, lease: Option<bool>)
    requires BindSession(c, a, b, number, keyId, lease).1.Done?
    ensures var a' := BindSession(c, a, b, number, keyId, lease).0;
            && a'.state == Current && a'.bind == b
            && (a'.generation == a.generation <==> a.state == Current && a.bind == b)
            && (a'.generation == a.generation ==> a' == a)
            && (a'.generation != a.generation && b.sl1 ==> a'.outbound == 1 && a'.inbound == 2)
  {
  }

  // ---- A frame accepted twice --------------------------------------------------------------------------------

  /** What an end accepted as its first frame is refused when it comes again - until a bind starts the numbering
      over under the same binding, at any later time: then it is accepted once more. */
  lemma AcceptedAgainAfterRebind(c: Config, a: Auth, data: Bytes, direction: U8, later: Auth, again: Bind,
                                 number: U32, keyId: U16, lease: Option<bool>)
    requires a.active && a.inbound == 2 && KindOf(data) != SESSION_BIND
    requires VerifyInbound(c, a, data, direction).1.Done?
    requires again.sl1 && again.binding == a.bind.binding
    requires BindSession(c, later, again, number, keyId, lease).1.Done?
    requires BindSession(c, later, again, number, keyId, lease).0.generation != later.generation
    ensures VerifyInbound(c, VerifyInbound(c, a, data, direction).0, data, direction).1 == Refused(401)
    ensures VerifyInbound(c, BindSession(c, later, again, number, keyId, lease).0, data, direction).1.Done?
  {
    hide Verify, DecodeExtension, DecodeHeader, KnownKey;
  }

  /** The bind already in force is such a bind once it went stale, while its lease still validates. */
  lemma StaleRebindReplays(c: Config, a: Auth, data: Bytes, direction: U8, keyId: U16)
    requires a.state == Current && a.active && a.bind.sl1 && a.bind.Valid() && KnownKey(c, keyId)
    requires a.inbound == 2 && KindOf(data) != SESSION_BIND && VerifyInbound(c, a, data, direction).1.Done?
    ensures var accepted := VerifyInbound(c, a, data, direction).0;
            var again := BindSession(c, MarkStale(accepted), a.bind, 1, keyId, Some(true));
            && VerifyInbound(c, accepted, data, direction).1 == Refused(401)
            && again.1.Done? && VerifyInbound(c, again.0, data, direction).1.Done?
  {
    hide Verify, DecodeExtension, DecodeHeader, KnownKey, KindOf, VerifyInbound;
    InboundCounts(c, a, data, direction);
    var stale := MarkStale(VerifyInbound(c, a, data, direction).0);
    AcceptedAgainAfterRebind(c, a, data, direction, stale, a.bind, 1, keyId, Some(true));
  }
}
