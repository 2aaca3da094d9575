/** The session manager: streams, binding and authentication counters behind one lock, updated in place. */
module SessionManager {

  import opened Basics
  import opened SessionStreams
  import opened SessionAuth
  import ControlPlane
  import Events
  import Frames
  import Requests

  /** Admission: the request itself, then the binding, then the streams. */
  function Admit(m: Streams, rules: Rules, c: Config, a: Auth, r: Requests.Request): (Streams, Answer) {
    if r.Valid() && !MayRequest(c, a) then (m, Refused(401)) else Submit(m, rules, r)
  }

  function IdentityOf(b: Bind): ControlPlane.Identity {
    ControlPlane.Identity(b.binding.node, b.binding.runtime, b.binding.endpoint)
  }

  /** What the router says of a binding, if there is a router. */
  ghost function LeaseSays(router: ControlPlane.ControlPlaneRouter?, b: Bind): Option<bool>
    reads router
  {
    if router == null then None
    else Some(ControlPlane.ValidBinding(router.Value(), IdentityOf(b), b.binding.epoch, b.binding.token))
  }

  class SessionManager {
    const rules: Rules
    var config: Config
    var streams: Streams
    var state: BindState
    var bound: Bind
    var generation: nat
    var sl1Active: bool
    var nextOutbound: U32
    var expectedInbound: U32

    ghost function AuthValue(): Auth
      reads this
    {
      Auth(state, bound, generation, sl1Active, nextOutbound, expectedInbound)
    }

    constructor (rules: Rules, config: Config)
      ensures this.rules == rules && this.config == config && streams == map[] && AuthValue() == NEW_AUTH
    {
      this.rules, this.config, streams := rules, config, map[];
      state, bound, generation := Unbound, NO_BIND, 0;
      sl1Active, nextOutbound, expectedInbound := false, 1, 1;
    }

    method GetActiveStreamCount() returns (count: nat)
      ensures count == |LiveStreams(streams)|
    {
      count := 0;
      var pending := streams.Keys;
      ghost var counted: set<StreamId> := {};
      while pending != {}
        invariant pending <= streams.Keys && count == |counted|
        invariant counted == LiveStreams(streams) - pending
        decreases pending
      {
        var id :| id in pending;
        pending := pending - {id};
        if streams[id].state != Terminal {
          count, counted := count + 1, counted + {id};
        }
      }
      assert counted == LiveStreams(streams);
    }

    method SubmitRequest(r: Requests.Request) returns (answer: Answer)
      modifies this`streams
      ensures (streams, answer) == Admit(old(streams), rules, config, AuthValue(), r)
    {
      if !(r.stream.request != 0 && r.stream.execution != 0 && r.profile != 0 && r.model != []) {
        return Refused(400);
      }
      if config.requireLease {
        if state == Unbound {
          return Refused(401);
        }
        if state == Stale {
          return Refused(401);
        }
      }
      if r.stream in streams {
        return Refused(409);
      }
      var inflight := GetActiveStreamCount();
      if inflight >= rules.maxInflight {
        return Refused(503);
      }
      streams := streams[r.stream := Stream(r.profile, r.model, Accepted, UNKNOWN, 0, 0, 0)];
      return Done;
    }

    method DispatchEvent(e: Events.Event) returns (answer: Answer)
      modifies this`streams
      ensures (streams, answer) == Dispatch(old(streams), rules, e)
    {
      if !e.Valid(rules.visionValid) {
        return Refused(400);
      }
      if e.stream !in streams {
        return Refused(404);
      }
      var s := streams[e.stream];
      if s.state == Terminal {
        return Refused(410);
      }
      if e.number == 0 || e.number <= s.lastSeq {
        return Refused(422);
      }
      var bytes := EventBytes(e);
      if (s.Unacked() + bytes) % MOD64 > rules.maxBuffered {
        return Refused(507);
      }
      if s.state == Accepted && !e.IsTerminal() {
        s := s.(state := Started);
      }
      s := s.(produced := (s.produced + bytes) % MOD64);
      if e.IsTerminal() {
        var outcome := e.outcome;
        if outcome == UNKNOWN {
          if e.kind == Events.COMPLETED {
            outcome := COMPLETED;
          } else if e.kind == Events.CANCELLED {
            outcome := CANCELLED;
          } else if e.kind == Events.FAILED {
            outcome := FAILED;
          } else {
            outcome := COMPLETED;
          }
        }
        s := s.(state := Terminal, outcome := outcome, acked := s.produced);
      }
      s := s.(lastSeq := e.number);
      streams := streams[e.stream := s];
      return Done;
    }

    method AcknowledgeStreamOffset(id: StreamId, offset: U64) returns (ok: bool)
      modifies this`streams
      ensures (streams, ok) == AckOffset(old(streams), id, offset)
    {
      if id !in streams {
        return false;
      }
      if offset <= streams[id].acked {
        return true;
      }
      if offset > streams[id].produced {
        return false;
      }
      streams := streams[id := streams[id].(acked := offset)];
      return true;
    }

    method AcknowledgeStreamDrain(id: StreamId, bytes: U64) returns (ok: bool)
      modifies this`streams
      ensures (streams, ok) == AckDrain(old(streams), id, bytes)
    {
      if id !in streams {
        return false;
      }
      var target := (streams[id].acked + bytes) % MOD64;
      if target > streams[id].produced {
        return false;
      }
      streams := streams[id := streams[id].(acked := target)];
      return true;
    }

    method Cancel(execution: U64) returns (count: nat)
      modifies this`streams
      ensures (streams, count) == CancelExecution(old(streams), execution)
    {
      count := 0;
      if execution == 0 {
        return;
      }
      ghost var was, cancelled: set<StreamId> := streams, {};
      var pending := streams.Keys;
      while pending != {}
        invariant streams.Keys == was.Keys && pending <= was.Keys
        invariant forall id :: id in was && id in pending ==> streams[id] == was[id]
        invariant forall id :: id in was && id !in pending ==>
                    streams[id] == if id.execution == execution then CancelOne(was[id]) else was[id]
        invariant count == |cancelled|
        invariant forall id :: id in cancelled <==> id in CancelledBy(was, execution) && id !in pending
        decreases pending
      {
        var id :| id in pending;
        pending := pending - {id};
        var s := streams[id];
        if id.execution == execution && s.state != Terminal && s.state != CancelRequested {
          streams := streams[id := s.(state := CancelRequested)];
          count, cancelled := count + 1, cancelled + {id};
        }
      }
      assert cancelled == CancelledBy(was, execution);
      assert streams == CancelExecution(was, execution).0;
    }

    /** Ends every live stream, as when the connection is lost. */
    method TerminateAllActiveStreams(outcome: U8) returns (count: nat)
      modifies this`streams
      ensures streams == TerminateAll(old(streams), outcome)
      ensures count == |LiveStreams(old(streams))| && LiveStreams(streams) == {}
    {
      count := 0;
      ghost var was, ended: set<StreamId> := streams, {};
      var pending := streams.Keys;
      while pending != {}
        invariant streams.Keys == was.Keys && pending <= was.Keys
        invariant forall id :: id in was && id in pending ==> streams[id] == was[id]
        invariant forall id :: id in was && id !in pending ==> streams[id] == End(was[id], outcome)
        invariant count == |ended|
        invariant forall id :: id in ended <==> id in LiveStreams(was) && id !in pending
        decreases pending
      {
        var id :| id in pending;
        pending := pending - {id};
        var s := streams[id];
        if s.state != Terminal {
          streams := streams[id := s.(state := Terminal, outcome := outcome, acked := s.produced)];
          count, ended := count + 1, ended + {id};
        }
      }
      assert ended == LiveStreams(was);
      assert streams == TerminateAll(was, outcome);
    }

    /** Both scopes of the source are here. Only the first ever applies: a control without a request is refused
        before the loops, which is why a refused control changes nothing. */
    predicate Matches(c: Events.Control, id: StreamId) {
      if c.stream.request != 0 then id == c.stream else id.execution == c.stream.execution
    }

    method ProcessControlEnvelope(c: Events.Control) returns (answer: Answer)
      modifies this`streams
      ensures (streams, answer) == ProcessControl(old(streams), c)
    {
      if !c.Valid() {
        return Refused(400);
      }
      if c.kind == CANCEL {
        answer := CancelMatching(c);
      } else if c.kind == WINDOW_UPDATE {
        answer := UpdateWindows(c);
      } else {
        answer := Refused(400);
      }
    }

    method CancelMatching(c: Events.Control) returns (answer: Answer)
      requires c.Valid() && c.kind == CANCEL
      modifies this`streams
      ensures (streams, answer) == ProcessControl(old(streams), c)
    {
      var found, anyCancelled, alreadyTerminal := false, false, false;
      ghost var was := streams;
      var pending := streams.Keys;
      while pending != {}
        invariant pending <= was.Keys
        invariant found == (c.stream in was && c.stream !in pending)
        invariant streams == if found then was[c.stream := CancelOne(was[c.stream])] else was
        invariant alreadyTerminal == (found && was[c.stream].state == Terminal)
        invariant anyCancelled == (found && was[c.stream].state != Terminal && was[c.stream].state != CancelRequested)
        decreases pending
      {
        var id :| id in pending;
        pending := pending - {id};
        if Matches(c, id) {
          found := true;
          if streams[id].state == Terminal {
            alreadyTerminal := true;
          } else if streams[id].state != CancelRequested {
            streams := streams[id := streams[id].(state := CancelRequested)];
            anyCancelled := true;
          }
        }
      }
      if !found {
        return Refused(404);
      }
      if alreadyTerminal && !anyCancelled {
        assert streams == was;
        return Refused(410);
      }
      assert !anyCancelled ==> streams == was;
      return if anyCancelled then Done else Refused(0);
    }

    method UpdateWindows(c: Events.Control) returns (answer: Answer)
      requires c.Valid() && c.kind == WINDOW_UPDATE
      modifies this`streams
      ensures (streams, answer) == ProcessControl(old(streams), c)
    {
      var found := false;
      ghost var was := streams;
      var pending := streams.Keys;
      while pending != {}
        invariant pending <= was.Keys
        invariant found == (c.stream in was && c.stream !in pending)
        invariant !found ==> streams == was
        invariant found ==> c.offset <= was[c.stream].produced && streams == ProcessControl(was, c).0
        decreases pending
      {
        var id :| id in pending;
        pending := pending - {id};
        if Matches(c, id) {
          found := true;
          if c.offset > streams[id].produced {
            return Refused(422);
          }
          if c.offset > streams[id].acked {
            streams := streams[id := streams[id].(acked := c.offset)];
          }
        }
      }
      if !found {
        return Refused(404);
      }
      return Done;
    }

    // ---- Binding and authentication ----

    method ProcessSessionBind(b: Bind, number: U32, keyId: U16, router: ControlPlane.ControlPlaneRouter?)
      returns (answer: Answer)
      modifies this`state, this`bound, this`generation, this`sl1Active, this`nextOutbound, this`expectedInbound
      ensures (AuthValue(), answer) == BindSession(config, old(AuthValue()), b, number, keyId, LeaseSays(router, b))
    {
      if !(b.binding.node != 0 && b.binding.runtime != 0 && b.binding.token != 0) {
        return Refused(400);
      }
      if state != Unbound && !bound.SameIdentity(b) {
        return Refused(401);
      }
      if router != null {
        var valid := router.ValidateTcpSessionBinding(IdentityOf(b), b.binding.epoch, b.binding.token);
        if !valid {
          return Refused(401);
        }
      }
      if config.requireSl1 && !b.sl1 {
        return Refused(401);
      }
      if b.sl1 {
        if number != 1 {
          return Refused(401);
        }
        if keyId !in config.keys {
          return Refused(401);
        }
        if config.previous != 0 && keyId != config.current && keyId != config.previous {
          return Refused(401);
        }
      }
      if state == Current && bound == b {
        return Done;
      }
      bound := b;
      generation := generation + 1;
      state := Current;
      if b.sl1 {
        sl1Active := true;
        nextOutbound := 1;
        expectedInbound := 2;
      } else {
        sl1Active := false;
      }
      return Done;
    }

    method MarkBindingStale()
      modifies this`state, this`generation
      ensures AuthValue() == MarkStale(old(AuthValue()))
    {
      if state == Current {
        state := Stale;
        generation := generation + 1;
      }
    }

    method VerifyInboundFrame(data: Bytes, direction: U8) returns (answer: Answer)
      modifies this`expectedInbound
      ensures (AuthValue(), answer) == VerifyInbound(config, old(AuthValue()), data, direction)
    {
      hide Frames.Verify, Frames.DecodeHeader, Frames.DecodeExtension;
      if |data| < Frames.HEADER_SIZE {
        return Refused(400);
      }
      var header := Frames.DecodeHeader(data).value;
      if header.kind == Frames.SESSION_BIND {
        return Done;
      }
      if !sl1Active {
        if header.Authenticated() {
          return Refused(401);
        }
        return Done;
      }
      if !header.Authenticated() {
        return Refused(401);
      }
      if |data| < Frames.HEADER_SIZE + Frames.EXTENSION_SIZE {
        return Refused(401);
      }
      var extension := Frames.DecodeExtension(data[Frames.HEADER_SIZE..]);
      if extension.None? {
        return Refused(401);
      }
      if extension.value.number != expectedInbound {
        return Refused(401);
      }
      var keyId := extension.value.keyId;
      if config.previous != 0 && keyId != config.current && keyId != config.previous {
        return Refused(401);
      }
      if keyId !in config.keys {
        return Refused(401);
      }
      if Frames.Verify(data, bound.binding, direction, config.keys[keyId]).None? {
        return Refused(401);
      }
      if expectedInbound < LAST_NUMBER {
        expectedInbound := expectedInbound + 1;
      }
      return Done;
    }

    method SignOutboundFrame(buffer: Bytes, direction: U8, any: U16) returns (frame: Bytes, answer: Answer)
      modifies this`nextOutbound
      ensures (AuthValue(), frame, answer) == SignOutbound(config, old(AuthValue()), buffer, direction, any)
    {
      hide Frames.Sign;
      frame := buffer;
      if |buffer| < Frames.HEADER_SIZE {
        return frame, Refused(400);
      }
      if !sl1Active {
        return frame, Done;
      }
      var keyId := config.current;
      if keyId !in config.keys {
        keyId := config.fallback;
        if keyId !in config.keys {
          if any !in config.keys {
            return frame, Refused(401);
          }
          keyId := any;
        }
      }
      if nextOutbound >= LAST_NUMBER {
        return frame, Refused(401);
      }
      var signed := Frames.Sign(buffer, bound.binding, direction, nextOutbound, keyId, config.keys[keyId]);
      if signed.None? {
        return frame, Refused(500);
      }
      nextOutbound := nextOutbound + 1;
      return signed.value, Done;
    }
  }
}
