/** The router's end of a worker connection in place, on top of a session manager. */
module RegistrationEndpoint {

  import opened Basics
  import opened SessionAuth
  import opened SessionStreams
  import opened RegistrationSession
  import Capabilities
  import Codecs
  import F = Frames
  import R = Registration
  import RegistrationCodec
  import RegistrationValidity
  import SessionManager

  class RuntimeRegistrationSession {
    const session: SessionManager.SessionManager
    const authorize: (Bind, Capabilities.Descriptor) -> bool
    var bind: Bind
    var generation: nat
    var registered: bool
    var draining: bool
    var closed: bool
    var slots: U32
    var caps: Capabilities.Descriptor

    ghost function Value(): Link
      reads this, session
    {
      Link(session.streams, session.AuthValue(), bind, generation, registered, draining, closed, slots, caps)
    }

    ghost function TheWorld(): World
      reads session
    {
      World(session.rules, session.config, authorize)
    }

    constructor (session: SessionManager.SessionManager, authorize: (Bind, Capabilities.Descriptor) -> bool)
      ensures this.session == session && this.authorize == authorize
      ensures Value() == NEW_LINK.(streams := session.streams, auth := session.AuthValue())
    {
      this.session, this.authorize := session, authorize;
      bind, generation, registered, draining, closed := NO_BIND, 0, false, false, false;
      slots, caps := 0, Capabilities.BLANK;
    }

    method SynchronizeBinding() returns (current: bool)
      modifies this
      ensures Value() == Sync(old(Value())) && current == (session.state == Current)
    {
      if session.state != Current || session.bound != bind || session.generation != generation {
        registered, draining, slots, caps := false, false, 0, Capabilities.BLANK;
        bind, generation := session.bound, session.generation;
      }
      current := session.state == Current;
    }

    method IsRegistered() returns (r: bool)
      modifies this
      ensures Value() == Sync(old(Value())) && r == (Value().registered && !Value().closed)
    {
      var current := SynchronizeBinding();
      r := registered && !closed;
    }

    method CloseLink()
      modifies this`closed, this`registered, session`streams
      ensures Value() == Close(old(Value()))
    {
      closed, registered := true, false;
      var count := session.TerminateAllActiveStreams(FAILED);
    }

    method ReceiveLifecycle(data: Bytes) returns (answer: Answer, status: nat)
      modifies this, session`streams
      ensures Outcome(Value(), answer, status) == Lifecycle(TheWorld(), old(Value()), data)
    {
      hide R.Decode, LiveStreams, TerminateAll;
      var decoded := RegistrationCodec.DecodeRegistration(data);
      if decoded.None? {
        CloseLink();
        return Refused(400), 0;
      }
      var e := decoded.value;
      if e.operation == R.REGISTER {
        if registered {
          CloseLink();
          return Refused(409), 0;
        }
        if !authorize(bind, e.capabilities) { return Refused(403), 403; }
        caps, slots, registered := e.capabilities, e.slots, true;
        return Done, 200;
      }
      if !registered {
        CloseLink();
        return Refused(401), 0;
      }
      if e.operation == R.DRAINING {
        draining := true;
        return Done, 0;
      }
      if e.operation == R.CAPACITY_UPDATE {
        slots := e.slots;
        return Done, 0;
      }
      if e.operation == R.DEREGISTER {
        var live := session.GetActiveStreamCount();
        if live != 0 {
          CloseLink();
          return Refused(409), 0;
        }
        registered, slots, caps, draining := false, 0, Capabilities.BLANK, false;
        return Done, 0;
      }
      CloseLink();
      return Refused(400), 0;
    }

    method ReceiveEvent(data: Bytes) returns (answer: Answer)
      modifies this`closed, this`registered, session`streams
      ensures Outcome(Value(), answer, 0) == EventIn(TheWorld(), old(Value()), data)
    {
      hide Dispatch, TerminateAll;
      var e := Codecs.DecodeEvent(data, session.rules.visionValid);
      if e.None? {
        CloseLink();
        return Refused(400);
      }
      answer := session.DispatchEvent(e.value);
      if answer.Done? { return; }
      CloseLink();
      answer := Refused(CodeOf(answer));
    }

    method ReceiveControl(data: Bytes) returns (answer: Answer)
      modifies this`closed, this`registered, session`streams
      ensures Outcome(Value(), answer, 0) == ControlIn(old(Value()), data)
    {
      hide ProcessControl, TerminateAll;
      var c := Codecs.DecodeControl(data);
      if c.None? || c.value.kind != WINDOW_UPDATE {
        CloseLink();
        return Refused(400);
      }
      answer := session.ProcessControlEnvelope(c.value);
      if answer.Done? { return; }
      CloseLink();
      answer := Refused(CodeOf(answer));
    }

    method ReceiveCapabilities(data: Bytes, h: F.Header) returns (answer: Answer)
      modifies this`closed, this`registered, this`caps, session`streams
      ensures Outcome(Value(), answer, 0) == CapabilitiesIn(TheWorld(), old(Value()), data, h)
    {
      hide R.ValidDescriptor, TerminateAll, Capabilities.Decode;
      var d := Codecs.DecodeCapabilities(data);
      if d.None? {
        CloseLink();
        return Refused(400);
      }
      var valid := RegistrationValidity.CheckDescriptor(d.value);
      if h.request != 0 || h.execution != 0 || h.output != 0 || !valid || !authorize(bind, d.value) {
        CloseLink();
        return Refused(403);
      }
      caps := d.value;
      answer := Done;
    }

    method AcceptFrame(data: Bytes, h: F.Header) returns (answer: Answer, status: nat)
      modifies this, session`streams
      ensures Outcome(Value(), answer, status) == Accept(TheWorld(), old(Value()), data, h)
    {
      hide Lifecycle, EventIn, ControlIn, CapabilitiesIn, TerminateAll;
      status := 0;
      if h.kind == F.RUNTIME_REGISTER {
        answer, status := ReceiveLifecycle(data);
        return;
      }
      if !registered {
        CloseLink();
        return Refused(401), 0;
      }
      if h.kind == F.EVENT {
        answer := ReceiveEvent(data);
      } else if h.kind == F.CONTROL {
        answer := ReceiveControl(data);
      } else if h.kind == F.CAPABILITIES {
        answer := ReceiveCapabilities(data, h);
      } else {
        CloseLink();
        answer := Refused(400);
      }
    }

    method ReceiveWorkerFrame(data: Bytes) returns (answer: Answer, status: nat)
      modifies this, session`streams, session`expectedInbound
      ensures Outcome(Value(), answer, status) == Receive(TheWorld(), old(Value()), data)
    {
      hide Accept, R.WholeFrame, F.DecodeHeader, VerifyInbound, TerminateAll;
      if closed { return Refused(410), 0; }
      var current := SynchronizeBinding();
      if !current { return Refused(401), 401; }
      var h := RegistrationCodec.ReadWholeFrame(data);
      if h.None? {
        CloseLink();
        return Refused(400), 0;
      }
      answer := session.VerifyInboundFrame(data, F.INITIATOR_TO_RESPONDER);
      if answer.Refused? {
        CloseLink();
        return Refused(answer.code), 0;
      }
      answer, status := AcceptFrame(data, h.value);
    }

    method SendRequest(data: Bytes) returns (answer: Answer)
      modifies this`closed, this`registered, session`streams
      ensures (Value(), answer) == RequestOut(TheWorld(), old(Value()), data)
    {
      hide LiveStreams, SessionManager.Admit, TerminateAll;
      var r := Codecs.DecodeRequest(data);
      if r.None? {
        CloseLink();
        return Refused(400);
      }
      var live := session.GetActiveStreamCount();
      if draining || live >= slots { return Refused(503); }
      if r.value.profile !in caps.profiles || r.value.model !in caps.models { return Refused(403); }
      answer := session.SubmitRequest(r.value);
    }

    method SendControl(data: Bytes) returns (answer: Answer)
      modifies this`closed, this`registered, session`streams
      ensures (Value(), answer) == ControlOut(old(Value()), data)
    {
      hide ProcessControl, TerminateAll;
      var c := Codecs.DecodeControl(data);
      if c.None? || c.value.kind != CANCEL {
        CloseLink();
        return Refused(400);
      }
      answer := session.ProcessControlEnvelope(c.value);
    }

    method SendRouterFrame(data: Bytes) returns (answer: Answer)
      modifies this, session`streams
      ensures (Value(), answer) == Send(TheWorld(), old(Value()), data)
    {
      hide RequestOut, ControlOut, R.WholeFrame, F.DecodeHeader, R.Decode, TerminateAll;
      var may := IsRegistered();
      if !may { return Refused(401); }
      var h := RegistrationCodec.ReadWholeFrame(data);
      if h.None? || h.value.flags != 0 {
        CloseLink();
        return Refused(400);
      }
      if h.value.kind == F.REQUEST {
        answer := SendRequest(data);
        return;
      }
      if h.value.kind == F.CONTROL {
        answer := SendControl(data);
        return;
      }
      if h.value.kind == F.RUNTIME_REGISTER {
        var e := RegistrationCodec.DecodeRegistration(data);
        if e.Some? && e.value.operation == R.CAPABILITIES_QUERY { return Done; }
      }
      CloseLink();
      answer := Refused(400);
    }
  }
}
