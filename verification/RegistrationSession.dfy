/** The router's end of a worker connection: registration, admission and direction checks above the session. */
module RegistrationSession {

  import opened Basics
  import opened SessionAuth
  import opened SessionStreams
  import Capabilities
  import Counting
  import Events
  import F = Frames
  import R = Registration
  import Requests
  import SessionManager

  // ---- State -------------------------------------------------------------------------------------------------

  datatype World = World(rules: Rules, config: Config, authorize: (Bind, Capabilities.Descriptor) -> bool)
  {
    predicate Authorizes(b: Bind, d: Capabilities.Descriptor) { authorize(b, d) }
  }

  datatype Link = Link(
    streams: Streams, auth: Auth, bind: Bind, generation: nat,
    registered: bool, draining: bool, closed: bool, slots: U32, caps: Capabilities.Descriptor)

  const NEW_LINK := Link(map[], NEW_AUTH, NO_BIND, 0, false, false, false, 0, Capabilities.BLANK)

  /** Forgets a registration made under another binding, or under this one before it went stale. */
  function Sync(l: Link): Link {
    if l.auth.state != Current || l.auth.bind != l.bind || l.auth.generation != l.generation then
      l.(bind := l.auth.bind, generation := l.auth.generation, registered := false, draining := false, slots := 0,
         caps := Capabilities.BLANK)
    else l
  }

  function Close(l: Link): Link {
    l.(closed := true, registered := false, streams := TerminateAll(l.streams, FAILED))
  }

  // ---- Frames from the worker --------------------------------------------------------------------------------

  /** The answer to the caller and the status of the reply to the worker, 0 where it is left unset. */
  datatype Outcome = Outcome(link: Link, answer: Answer, status: nat)

  function CloseWith(l: Link, code: nat): Outcome {
    Outcome(Close(l), Refused(code), 0)
  }

  function CodeOf(a: Answer): nat {
    if a.Refused? then a.code else 0
  }

  function Lifecycle(w: World, l: Link, data: Bytes): Outcome {
    match R.Decode(data)
    case None => CloseWith(l, 400)
    case Some(e) =>
      if e.operation == R.REGISTER then
        if l.registered then CloseWith(l, 409)
        else if !w.Authorizes(l.bind, e.capabilities) then Outcome(l, Refused(403), 403)
        else Outcome(l.(caps := e.capabilities, slots := e.slots, registered := true), Done, 200)
      else if !l.registered then CloseWith(l, 401)
      else if e.operation == R.DRAINING then Outcome(l.(draining := true), Done, 0)
      else if e.operation == R.CAPACITY_UPDATE then Outcome(l.(slots := e.slots), Done, 0)
      else if e.operation == R.DEREGISTER then
        if |LiveStreams(l.streams)| != 0 then CloseWith(l, 409)
        else Outcome(l.(registered := false, slots := 0, caps := Capabilities.BLANK, draining := false), Done, 0)
      else CloseWith(l, 400)
  }

  function EventIn(w: World, l: Link, data: Bytes): Outcome {
    match Events.DecodeEvent(data, w.rules.visionValid)
    case None => CloseWith(l, 400)
    case Some(e) =>
      var (streams, answer) := Dispatch(l.streams, w.rules, e);
      if answer.Done? then Outcome(l.(streams := streams), Done, 0)
      else CloseWith(l.(streams := streams), CodeOf(answer))
  }

  function ControlIn(l: Link, data: Bytes): Outcome {
    match Events.DecodeControl(data)
    case None => CloseWith(l, 400)
    case Some(c) =>
      if c.kind != WINDOW_UPDATE then CloseWith(l, 400)
      else
        var (streams, answer) := ProcessControl(l.streams, c);
        if answer.Done? then Outcome(l.(streams := streams), Done, 0)
        else CloseWith(l.(streams := streams), CodeOf(answer))
  }

  function CapabilitiesIn(w: World, l: Link, data: Bytes, h: F.Header): Outcome {
    match Capabilities.Decode(data)
    case None => CloseWith(l, 400)
    case Some(d) =>
      if h.request != 0 || h.execution != 0 || h.output != 0 || !R.ValidDescriptor(d) || !w.Authorizes(l.bind, d) then
        CloseWith(l, 403)
      else Outcome(l.(caps := d), Done, 0)
  }

  /** A frame that passed authentication. */
  function Accept(w: World, l: Link, data: Bytes, h: F.Header): Outcome {
    if h.kind == F.RUNTIME_REGISTER then Lifecycle(w, l, data)
    else if !l.registered then CloseWith(l, 401)
    else if h.kind == F.EVENT then EventIn(w, l, data)
    else if h.kind == F.CONTROL then ControlIn(l, data)
    else if h.kind == F.CAPABILITIES then CapabilitiesIn(w, l, data, h)
    else CloseWith(l, 400)
  }

  function Receive(w: World, l: Link, data: Bytes): Outcome {
    if l.closed then Outcome(l, Refused(410), 0)
    else
      var l1 := Sync(l);
      if l1.auth.state != Current then Outcome(l1, Refused(401), 401)
      else if !R.WholeFrame(data) then CloseWith(l1, 400)
      else
        var (a, answer) := VerifyInbound(w.config, l1.auth, data, F.INITIATOR_TO_RESPONDER);
        if answer.Refused? then CloseWith(l1.(auth := a), answer.code)
        else Accept(w, l1.(auth := a), data, F.DecodeHeader(data).value)
  }

  // ---- Frames to the worker ----------------------------------------------------------------------------------

  predicate Offers(d: Capabilities.Descriptor, r: Requests.Request) {
    r.profile in d.profiles && r.model in d.models
  }

  function RequestOut(w: World, l: Link, data: Bytes): (Link, Answer) {
    match Requests.Decode(data)
    case None => (Close(l), Refused(400))
    case Some(r) =>
      if l.draining || |LiveStreams(l.streams)| >= l.slots then (l, Refused(503))
      else if !Offers(l.caps, r) then (l, Refused(403))
      else
        var (streams, answer) := SessionManager.Admit(l.streams, w.rules, w.config, l.auth, r);
        (l.(streams := streams), answer)
  }

  function ControlOut(l: Link, data: Bytes): (Link, Answer) {
    match Events.DecodeControl(data)
    case None => (Close(l), Refused(400))
    case Some(c) =>
      if c.kind != CANCEL then (Close(l), Refused(400))
      else
        var (streams, answer) := ProcessControl(l.streams, c);
        (l.(streams := streams), answer)
  }

  predicate AsksCapabilities(data: Bytes) {
    R.Decode(data).Some? && R.Decode(data).value.operation == R.CAPABILITIES_QUERY
  }

  function Send(w: World, l: Link, data: Bytes): (Link, Answer) {
    var l1 := Sync(l);
    if !l1.registered || l1.closed then (l1, Refused(401))
    else if !R.WholeFrame(data) || F.DecodeHeader(data).value.flags != 0 then (Close(l1), Refused(400))
    else
      var kind := F.DecodeHeader(data).value.kind;
      if kind == F.REQUEST then RequestOut(w, l1, data)
      else if kind == F.CONTROL then ControlOut(l1, data)
      else if kind == F.RUNTIME_REGISTER && AsksCapabilities(data) then (l1, Done)
      else (Close(l1), Refused(400))
  }

  // ---- Runs --------------------------------------------------------------------------------------------------

  datatype Op =
    | FromWorker(data: Bytes)
    | ToWorker(frame: Bytes)
    | Disconnect
    | Rebind(bind: Bind, number: U32, keyId: U16, lease: Option<bool>)
    | GoStale
    | Sign(buffer: Bytes, direction: U8, any: U16)
    | Local(op: SessionStreams.Op)

  /** What the application does to the session itself is anything but admitting requests. */
  predicate Allowed(op: Op) {
    op.Local? ==> !op.op.DoSubmit?
  }

  function Apply(w: World, l: Link, op: Op): Link {
    match op
    case FromWorker(data) => Receive(w, l, data).link
    case ToWorker(data) => Send(w, l, data).0
    case Disconnect => Close(l)
    case Rebind(b, number, keyId, lease) => l.(auth := BindSession(w.config, l.auth, b, number, keyId, lease).0)
    case GoStale => l.(auth := MarkStale(l.auth))
    case Sign(buffer, direction, any) => l.(auth := SignOutbound(w.config, l.auth, buffer, direction, any).0)
    case Local(o) => l.(streams := SessionStreams.Apply(l.streams, w.rules, o))
  }

  function RunAll(w: World, ops: seq<Op>): Link {
    if ops == [] then NEW_LINK else Apply(w, RunAll(w, ops[..|ops| - 1]), ops[|ops| - 1])
  }

  predicate AllAllowed(ops: seq<Op>) {
    forall i :: 0 <= i < |ops| ==> Allowed(ops[i])
  }

  // ---- Registered means authorized ---------------------------------------------------------------------------

  /** A registration is for a valid bind and for capabilities that were authorized under it, and as long as the
      generation has not moved, that bind is the one in force. */
  ghost predicate LinkOk(w: World, l: Link) {
    && (l.registered ==> w.Authorizes(l.bind, l.caps) && R.ValidDescriptor(l.caps) && l.bind.Valid() && !l.closed)
    && l.generation <= l.auth.generation
    && (l.auth.state == Current ==> l.auth.bind.Valid())
    && (l.registered && l.generation == l.auth.generation ==> l.auth.state == Current && l.auth.bind == l.bind)
  }

  lemma SyncIsCurrent(w: World, l: Link)
    requires LinkOk(w, l)
    ensures LinkOk(w, Sync(l)) && Sync(l).generation == Sync(l).auth.generation && Sync(l).auth == l.auth
    ensures Sync(l).auth.state == Current ==> Sync(l).bind == Sync(l).auth.bind
    ensures Sync(l).registered <==> l.registered && l.generation == l.auth.generation
    ensures Sync(l).streams == l.streams && Sync(l).closed == l.closed && (Sync(l).registered ==> Sync(l) == l)
  {
    hide R.ValidDescriptor;
  }

  lemma InboundKeepsBinding(c: Config, a: Auth, data: Bytes, direction: U8)
    ensures var a' := VerifyInbound(c, a, data, direction).0; a' == a.(inbound := a'.inbound)
  {
    InboundCounts(c, a, data, direction);
  }

  lemma OutboundKeepsBinding(c: Config, a: Auth, buffer: Bytes, direction: U8, any: U16)
    ensures var a' := SignOutbound(c, a, buffer, direction, any).0; a' == a.(outbound := a'.outbound)
  {
    hide F.Sign;
  }

  lemma BindingMoves(c: Config, a: Auth, b: Bind, number: U32, keyId: U16, lease: Option<bool>)
    requires a.state == Current ==> a.bind.Valid()
    ensures var a' := BindSession(c, a, b, number, keyId, lease).0;
            && a.generation <= a'.generation && (a'.state == Current ==> a'.bind.Valid())
            && (a'.generation == a.generation ==> a'.state == a.state && a'.bind == a.bind)
    ensures var a' := MarkStale(a);
            && a.generation <= a'.generation && (a'.state == Current ==> a'.bind.Valid())
            && (a'.generation == a.generation ==> a'.state == a.state && a'.bind == a.bind)
  {
  }

  lemma DecodedRegistrationIsValid(data: Bytes)
    requires R.Decode(data).Some? && R.Decode(data).value.operation == R.REGISTER
    ensures R.ValidDescriptor(R.Decode(data).value.capabilities)
  {
    hide R.ValidDescriptor, R.WholeFrame, R.ParseFields, R.TakeAll, R.Ascending, R.Seen, F.DecodeHeader;
  }

  lemma LifecycleKeepsLink(w: World, l: Link, data: Bytes)
    requires LinkOk(w, l) && l.auth.state == Current && l.auth.bind == l.bind && !l.closed
    ensures LinkOk(w, Lifecycle(w, l, data).link)
  {
    hide R.ValidDescriptor, World.Authorizes, R.Decode, TerminateAll;
    if R.Decode(data).Some? && R.Decode(data).value.operation == R.REGISTER { DecodedRegistrationIsValid(data); }
  }

  lemma CapabilitiesKeepLink(w: World, l: Link, data: Bytes, h: F.Header)
    requires LinkOk(w, l) && l.registered
    ensures LinkOk(w, CapabilitiesIn(w, l, data, h).link)
  {
    hide R.ValidDescriptor, World.Authorizes, Capabilities.Decode, TerminateAll, Bind.Valid;
  }

  /** Events and controls from the worker change streams only, if they do not close the link. */
  lemma TrafficIsForStreams(w: World, l: Link, data: Bytes)
    ensures EventIn(w, l, data).status == 0 && ControlIn(l, data).status == 0
    ensures var l' := EventIn(w, l, data).link;
            l' == l.(streams := l'.streams) || l' == l.(streams := l'.streams, registered := false, closed := true)
    ensures var l' := ControlIn(l, data).link;
            l' == l.(streams := l'.streams) || l' == l.(streams := l'.streams, registered := false, closed := true)
  {
    hide Events.DecodeEvent, Events.DecodeControl, Dispatch, ProcessControl, TerminateAll;
  }

  lemma AcceptKeepsLink(w: World, l: Link, data: Bytes, h: F.Header)
    requires LinkOk(w, l) && l.auth.state == Current && l.auth.bind == l.bind && !l.closed
    ensures LinkOk(w, Accept(w, l, data, h).link)
  {
    hide R.ValidDescriptor, World.Authorizes, TerminateAll, Lifecycle, EventIn, ControlIn, CapabilitiesIn, Bind.Valid;
    LifecycleKeepsLink(w, l, data);
    TrafficIsForStreams(w, l, data);
    if l.registered { CapabilitiesKeepLink(w, l, data, h); }
  }

  lemma WholeHasHeader(data: Bytes)
    ensures R.WholeFrame(data) ==> |data| >= F.HEADER_SIZE
  {
    hide F.DecodeHeader;
  }

  lemma ReceiveKeepsLink(w: World, l: Link, data: Bytes)
    requires LinkOk(w, l)
    ensures LinkOk(w, Receive(w, l, data).link)
  {
    hide R.ValidDescriptor, World.Authorizes, TerminateAll, Accept, Sync, R.WholeFrame, VerifyInbound, F.DecodeHeader,
      Bind.Valid;
    SyncIsCurrent(w, l);
    WholeHasHeader(data);
    var l1 := Sync(l);
    var a := VerifyInbound(w.config, l1.auth, data, F.INITIATOR_TO_RESPONDER).0;
    InboundKeepsBinding(w.config, l1.auth, data, F.INITIATOR_TO_RESPONDER);
    if !l.closed && l1.auth.state == Current && R.WholeFrame(data) {
      AcceptKeepsLink(w, l1.(auth := a), data, F.DecodeHeader(data).value);
    }
  }

  lemma SendKeepsLink(w: World, l: Link, data: Bytes)
    requires LinkOk(w, l)
    ensures LinkOk(w, Send(w, l, data).0)
  {
    hide R.ValidDescriptor, World.Authorizes, TerminateAll, Sync, R.WholeFrame, F.DecodeHeader, Bind.Valid,
      Requests.Decode, Events.DecodeControl, R.Decode, SessionManager.Admit, ProcessControl;
    SyncIsCurrent(w, l);
  }

  lemma StepKeepsLink(w: World, l: Link, op: Op)
    requires LinkOk(w, l)
    ensures LinkOk(w, Apply(w, l, op))
  {
    hide R.ValidDescriptor, World.Authorizes, Receive, Send, BindSession, MarkStale, SignOutbound, SessionStreams.Apply,
      Bind.Valid, TerminateAll;
    match op {
      case FromWorker(data) => ReceiveKeepsLink(w, l, data);
      case ToWorker(data) => SendKeepsLink(w, l, data);
      case Disconnect =>
      case Rebind(b, number, keyId, lease) => BindingMoves(w.config, l.auth, b, number, keyId, lease);
      case GoStale => BindingMoves(w.config, l.auth, NO_BIND, 0, 0, None);
      case Sign(buffer, direction, any) => OutboundKeepsBinding(w.config, l.auth, buffer, direction, any);
      case Local(_) =>
    }
  }

  lemma {:induction false} LinksStayOk(w: World, ops: seq<Op>)
    ensures LinkOk(w, RunAll(w, ops))
  {
    hide Apply;
    if ops != [] {
      LinksStayOk(w, ops[..|ops| - 1]);
      StepKeepsLink(w, RunAll(w, ops[..|ops| - 1]), ops[|ops| - 1]);
    }
  }

  /** In every run a link that passes for registered is bound to the bind in force, and the capabilities it admits
      requests by are valid and were authorized for that bind. */
  lemma RegisteredMeansAuthorized(w: World, ops: seq<Op>)
    ensures var l := Sync(RunAll(w, ops));
            l.registered ==> l.auth.state == Current && l.auth.bind.Valid() && !l.closed
                             && w.Authorizes(l.auth.bind, l.caps) && R.ValidDescriptor(l.caps)
  {
    hide R.ValidDescriptor, World.Authorizes, Bind.Valid, Sync, RunAll;
    LinksStayOk(w, ops);
    SyncIsCurrent(w, RunAll(w, ops));
  }

  // ---- Registered means since this bind ----------------------------------------------------------------------

  /** The binding generation in which the last registration was accepted. */
  function LastRegistered(w: World, ops: seq<Op>): Option<nat> {
    if ops == [] then None
    else
      var before, op := ops[..|ops| - 1], ops[|ops| - 1];
      if op.FromWorker? && Receive(w, RunAll(w, before), op.data).status == 200 then
        Some(RunAll(w, before).auth.generation)
      else LastRegistered(w, before)
  }

  lemma AcceptRegisters(w: World, l: Link, data: Bytes, h: F.Header)
    ensures var o := Accept(w, l, data, h);
            && (o.link.registered && o.status != 200 ==> l.registered) && (o.status == 200 ==> o.link.registered)
            && o.link.generation == l.generation && o.link.auth == l.auth
  {
    hide World.Authorizes, R.ValidDescriptor, TerminateAll, EventIn, ControlIn, R.Decode, Capabilities.Decode;
    TrafficIsForStreams(w, l, data);
  }

  lemma ReceiveRegisters(w: World, l: Link, data: Bytes)
    requires LinkOk(w, l)
    ensures var o := Receive(w, l, data);
            && (o.status == 200 ==> o.link.generation == l.auth.generation)
            && (o.link.registered && o.status != 200 ==> l.registered && o.link.generation == l.generation)
            && o.link.auth.generation == l.auth.generation
  {
    hide Accept, R.WholeFrame, VerifyInbound, F.DecodeHeader, TerminateAll, Sync, LinkOk;
    SyncIsCurrent(w, l);
    WholeHasHeader(data);
    var l1 := Sync(l);
    InboundKeepsBinding(w.config, l1.auth, data, F.INITIATOR_TO_RESPONDER);
    if !l.closed && R.WholeFrame(data) {
      AcceptRegisters(w, l1.(auth := VerifyInbound(w.config, l1.auth, data, F.INITIATOR_TO_RESPONDER).0), data,
                      F.DecodeHeader(data).value);
    }
  }

  lemma SendRegistersNothing(w: World, l: Link, data: Bytes)
    ensures Send(w, l, data).0.registered ==> l.registered && Send(w, l, data).0.generation == l.generation
  {
    hide R.WholeFrame, F.DecodeHeader, TerminateAll, Requests.Decode, Events.DecodeControl, R.Decode,
      SessionManager.Admit, ProcessControl;
    WholeHasHeader(data);
  }

  lemma {:induction false} RegistrationIsRecorded(w: World, ops: seq<Op>)
    ensures RunAll(w, ops).registered ==> LastRegistered(w, ops) == Some(RunAll(w, ops).generation)
  {
    hide Receive, Send, LinkOk, TerminateAll, SessionStreams.Apply, BindSession, MarkStale, SignOutbound;
    if ops != [] {
      var before, op := ops[..|ops| - 1], ops[|ops| - 1];
      RegistrationIsRecorded(w, before);
      LinksStayOk(w, before);
      var l := RunAll(w, before);
      if op.FromWorker? { ReceiveRegisters(w, l, op.data); }
      if op.ToWorker? { SendRegistersNothing(w, l, op.frame); }
    }
  }

  /** In every run a link passes for registered only if a registration was accepted after the last change of the
      binding: going stale or re-binding, even to the same bind, undoes it. */
  lemma RegistrationIsOfThisBinding(w: World, ops: seq<Op>)
    ensures Sync(RunAll(w, ops)).registered ==> LastRegistered(w, ops) == Some(RunAll(w, ops).auth.generation)
  {
    hide RunAll, LastRegistered, LinkOk, Sync;
    RegistrationIsRecorded(w, ops);
    LinksStayOk(w, ops);
    SyncIsCurrent(w, RunAll(w, ops));
  }

  lemma FirstFrameAgain(c: Config, a: Auth, data: Bytes, keyId: U16)
    requires a.state == Current && a.active && a.bind.sl1 && a.bind.Valid() && KnownKey(c, keyId) && a.inbound == 2
    requires VerifyInbound(c, a, data, F.INITIATOR_TO_RESPONDER).1.Done?
    requires |data| >= F.HEADER_SIZE && F.DecodeHeader(data).value.kind != F.SESSION_BIND
    ensures var accepted := VerifyInbound(c, a, data, F.INITIATOR_TO_RESPONDER).0;
            var (again, answer) := BindSession(c, MarkStale(accepted), a.bind, 1, keyId, Some(true));
            && answer.Done? && again.state == Current && again.bind == a.bind && again.generation > a.generation
            && VerifyInbound(c, again, data, F.INITIATOR_TO_RESPONDER).1.Done?
  {
    hide VerifyInbound, KnownKey, F.DecodeHeader, Bind.Valid;
    InboundKeepsBinding(c, a, data, F.INITIATOR_TO_RESPONDER);
    StaleRebindReplays(c, a, data, F.INITIATOR_TO_RESPONDER, keyId);
  }

  lemma RegistersOnlyThere(w: World, l: Link, data: Bytes)
    requires Receive(w, l, data).status == 200
    ensures !l.closed && l.auth.state == Current && R.WholeFrame(data)
    ensures |data| >= F.HEADER_SIZE && F.DecodeHeader(data).value.kind == F.RUNTIME_REGISTER
    ensures VerifyInbound(w.config, l.auth, data, F.INITIATOR_TO_RESPONDER).1.Done?
    ensures R.Decode(data).Some? && R.Decode(data).value.operation == R.REGISTER
    ensures w.Authorizes(l.auth.bind, R.Decode(data).value.capabilities)
  {
    hide R.WholeFrame, VerifyInbound, F.DecodeHeader, R.Decode, Events.DecodeEvent, Events.DecodeControl,
      Capabilities.Decode, TerminateAll, Dispatch, ProcessControl, World.Authorizes, R.ValidDescriptor, LiveStreams;
    WholeHasHeader(data);
    InboundKeepsBinding(w.config, l.auth, data, F.INITIATOR_TO_RESPONDER);
  }

  /** A link that is bound but not registered takes any registration that verifies and is authorized. */
  lemma RegistersThere(w: World, l: Link, data: Bytes)
    requires !l.closed && l.auth.state == Current && R.WholeFrame(data) && !Sync(l).registered
    requires |data| >= F.HEADER_SIZE && F.DecodeHeader(data).value.kind == F.RUNTIME_REGISTER
    requires VerifyInbound(w.config, l.auth, data, F.INITIATOR_TO_RESPONDER).1.Done?
    requires R.Decode(data).Some? && R.Decode(data).value.operation == R.REGISTER
    requires w.Authorizes(l.auth.bind, R.Decode(data).value.capabilities)
    ensures Receive(w, l, data).status == 200 && Receive(w, l, data).link.registered
  {
    hide R.WholeFrame, VerifyInbound, F.DecodeHeader, R.Decode, World.Authorizes, R.ValidDescriptor;
  }

  /** The registration asked for after a re-bind need not be a new one: the frame that registered the worker right
      after an authenticated bind registers it again, byte for byte, once that bind went stale and was repeated. */
  lemma OldRegistrationRegistersAgain(w: World, l: Link, data: Bytes, keyId: U16)
    requires l.auth.active && l.auth.bind.sl1 && l.auth.bind.Valid() && l.auth.inbound == 2 && KnownKey(w.config, keyId)
    requires Receive(w, l, data).status == 200
    ensures var after := Receive(w, l, data).link;
            var again := Apply(w, Apply(w, after, GoStale), Rebind(l.auth.bind, 1, keyId, Some(true)));
            && !Sync(again).registered && again.auth.bind == l.auth.bind
            && Receive(w, again, data).status == 200 && Receive(w, again, data).link.registered
  {
    hide R.WholeFrame, VerifyInbound, F.DecodeHeader, R.Decode, World.Authorizes, Bind.Valid, KnownKey;
    RegistersOnlyThere(w, l, data);
    FirstFrameAgain(w.config, l.auth, data, keyId);
    ReceivedLink(w, l, data);
    var again := Apply(w, Apply(w, Receive(w, l, data).link, GoStale), Rebind(l.auth.bind, 1, keyId, Some(true)));
    hide Receive, BindSession, MarkStale;
    RegistersThere(w, again, data);
  }

  lemma ReceivedLink(w: World, l: Link, data: Bytes)
    requires Receive(w, l, data).status == 200
    ensures var l' := Receive(w, l, data).link;
            && !l'.closed && l'.generation == l.auth.generation
            && l'.auth == VerifyInbound(w.config, l.auth, data, F.INITIATOR_TO_RESPONDER).0
  {
    RegistersOnlyThere(w, l, data);
    hide R.WholeFrame, VerifyInbound, F.DecodeHeader, R.Decode, World.Authorizes, R.ValidDescriptor, TerminateAll;
  }

  // ---- Admission ---------------------------------------------------------------------------------------------

  /** A request goes out exactly when the link is registered, not draining, has a slot free, offers profile and
      model, and the session takes it. */
  lemma AdmittedExactly(w: World, l: Link, data: Bytes)
    requires R.WholeFrame(data) && F.DecodeHeader(data).value.kind == F.REQUEST
    ensures Send(w, l, data).1.Done? <==>
            && !l.closed && Sync(l).registered && F.DecodeHeader(data).value.flags == 0 && Requests.Decode(data).Some?
            && !l.draining && |LiveStreams(l.streams)| < l.slots && Offers(l.caps, Requests.Decode(data).value)
            && SessionManager.Admit(l.streams, w.rules, w.config, l.auth, Requests.Decode(data).value).1.Done?
  {
    hide R.WholeFrame, F.DecodeHeader, Requests.Decode, SessionManager.Admit, LiveStreams, TerminateAll;
    WholeHasHeader(data);
  }

  lemma NoneAdded(m: Streams, rules: Rules, op: SessionStreams.Op)
    requires !op.DoSubmit?
    ensures LiveStreams(SessionStreams.Apply(m, rules, op)) <= LiveStreams(m)
  {
    hide SessionStreams.Apply;
    var m' := SessionStreams.Apply(m, rules, op);
    forall id | id in LiveStreams(m') ensures id in LiveStreams(m) { LiveAlready(m, rules, op, id); }
  }

  lemma TerminateLeavesNone(m: Streams, outcome: U8)
    ensures LiveStreams(TerminateAll(m, outcome)) == {}
  {
  }

  lemma AcceptAddsNone(w: World, l: Link, data: Bytes, h: F.Header)
    ensures LiveStreams(Accept(w, l, data, h).link.streams) <= LiveStreams(l.streams)
    ensures Accept(w, l, data, h).link.closed && !l.closed ==> LiveStreams(Accept(w, l, data, h).link.streams) == {}
  {
    hide World.Authorizes, R.ValidDescriptor, TerminateAll, R.Decode, Capabilities.Decode, Dispatch, ProcessControl,
      Events.DecodeEvent, Events.DecodeControl, LiveStreams;
    TerminateLeavesNone(l.streams, FAILED);
    if Events.DecodeEvent(data, w.rules.visionValid).Some? {
      EventAddsNone(l.streams, w.rules, Events.DecodeEvent(data, w.rules.visionValid).value);
    }
    if Events.DecodeControl(data).Some? { ControlAddsNone(l.streams, w.rules, Events.DecodeControl(data).value); }
  }

  lemma EventAddsNone(m: Streams, rules: Rules, e: Events.Event)
    ensures LiveStreams(Dispatch(m, rules, e).0) <= LiveStreams(m)
    ensures LiveStreams(TerminateAll(Dispatch(m, rules, e).0, FAILED)) == {}
  {
    hide Dispatch, LiveStreams;
    NoneAdded(m, rules, DoDispatch(e));
    TerminateLeavesNone(Dispatch(m, rules, e).0, FAILED);
  }

  lemma ControlAddsNone(m: Streams, rules: Rules, c: Events.Control)
    ensures LiveStreams(ProcessControl(m, c).0) <= LiveStreams(m)
    ensures LiveStreams(TerminateAll(ProcessControl(m, c).0, FAILED)) == {}
  {
    hide ProcessControl, LiveStreams;
    NoneAdded(m, rules, DoControl(c));
    TerminateLeavesNone(ProcessControl(m, c).0, FAILED);
  }

  lemma ReceiveAddsNone(w: World, l: Link, data: Bytes)
    ensures LiveStreams(Receive(w, l, data).link.streams) <= LiveStreams(l.streams)
    ensures Receive(w, l, data).link.closed && !l.closed ==> LiveStreams(Receive(w, l, data).link.streams) == {}
  {
    hide Accept, R.WholeFrame, VerifyInbound, F.DecodeHeader, TerminateAll, LiveStreams;
    WholeHasHeader(data);
    TerminateLeavesNone(l.streams, FAILED);
    var l1 := Sync(l);
    if !l.closed && R.WholeFrame(data) {
      AcceptAddsNone(w, l1.(auth := VerifyInbound(w.config, l1.auth, data, F.INITIATOR_TO_RESPONDER).0), data,
                     F.DecodeHeader(data).value);
    }
  }

  lemma SubmitAddsOne(l: Link, w: World, r: Requests.Request)
    ensures var (streams, answer) := SessionManager.Admit(l.streams, w.rules, w.config, l.auth, r);
            |LiveStreams(streams)| <= |LiveStreams(l.streams)| + if answer.Done? then 1 else 0
  {
    hide LiveStreams, Stream.Live;
    if Submit(l.streams, w.rules, r).1.Done? { AdmissionAddsOne(l.streams, w.rules, r); }
  }

  /** A frame to the worker adds a stream only within the slots announced, and never to a closed link. */
  lemma SendAddsWithinSlots(w: World, l: Link, data: Bytes)
    ensures var l' := Send(w, l, data).0;
            && (|LiveStreams(l'.streams)| <= |LiveStreams(l.streams)| || |LiveStreams(l'.streams)| <= l.slots)
            && (l.closed ==> l'.closed && l'.streams == l.streams)
            && (l'.closed && !l.closed ==> LiveStreams(l'.streams) == {})
  {
    hide R.WholeFrame, F.DecodeHeader, TerminateAll, Requests.Decode, Events.DecodeControl, R.Decode,
      SessionManager.Admit, ProcessControl, LiveStreams;
    WholeHasHeader(data);
    TerminateLeavesNone(l.streams, FAILED);
    if Requests.Decode(data).Some? { SubmitAddsOne(Sync(l), w, Requests.Decode(data).value); }
    if Events.DecodeControl(data).Some? {
      ControlAddsNone(l.streams, w.rules, Events.DecodeControl(data).value);
      Counting.SubsetSize(LiveStreams(ProcessControl(l.streams, Events.DecodeControl(data).value).0),
                          LiveStreams(l.streams));
    }
  }

  /** The most slots the worker ever announced. */
  function MostSlots(w: World, ops: seq<Op>): nat {
    if ops == [] then 0
    else
      var before := MostSlots(w, ops[..|ops| - 1]);
      if RunAll(w, ops).slots > before then RunAll(w, ops).slots else before
  }

  lemma StepAddsWithinSlots(w: World, l: Link, op: Op)
    requires Allowed(op) && (l.closed ==> LiveStreams(l.streams) == {})
    ensures var l' := Apply(w, l, op);
            && (|LiveStreams(l'.streams)| <= |LiveStreams(l.streams)| || |LiveStreams(l'.streams)| <= l.slots)
            && (l'.closed ==> LiveStreams(l'.streams) == {}) && (l.closed ==> l'.closed)
  {
    hide Receive, Send, LiveStreams, TerminateAll, SessionStreams.Apply, BindSession, MarkStale, SignOutbound;
    match op {
      case FromWorker(data) =>
        ReceiveAddsNone(w, l, data);
        Counting.SubsetSize(LiveStreams(Receive(w, l, data).link.streams), LiveStreams(l.streams));
        ClosedReceives(w, l, data);
      case ToWorker(data) => SendAddsWithinSlots(w, l, data);
      case Disconnect => TerminateLeavesNone(l.streams, FAILED);
      case Rebind(_, _, _, _) =>
      case GoStale =>
      case Sign(_, _, _) =>
      case Local(o) =>
        NoneAdded(l.streams, w.rules, o);
        Counting.SubsetSize(LiveStreams(SessionStreams.Apply(l.streams, w.rules, o)), LiveStreams(l.streams));
    }
  }

  lemma ClosedReceives(w: World, l: Link, data: Bytes)
    ensures l.closed ==> Receive(w, l, data) == Outcome(l, Refused(410), 0)
  {
  }

  /** In every run the live streams of the session never outnumber the slots the worker announced at its best, and
      a closed link has none. */
  lemma {:induction false} StreamsStayWithinSlots(w: World, ops: seq<Op>)
    requires AllAllowed(ops)
    ensures |LiveStreams(RunAll(w, ops).streams)| <= MostSlots(w, ops)
    ensures RunAll(w, ops).slots <= MostSlots(w, ops)
    ensures RunAll(w, ops).closed ==> LiveStreams(RunAll(w, ops).streams) == {}
  {
    hide Apply, LiveStreams;
    if ops == [] {
      assert LiveStreams(NEW_LINK.streams) == {} by { NothingLive(); }
    } else {
      var before := ops[..|ops| - 1];
      assert forall i :: 0 <= i < |before| ==> before[i] == ops[i];
      StreamsStayWithinSlots(w, before);
      StepAddsWithinSlots(w, RunAll(w, before), ops[|ops| - 1]);
    }
  }

  lemma NothingLive()
    ensures LiveStreams(map[]) == {}
  {
  }

  /** Once closed, a link stays closed: it answers every frame with a refusal and no stream of it is live again. */
  lemma {:induction false} ClosedForGood(w: World, ops: seq<Op>, i: nat, data: Bytes)
    requires AllAllowed(ops) && i <= |ops| && RunAll(w, ops[..i]).closed
    ensures var l := RunAll(w, ops);
            && l.closed && LiveStreams(l.streams) == {}
            && Receive(w, l, data) == Outcome(l, Refused(410), 0)
            && Send(w, l, data).1 == Refused(401) && Send(w, l, data).0.streams == l.streams
    decreases |ops|
  {
    hide Apply, LiveStreams, Receive, Send;
    StreamsStayWithinSlots(w, ops);
    if i == |ops| {
      assert ops[..i] == ops;
    } else {
      var before := ops[..|ops| - 1];
      assert before[..i] == ops[..i] && forall k :: 0 <= k < |before| ==> before[k] == ops[k];
      ClosedForGood(w, before, i, data);
      StreamsStayWithinSlots(w, before);
      StepAddsWithinSlots(w, RunAll(w, before), ops[|ops| - 1]);
    }
    ClosedReceives(w, RunAll(w, ops), data);
    ClosedSends(w, RunAll(w, ops), data);
  }

  lemma ClosedSends(w: World, l: Link, data: Bytes)
    ensures l.closed ==> Send(w, l, data) == (Sync(l), Refused(401)) && Sync(l).streams == l.streams
  {
    hide R.WholeFrame, F.DecodeHeader, Requests.Decode, Events.DecodeControl, R.Decode, TerminateAll;
    WholeHasHeader(data);
  }

  // ---- Authentication ----------------------------------------------------------------------------------------

  /** On an authenticated connection a worker frame that is not refused carried the next number and a valid code
      for this bind and for the direction from the worker; any other closes the link. */
  lemma EffectsAreAuthenticated(w: World, l: Link, data: Bytes)
    requires LinkOk(w, l) && l.auth.active && !l.closed && l.auth.state == Current
    requires Receive(w, l, data).answer.Done?
    ensures |data| >= F.HEADER_SIZE && F.DecodeExtension(data[F.HEADER_SIZE..]).Some?
    ensures var e := F.DecodeExtension(data[F.HEADER_SIZE..]).value;
            && e.number == l.auth.inbound && KnownKey(w.config, e.keyId)
            && F.Verify(data, l.auth.bind.binding, F.INITIATOR_TO_RESPONDER, w.config.keys[e.keyId]).Some?
  {
    hide R.WholeFrame, F.DecodeHeader, F.Verify, F.DecodeExtension, TerminateAll, R.Decode, Lifecycle, EventIn,
      ControlIn, CapabilitiesIn, Sync, LinkOk;
    SyncIsCurrent(w, l);
    WholeHasHeader(data);
  }
}
