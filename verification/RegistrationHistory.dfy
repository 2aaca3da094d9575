/** What a worker link takes, what it closes on, and what its registration says: the slots, the capabilities and the
    draining mark of a registered link are those the worker announced since it registered. */
module RegistrationHistory {

  import opened Basics
  import opened SessionStreams
  import opened RegistrationSession
  import A = SessionAuth
  import Capabilities
  import Events
  import F = Frames
  import R = Registration
  import RS = RegistrationSession
  import Requests
  import SessionManager

  // ---- One frame from the worker -----------------------------------------------------------------------------

  /** The frame is whole and the bind in force authenticates it. */
  predicate Passes(w: World, l: Link, data: Bytes) {
    && !l.closed && l.auth.state == A.Current && R.WholeFrame(data)
    && A.VerifyInbound(w.config, l.auth, data, F.INITIATOR_TO_RESPONDER).1.Done?
  }

  function KindOf(data: Bytes): U8 {
    if |data| >= F.HEADER_SIZE then F.DecodeHeader(data).value.kind else 0
  }

  predicate Concerns(data: Bytes) {
    |data| >= F.HEADER_SIZE &&
    var h := F.DecodeHeader(data).value; h.request == 0 && h.execution == 0 && h.output == 0
  }

  /** A registration that would be the first and is not authorized. */
  predicate Unauthorized(w: World, l: Link, data: Bytes) {
    && KindOf(data) == F.RUNTIME_REGISTER && !l.registered && R.Decode(data).Some?
    && R.Decode(data).value.operation == R.REGISTER && !w.Authorizes(l.bind, R.Decode(data).value.capabilities)
  }

  /** What the link is ready for: a first registration, and once it is registered news of it, its end when no stream is
      live, events and window updates its streams take, and capabilities it is allowed. */
  predicate Ready(w: World, l: Link, data: Bytes) {
    if KindOf(data) == F.RUNTIME_REGISTER then
      && R.Decode(data).Some?
      && var e := R.Decode(data).value;
         if e.operation == R.REGISTER then !l.registered && w.Authorizes(l.bind, e.capabilities)
         else && l.registered && e.operation in {R.DRAINING, R.CAPACITY_UPDATE, R.DEREGISTER}
              && (e.operation == R.DEREGISTER ==> forall id :: id in l.streams ==> !l.streams[id].Live())
    else if KindOf(data) == F.EVENT then
      && l.registered && Events.DecodeEvent(data, w.rules.visionValid).Some?
      && Dispatch(l.streams, w.rules, Events.DecodeEvent(data, w.rules.visionValid).value).1.Done?
    else if KindOf(data) == F.CONTROL then
      && l.registered && Events.DecodeControl(data).Some? && Events.DecodeControl(data).value.kind == WINDOW_UPDATE
      && ProcessControl(l.streams, Events.DecodeControl(data).value).1.Done?
    else
      && KindOf(data) == F.CAPABILITIES && l.registered && Concerns(data) && Capabilities.Decode(data).Some?
      && R.ValidDescriptor(Capabilities.Decode(data).value) && w.Authorizes(l.bind, Capabilities.Decode(data).value)
  }

  /** The streams after a frame that was taken. */
  function Taken(w: World, l: Link, data: Bytes): Streams {
    if KindOf(data) == F.EVENT && Events.DecodeEvent(data, w.rules.visionValid).Some? then
      Dispatch(l.streams, w.rules, Events.DecodeEvent(data, w.rules.visionValid).value).0
    else if KindOf(data) == F.CONTROL && Events.DecodeControl(data).Some? then
      ProcessControl(l.streams, Events.DecodeControl(data).value).0
    else l.streams
  }

  lemma NoneLive(m: Streams)
    ensures |LiveStreams(m)| == 0 <==> forall id :: id in m ==> !m[id].Live()
  {
    if forall id :: id in m ==> !m[id].Live() {
      assert LiveStreams(m) == {};
    } else {
      var id :| id in m && m[id].Live();
      assert id in LiveStreams(m);
    }
  }

  lemma LifecycleExactly(w: World, l: Link, data: Bytes)
    requires KindOf(data) == F.RUNTIME_REGISTER
    ensures var o := Lifecycle(w, l, data);
            && (o.answer.Done? <==> Ready(w, l, data))
            && (o.status == 200 <==> Ready(w, l, data) && R.Decode(data).value.operation == R.REGISTER)
            && (o.status == 403 <==> Unauthorized(w, l, data)) && o.status in {0, 200, 403}
            && (o.answer.Done? || Unauthorized(w, l, data) ==> o.link.streams == l.streams && o.link.closed == l.closed)
            && (o.answer.Refused? && !Unauthorized(w, l, data) ==> o.link == Close(l))
  {
    hide R.Decode, TerminateAll, LiveStreams, Stream.Live, World.Authorizes, KindOf;
    NoneLive(l.streams);
  }

  lemma TrafficExactly(w: World, l: Link, data: Bytes, h: F.Header)
    requires |data| >= F.HEADER_SIZE && h == F.DecodeHeader(data).value && KindOf(data) != F.RUNTIME_REGISTER
    ensures var o := Accept(w, l, data, h);
            && (o.answer.Done? <==> Ready(w, l, data)) && o.status == 0
            && (o.answer.Done? ==> o.link.streams == Taken(w, l, data) && o.link.closed == l.closed)
            && (o.answer.Refused? ==>
                  o.link.closed && !o.link.registered && o.link.streams == TerminateAll(l.streams, FAILED))
  {
    hide TerminateAll, Lifecycle, F.DecodeHeader, Events.DecodeEvent, Events.DecodeControl, Capabilities.Decode,
      World.Authorizes, R.ValidDescriptor, Dispatch, ProcessControl;
    if Events.DecodeEvent(data, w.rules.visionValid).Some? {
      RefusedEventsChangeNothing(l.streams, w.rules, Events.DecodeEvent(data, w.rules.visionValid).value);
    }
    if Events.DecodeControl(data).Some? {
      RefusedControlsChangeNothing(l.streams, w.rules, Events.DecodeControl(data).value);
    }
  }

  lemma RefusedEventsChangeNothing(m: Streams, rules: Rules, e: Events.Event)
    ensures Dispatch(m, rules, e).1.Refused? ==> Dispatch(m, rules, e).0 == m
  {
    hide Events.Event.Valid, EventBytes, Advance;
  }

  lemma RefusedControlsChangeNothing(m: Streams, rules: Rules, c: Events.Control)
    ensures ProcessControl(m, c).1.Refused? ==> ProcessControl(m, c).0 == m
  {
    hide Events.Control.Valid;
  }

  /** A frame is taken exactly if it passes and the link is ready for it; then the streams are as it says. Status 200
      answers exactly a registration that was taken, 401 a link that is not bound, 403 an unauthorized first
      registration. Every other refusal closes the link for good and fails its streams; these three, and a closed
      link, change no stream. */
  lemma ReceivesExactly(w: World, l: Link, data: Bytes)
    ensures var o, l1 := Receive(w, l, data), Sync(l);
            && (o.answer.Done? <==> Passes(w, l, data) && Ready(w, l1, data))
            && (o.status == 200 <==> o.answer.Done? && KindOf(data) == F.RUNTIME_REGISTER
                                     && R.Decode(data).value.operation == R.REGISTER)
            && (o.status == 401 <==> !l.closed && l1.auth.state != A.Current)
            && (o.status == 403 <==> Passes(w, l, data) && Unauthorized(w, l1, data))
            && (o.link.closed <==> l.closed || (o.answer.Refused? && o.status == 0))
            && (o.answer.Done? ==> o.link.streams == Taken(w, l, data))
            && (o.answer.Refused? ==>
                  o.link.streams == if o.link.closed && !l.closed then TerminateAll(l.streams, FAILED) else l.streams)
  {
    hide R.WholeFrame, A.VerifyInbound, F.DecodeHeader, TerminateAll, Lifecycle, EventIn, ControlIn, CapabilitiesIn,
      Taken, Ready, R.Decode, World.Authorizes, Accept;
    WholeHasHeader(data);
    var l1 := Sync(l);
    if !l.closed && l1.auth.state == A.Current && R.WholeFrame(data) {
      var (a, answer) := A.VerifyInbound(w.config, l1.auth, data, F.INITIATOR_TO_RESPONDER);
      var l2 := l1.(auth := a);
      SameReadiness(w, l, l1, l2, data);
      if answer.Done? {
        AcceptsExactly(w, l2, data, F.DecodeHeader(data).value);
      }
    }
  }

  /** Neither forgetting a registration nor counting a frame touches streams; counting changes no readiness. */
  lemma SameReadiness(w: World, l: Link, l1: Link, l2: Link, data: Bytes)
    requires l1 == Sync(l) && l2 == l1.(auth := l2.auth)
    ensures Ready(w, l2, data) == Ready(w, l1, data) && Unauthorized(w, l2, data) == Unauthorized(w, l1, data)
    ensures Taken(w, l2, data) == Taken(w, l, data) && l2.streams == l.streams && l2.closed == l.closed
    ensures l1.auth == l.auth
  {
    hide R.WholeFrame, F.DecodeHeader, R.Decode, World.Authorizes, Dispatch, ProcessControl, Events.DecodeEvent,
      Events.DecodeControl, Capabilities.Decode, R.ValidDescriptor, KindOf, Concerns, Stream.Live;
  }

  lemma AcceptsExactly(w: World, l: Link, data: Bytes, h: F.Header)
    requires |data| >= F.HEADER_SIZE && h == F.DecodeHeader(data).value && !l.closed
    ensures var o := Accept(w, l, data, h);
            && (o.answer.Done? <==> Ready(w, l, data))
            && (o.status == 200 <==> o.answer.Done? && KindOf(data) == F.RUNTIME_REGISTER
                                     && R.Decode(data).value.operation == R.REGISTER)
            && o.status != 401
            && (o.status == 403 <==> Unauthorized(w, l, data))
            && (o.link.closed <==> o.answer.Refused? && o.status == 0)
            && (o.answer.Done? ==> o.link.streams == Taken(w, l, data))
            && (o.answer.Refused? ==>
                  o.link.streams == if o.link.closed then TerminateAll(l.streams, FAILED) else l.streams)
  {
    hide F.DecodeHeader, TerminateAll, Lifecycle, EventIn, ControlIn, CapabilitiesIn, R.Decode, World.Authorizes;
    if h.kind == F.RUNTIME_REGISTER {
      ReadyDecodes(w, l, data);
      LifecycleExactly(w, l, data);
      hide Ready;
    } else {
      hide Ready, Taken;
      TrafficExactly(w, l, data, h);
    }
  }

  lemma ReadyDecodes(w: World, l: Link, data: Bytes)
    ensures KindOf(data) == F.RUNTIME_REGISTER && Ready(w, l, data) ==> R.Decode(data).Some?
  {
    hide F.DecodeHeader, R.Decode, World.Authorizes, Stream.Live;
  }

  type Call = RS.Op

  // ---- What the worker announced -----------------------------------------------------------------------------

  datatype Notice = Registers(slots: U32, caps: Capabilities.Descriptor) | Drains | Resizes(newSlots: U32)
                  | Offering(newCaps: Capabilities.Descriptor) | Leaves

  /** What a frame announces, if it is taken. */
  function NoticeIn(data: Bytes): Option<Notice> {
    if KindOf(data) == F.RUNTIME_REGISTER && R.Decode(data).Some? then
      var e := R.Decode(data).value;
      if e.operation == R.REGISTER then Some(Registers(e.slots, e.capabilities))
      else if e.operation == R.DRAINING then Some(Drains)
      else if e.operation == R.CAPACITY_UPDATE then Some(Resizes(e.slots))
      else if e.operation == R.DEREGISTER then Some(Leaves)
      else None
    else if KindOf(data) == F.CAPABILITIES && Capabilities.Decode(data).Some? then
      Some(Offering(Capabilities.Decode(data).value))
    else None
  }

  /** What was announced since the last registration, that one included. */
  function Notices(w: World, ops: seq<Call>): seq<Notice> {
    if ops == [] then []
    else
      var before, op := ops[..|ops| - 1], ops[|ops| - 1];
      if op.FromWorker? && Receive(w, RunAll(w, before), op.data).answer.Done? && NoticeIn(op.data).Some? then
        var notice := NoticeIn(op.data).value;
        if notice.Registers? then [notice] else Notices(w, before) + [notice]
      else Notices(w, before)
  }

  /** The slots announced last. */
  function SlotsSaid(notices: seq<Notice>): U32 {
    if notices == [] then 0
    else
      match notices[|notices| - 1]
      case Registers(slots, _) => slots
      case Resizes(slots) => slots
      case _ => SlotsSaid(notices[..|notices| - 1])
  }

  /** The capabilities announced last. */
  function CapsSaid(notices: seq<Notice>): Capabilities.Descriptor {
    if notices == [] then Capabilities.BLANK
    else
      match notices[|notices| - 1]
      case Registers(_, caps) => caps
      case Offering(caps) => caps
      case _ => CapsSaid(notices[..|notices| - 1])
  }

  /** The link stands as these announcements say. */
  predicate AsSaid(l: Link, notices: seq<Notice>) {
    && notices != [] && notices[0].Registers? && Leaves !in notices
    && l.slots == SlotsSaid(notices) && l.caps == CapsSaid(notices) && (l.draining <==> Drains in notices)
  }

  predicate Blank(l: Link) {
    l.slots == 0 && l.caps == Capabilities.BLANK && !l.draining
  }

  predicate Told(l: Link, notices: seq<Notice>) {
    (l.registered ==> AsSaid(l, notices)) && (!l.registered && !l.closed ==> Blank(l))
  }

  lemma {:induction false} SaidAfter(notices: seq<Notice>, notice: Notice)
    ensures SlotsSaid(notices + [notice]) ==
            if notice.Registers? then notice.slots else if notice.Resizes? then notice.newSlots else SlotsSaid(notices)
    ensures CapsSaid(notices + [notice]) ==
            if notice.Registers? then notice.caps else if notice.Offering? then notice.newCaps else CapsSaid(notices)
  {
    assert (notices + [notice])[..|notices|] == notices;
  }

  /** How a link's registration moves when it takes a frame. */
  predicate Moves(l: Link, l': Link, notice: Option<Notice>) {
    match notice
    case None => Same(l, l')
    case Some(Registers(slots, caps)) =>
      l'.registered && l'.slots == slots && l'.caps == caps && l'.draining == l.draining
    case Some(Drains) => l'.registered == l.registered && l'.slots == l.slots && l'.caps == l.caps && l'.draining
    case Some(Resizes(slots)) => Same(l.(slots := slots), l')
    case Some(Offering(caps)) => Same(l.(caps := caps), l')
    case Some(Leaves) => !l'.registered && Blank(l')
  }

  predicate Same(l: Link, l': Link) {
    l'.registered == l.registered && l'.slots == l.slots && l'.caps == l.caps && l'.draining == l.draining
  }

  lemma LifecycleMoves(w: World, l: Link, data: Bytes)
    requires KindOf(data) == F.RUNTIME_REGISTER
    ensures var o := Lifecycle(w, l, data);
            && (o.answer.Done? ==> Moves(l, o.link, NoticeIn(data)) && o.link.closed == l.closed
                                   && (NoticeIn(data).Some? && NoticeIn(data).value.Registers? <==> !l.registered))
            && (o.answer.Refused? ==> Same(l, o.link) || (o.link.closed && !o.link.registered))
  {
    hide R.Decode, TerminateAll, LiveStreams, Stream.Live, World.Authorizes, KindOf;
  }

  lemma TrafficMoves(w: World, l: Link, data: Bytes, h: F.Header)
    requires |data| >= F.HEADER_SIZE && h == F.DecodeHeader(data).value && KindOf(data) != F.RUNTIME_REGISTER
    ensures var o := Accept(w, l, data, h);
            && (o.answer.Done? ==> Moves(l, o.link, NoticeIn(data)) && o.link.closed == l.closed && l.registered)
            && (o.answer.Refused? ==> o.link.closed && !o.link.registered)
  {
    hide TerminateAll, Lifecycle, F.DecodeHeader, Events.DecodeEvent, Events.DecodeControl, Capabilities.Decode,
      World.Authorizes, R.ValidDescriptor, Dispatch, ProcessControl, R.Decode;
  }

  lemma NoticeKinds(data: Bytes)
    ensures KindOf(data) != F.RUNTIME_REGISTER && NoticeIn(data).Some? ==> NoticeIn(data).value.Offering?
  {
    hide R.Decode, Capabilities.Decode, KindOf;
  }

  /** A frame that is taken moves the registration as it says; one that is refused leaves it or closes the link. */
  lemma ReceiveMoves(w: World, l: Link, data: Bytes)
    ensures var o, l1 := Receive(w, l, data), Sync(l);
            && (o.answer.Done? ==>
                  && Moves(l1, o.link, NoticeIn(data)) && o.link.closed == l.closed
                  && (NoticeIn(data).Some? && NoticeIn(data).value.Registers? <==> !l1.registered))
            && (o.answer.Refused? ==> o.link == l || Same(l1, o.link) || (o.link.closed && !o.link.registered))
            && (l.closed ==> o.link.closed)
  {
    hide R.WholeFrame, A.VerifyInbound, F.DecodeHeader, TerminateAll, Lifecycle, EventIn, ControlIn, CapabilitiesIn,
      R.Decode, World.Authorizes, Accept, Moves, NoticeIn, Sync;
    WholeHasHeader(data);
    SyncKeepsClosed(l);
    var l1 := Sync(l);
    if !l.closed && l1.auth.state == A.Current && R.WholeFrame(data) {
      var (a, answer) := A.VerifyInbound(w.config, l1.auth, data, F.INITIATOR_TO_RESPONDER);
      if answer.Done? {
        var h := F.DecodeHeader(data).value;
        AcceptMoves(w, l1.(auth := a), data, h);
        MovesAlike(l1, l1.(auth := a), Accept(w, l1.(auth := a), data, h).link, NoticeIn(data));
      }
    }
  }

  lemma SyncKeepsClosed(l: Link)
    ensures Sync(l).closed == l.closed
  {
  }

  lemma MovesAlike(l: Link, l2: Link, l': Link, notice: Option<Notice>)
    requires l2 == l.(auth := l2.auth)
    ensures Moves(l2, l', notice) == Moves(l, l', notice) && Same(l2, l') == Same(l, l')
  {
  }

  lemma AcceptMoves(w: World, l: Link, data: Bytes, h: F.Header)
    requires |data| >= F.HEADER_SIZE && h == F.DecodeHeader(data).value
    ensures var o := Accept(w, l, data, h);
            && (o.answer.Done? ==> Moves(l, o.link, NoticeIn(data)) && o.link.closed == l.closed
                                   && (NoticeIn(data).Some? && NoticeIn(data).value.Registers? <==> !l.registered))
            && (o.answer.Refused? ==> Same(l, o.link) || (o.link.closed && !o.link.registered))
  {
    hide F.DecodeHeader, TerminateAll, Lifecycle, EventIn, ControlIn, CapabilitiesIn, R.Decode, World.Authorizes, Moves,
      NoticeIn;
    NoticeKinds(data);
    if h.kind == F.RUNTIME_REGISTER { LifecycleMoves(w, l, data); } else { TrafficMoves(w, l, data, h); }
  }

  lemma NoticeTells(l: Link, l': Link, notices: seq<Notice>, notice: Notice)
    requires Told(l, notices) && Moves(l, l', Some(notice)) && !l.closed && !l'.closed
    requires notice.Registers? <==> !l.registered
    ensures Told(l', if notice.Registers? then [notice] else notices + [notice])
  {
    hide SlotsSaid, CapsSaid;
    SaidAfter(notices, notice);
    SaidAfter([], notice);
    assert [] + [notice] == [notice];
    assert forall x :: x in notices + [notice] <==> x in notices || x == notice;
  }

  /** Frames to the worker, the application, binds and staleness do not change what was registered; they may end it. */
  lemma OthersTell(w: World, l: Link, op: Call, notices: seq<Notice>)
    requires Told(l, notices) && !op.FromWorker?
    ensures Told(RS.Apply(w, l, op), notices)
  {
    hide R.WholeFrame, F.DecodeHeader, TerminateAll, Requests.Decode, Events.DecodeControl, R.Decode, AsSaid,
      SessionManager.Admit, ProcessControl, SessionStreams.Apply, A.BindSession, A.MarkStale, A.SignOutbound,
      LiveStreams;
    if op.ToWorker? { WholeHasHeader(op.frame); SendTells(w, l, op.frame, notices); }
    SameStanding(l, RS.Apply(w, l, op), notices);
  }

  lemma SameStanding(l: Link, l': Link, notices: seq<Notice>)
    ensures Same(l, l') ==> AsSaid(l, notices) == AsSaid(l', notices)
  {
    hide SlotsSaid, CapsSaid;
  }

  lemma SendTells(w: World, l: Link, data: Bytes, notices: seq<Notice>)
    requires Told(l, notices)
    ensures Told(Send(w, l, data).0, notices)
  {
    hide R.WholeFrame, F.DecodeHeader, TerminateAll, Requests.Decode, Events.DecodeControl, R.Decode, AsSaid,
      SessionManager.Admit, ProcessControl, LiveStreams;
    WholeHasHeader(data);
    SameStanding(l, Send(w, l, data).0, notices);
  }

  lemma ReceiveTells(w: World, l: Link, data: Bytes, notices: seq<Notice>)
    requires Told(l, notices)
    ensures var o := Receive(w, l, data);
            Told(o.link, if o.answer.Refused? || NoticeIn(data).None? then notices
                         else if NoticeIn(data).value.Registers? then [NoticeIn(data).value]
                         else notices + [NoticeIn(data).value])
  {
    hide AsSaid, Moves, NoticeIn, Receive;
    var o, l1 := Receive(w, l, data), Sync(l);
    ReceiveMoves(w, l, data);
    SameStanding(l, l1, notices);
    SameStanding(l1, o.link, notices);
    ClosedReceives(w, l, data);
    if o.answer.Done? {
      if NoticeIn(data).Some? {
        NoticeTells(l1, o.link, notices, NoticeIn(data).value);
      } else {
        NothingMoves(l1, o.link);
      }
    }
  }

  lemma NothingMoves(l: Link, l': Link)
    ensures Moves(l, l', None) ==> Same(l, l')
  {
  }

  lemma {:induction false} LinksAreTold(w: World, ops: seq<Call>)
    ensures Told(RunAll(w, ops), Notices(w, ops))
  {
    hide Told, RS.Apply, Receive, NoticeIn;
    if ops == [] {
      BlankIsTold();
    } else {
      var before, op := ops[..|ops| - 1], ops[|ops| - 1];
      LinksAreTold(w, before);
      if op.FromWorker? {
        ReceiveTells(w, RunAll(w, before), op.data, Notices(w, before));
        AppliesReceive(w, RunAll(w, before), op);
      } else {
        OthersTell(w, RunAll(w, before), op, Notices(w, before));
      }
    }
  }

  lemma BlankIsTold()
    ensures Told(NEW_LINK, [])
  {
  }

  lemma AppliesReceive(w: World, l: Link, op: Call)
    requires op.FromWorker?
    ensures RS.Apply(w, l, op) == Receive(w, l, op.data).link
  {
    hide Receive;
  }

  /** In every run, a link that passes for registered has the slots and the capabilities its worker announced last
      since it registered, is draining exactly if the worker said so since then, and the worker has not left; and a
      link that is neither registered nor closed has no slots, offers nothing and does not drain. */
  lemma RegistrationIsAsAnnounced(w: World, ops: seq<Call>)
    ensures var l, notices := Sync(RunAll(w, ops)), Notices(w, ops);
            && (l.registered ==>
                  && notices != [] && notices[0].Registers? && Leaves !in notices
                  && l.slots == SlotsSaid(notices) && l.caps == CapsSaid(notices)
                  && (l.draining <==> Drains in notices))
            && (!l.registered && !l.closed ==> Blank(l))
  {
    hide RunAll, Notices, SlotsSaid, CapsSaid;
    LinksAreTold(w, ops);
  }

  // ---- Frames to the worker ----------------------------------------------------------------------------------

  /** A frame the router may send on a registered link: a request, a cancel, or a query for capabilities. */
  predicate Sendable(data: Bytes) {
    R.WholeFrame(data) && F.DecodeHeader(data).value.flags == 0 &&
    var kind := KindOf(data);
    || (kind == F.REQUEST && Requests.Decode(data).Some?)
    || (kind == F.CONTROL && Events.DecodeControl(data).Some? && Events.DecodeControl(data).value.kind == CANCEL)
    || (kind == F.RUNTIME_REGISTER && AsksCapabilities(data))
  }

  /** On a registered link a frame that may not be sent closes the link, and nothing else sent does; a cancel does
      what it does to its stream, and a query changes nothing. */
  lemma SendsExactly(w: World, l: Link, data: Bytes)
    ensures var (l', answer) := Send(w, l, data);
            && ((Sync(l).registered && !l.closed) || answer == Refused(401))
            && (Sync(l).registered && !l.closed ==>
                  && (l'.closed <==> !Sendable(data)) && (l'.closed ==> l' == Close(l) && answer == Refused(400))
                  && (Sendable(data) && KindOf(data) == F.CONTROL ==>
                        var (streams, done) := ProcessControl(l.streams, Events.DecodeControl(data).value);
                        l' == l.(streams := streams) && answer == done)
                  && (Sendable(data) && KindOf(data) == F.RUNTIME_REGISTER ==> l' == l && answer == Done))
  {
    hide R.WholeFrame, F.DecodeHeader, Requests.Decode, Events.DecodeControl, R.Decode, TerminateAll,
      SessionManager.Admit, ProcessControl, LiveStreams;
    WholeHasHeader(data);
  }

  /** Why a request does not go out: draining or no slot free, not offered, or what the session says. */
  lemma RequestsAreRefusedExactly(w: World, l: Link, data: Bytes)
    requires Sync(l).registered && !l.closed && Sendable(data) && KindOf(data) == F.REQUEST
    ensures var (l', answer), r := Send(w, l, data), Requests.Decode(data).value;
            var full := l.draining || |LiveStreams(l.streams)| >= l.slots;
            && (full ==> (l', answer) == (l, Refused(503)))
            && (!full && !(r.profile in l.caps.profiles && r.model in l.caps.models) ==>
                  (l', answer) == (l, Refused(403)))
            && (!full && r.profile in l.caps.profiles && r.model in l.caps.models ==>
                  (l'.streams, answer) == SessionManager.Admit(l.streams, w.rules, w.config, l.auth, r))
  {
    hide R.WholeFrame, F.DecodeHeader, Requests.Decode, TerminateAll, SessionManager.Admit, LiveStreams;
    WholeHasHeader(data);
  }
}
