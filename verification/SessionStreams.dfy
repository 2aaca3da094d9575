/** The streams of one session: their life cycle, their event numbers and their byte credit. Offsets and byte
    counts are 64-bit words and wrap as such. */
module SessionStreams {

  import opened Arithmetic
  import opened Basics
  import Counting
  import Events
  import Requests

  const MOD64: nat := 0x1_0000_0000_0000_0000

  // ---- Life cycle --------------------------------------------------------------------------------------------

  datatype State = Received | Accepted | Started | CancelRequested | Terminal

  const UNKNOWN: U8 := 0
  const COMPLETED: U8 := 1
  const CANCELLED: U8 := 2
  const FAILED: U8 := 3

  predicate CanTransition(s: State, next: State) {
    match s
    case Terminal => false
    case Received => next == Accepted || next == CancelRequested || next == Terminal
    case Accepted => next == Started || next == CancelRequested || next == Terminal
    case Started => next == CancelRequested || next == Terminal
    case CancelRequested => next == Terminal
  }

  /** Every stream that is not terminal can become so, and a terminal one never changes again: no path of
      transitions leads out of it. */
  lemma {:induction false} TerminalAbsorbs(path: seq<State>, i: nat)
    requires i < |path| && path[i] == Terminal
    requires forall k :: 0 <= k < |path| - 1 ==> path[k + 1] == path[k] || CanTransition(path[k], path[k + 1])
    ensures path[|path| - 1] == Terminal
    decreases |path| - i
  {
    if i < |path| - 1 {
      assert path[i + 1] == path[i] || CanTransition(path[i], path[i + 1]);
      TerminalAbsorbs(path, i + 1);
    }
  }

  // ---- Streams -----------------------------------------------------------------------------------------------

  datatype Stream = Stream(
    profile: U8,
    model: Bytes,
    state: State,
    outcome: U8,
    lastSeq: U64,
    produced: U64,
    acked: U64)
  {
    function Unacked(): U64 {
      if produced <= acked then 0 else produced - acked
    }

    predicate Live() { state != Terminal }
  }

  /** The limits of a session, and what it takes for a well-formed vision result. */
  datatype Rules = Rules(maxInflight: nat, maxBuffered: U64, visionValid: Events.Vision -> bool)

  /** The bytes an event adds to the buffer; an embedding counts four bytes a value. */
  function EventBytes(e: Events.Event): U64 {
    (|e.payload| + if e.kind == Events.EMBEDDING_RESULT then |e.embedding.vector| * 4 else 0) % MOD64
  }

  function FinalOutcome(e: Events.Event): U8 {
    if e.outcome != UNKNOWN then e.outcome
    else if e.kind == Events.CANCELLED then CANCELLED
    else if e.kind == Events.FAILED then FAILED
    else COMPLETED
  }

  type Streams = map<StreamId, Stream>

  function LiveStreams(m: Streams): set<StreamId> {
    set id | id in m && m[id].Live()
  }

  function Submit(m: Streams, rules: Rules, r: Requests.Request): (Streams, Answer) {
    if !r.Valid() then (m, Refused(400))
    else if r.stream in m then (m, Refused(409))
    else if |LiveStreams(m)| >= rules.maxInflight then (m, Refused(503))
    else (m[r.stream := Stream(r.profile, r.model, Accepted, UNKNOWN, 0, 0, 0)], Done)
  }

  function Advance(s: Stream, e: Events.Event): Stream {
    var produced := (s.produced + EventBytes(e)) % MOD64;
    if e.IsTerminal() then
      s.(state := Terminal, outcome := FinalOutcome(e), produced := produced, acked := produced, lastSeq := e.number)
    else
      s.(state := if s.state == Accepted then Started else s.state, produced := produced, lastSeq := e.number)
  }

  function Dispatch(m: Streams, rules: Rules, e: Events.Event): (Streams, Answer) {
    if !e.Valid(rules.visionValid) then (m, Refused(400))
    else if e.stream !in m then (m, Refused(404))
    else
      var s := m[e.stream];
      if s.state == Terminal then (m, Refused(410))
      else if e.number == 0 || e.number <= s.lastSeq then (m, Refused(422))
      else if (s.Unacked() + EventBytes(e)) % MOD64 > rules.maxBuffered then (m, Refused(507))
      else (m[e.stream := Advance(s, e)], Done)
  }

  function AckOffset(m: Streams, id: StreamId, offset: U64): (Streams, bool) {
    if id !in m then (m, false)
    else if offset <= m[id].acked then (m, true)
    else if offset > m[id].produced then (m, false)
    else (m[id := m[id].(acked := offset)], true)
  }

  function AckDrain(m: Streams, id: StreamId, bytes: U64): (Streams, bool) {
    if id !in m then (m, false)
    else
      var target := (m[id].acked + bytes) % MOD64;
      if target > m[id].produced then (m, false) else (m[id := m[id].(acked := target)], true)
  }

  function CancelOne(s: Stream): Stream {
    if s.state == Terminal || s.state == CancelRequested then s else s.(state := CancelRequested)
  }

  predicate Cancels(m: Streams, execution: U64, id: StreamId) {
    id in m && id.execution == execution && m[id].state != Terminal && m[id].state != CancelRequested
  }

  function CancelledBy(m: Streams, execution: U64): set<StreamId> {
    set id | id in m && Cancels(m, execution, id)
  }

  function CancelExecution(m: Streams, execution: U64): (Streams, nat) {
    if execution == 0 then (m, 0)
    else (map id | id in m :: if id.execution == execution then CancelOne(m[id]) else m[id],
          |CancelledBy(m, execution)|)
  }

  const CANCEL: U8 := 1
  const WINDOW_UPDATE: U8 := 2

  /** A control addresses one stream: a valid one names a request, so the source's wider execution scope is
      never used. */
  function ProcessControl(m: Streams, c: Events.Control): (Streams, Answer) {
    if !c.Valid() then (m, Refused(400))
    else if c.kind != CANCEL && c.kind != WINDOW_UPDATE then (m, Refused(400))
    else if c.stream !in m then (m, Refused(404))
    else if c.kind == CANCEL then
      if m[c.stream].state == Terminal then (m, Refused(410))
      else if m[c.stream].state == CancelRequested then (m, Refused(0))
      else (m[c.stream := CancelOne(m[c.stream])], Done)
    else if c.offset > m[c.stream].produced then (m, Refused(422))
    else if c.offset > m[c.stream].acked then (m[c.stream := m[c.stream].(acked := c.offset)], Done)
    else (m, Done)
  }

  function End(s: Stream, outcome: U8): Stream {
    if s.state == Terminal then s else s.(state := Terminal, outcome := outcome, acked := s.produced)
  }

  function TerminateAll(m: Streams, outcome: U8): Streams {
    map id | id in m :: End(m[id], outcome)
  }

  // ---- Runs --------------------------------------------------------------------------------------------------

  datatype Op =
    | DoSubmit(request: Requests.Request)
    | DoDispatch(event: Events.Event)
    | DoAckOffset(id: StreamId, offset: U64)
    | DoAckDrain(drained: StreamId, bytes: U64)
    | DoCancel(execution: U64)
    | DoControl(control: Events.Control)
    | DoTerminateAll(outcome: U8)

  function Apply(m: Streams, rules: Rules, op: Op): Streams {
    match op
    case DoSubmit(r) => Submit(m, rules, r).0
    case DoDispatch(e) => Dispatch(m, rules, e).0
    case DoAckOffset(id, offset) => AckOffset(m, id, offset).0
    case DoAckDrain(id, bytes) => AckDrain(m, id, bytes).0
    case DoCancel(x) => CancelExecution(m, x).0
    case DoControl(c) => ProcessControl(m, c).0
    case DoTerminateAll(outcome) => TerminateAll(m, outcome)
  }

  function ApplyAll(rules: Rules, ops: seq<Op>): Streams {
    if ops == [] then map[] else Apply(ApplyAll(rules, ops[..|ops| - 1]), rules, ops[|ops| - 1])
  }

  /** The operation stays below 2^64 on the counters it adds to: a caller can check it beforehand. */
  predicate NoWrap(m: Streams, op: Op) {
    match op
    case DoDispatch(e) => e.stream in m ==> m[e.stream].produced + EventBytes(e) < MOD64
    case DoAckDrain(id, bytes) => id in m ==> m[id].acked + bytes < MOD64
    case _ => true
  }

  predicate NeverWraps(rules: Rules, ops: seq<Op>) {
    forall i :: 0 <= i < |ops| ==> NoWrap(ApplyAll(rules, ops[..i]), ops[i])
  }

  predicate StreamOk(s: Stream, rules: Rules) {
    && s.acked <= s.produced && s.produced - s.acked <= rules.maxBuffered
    && (s.state == Terminal ==> s.acked == s.produced) && s.state != Received
  }

  predicate Sound(m: Streams, rules: Rules) {
    && (forall id :: id in m ==> StreamOk(m[id], rules))
    && |LiveStreams(m)| <= rules.maxInflight
  }

  lemma OpKeepsStreams(m: Streams, rules: Rules, op: Op)
    requires Sound(m, rules) && NoWrap(m, op)
    ensures forall id :: id in Apply(m, rules, op) ==> StreamOk(Apply(m, rules, op)[id], rules)
  {
    hide LiveStreams, EventBytes, FinalOutcome, Requests.Request.Valid, Events.Event.Valid, Events.Control.Valid;
    forall id | id in Apply(m, rules, op) ensures StreamOk(Apply(m, rules, op)[id], rules) {
      if id in m { assert StreamOk(m[id], rules); }
    }
  }

  /** Only an admitted request adds a live stream. */
  lemma LiveAlready(m: Streams, rules: Rules, op: Op, id: StreamId)
    requires !(op.DoSubmit? && Submit(m, rules, op.request).1.Done?)
    requires id in Apply(m, rules, op) && Apply(m, rules, op)[id].Live()
    ensures id in m && m[id].Live()
  {
    hide LiveStreams;
  }

  lemma AdmissionAddsOne(m: Streams, rules: Rules, r: Requests.Request)
    requires Submit(m, rules, r).1.Done?
    ensures |LiveStreams(Submit(m, rules, r).0)| == |LiveStreams(m)| + 1 <= rules.maxInflight
  {
    assert LiveStreams(Submit(m, rules, r).0) == LiveStreams(m) + {r.stream};
  }

  lemma OpKeepsInflight(m: Streams, rules: Rules, op: Op)
    requires |LiveStreams(m)| <= rules.maxInflight
    ensures |LiveStreams(Apply(m, rules, op))| <= rules.maxInflight
  {
    hide Apply, Submit, StreamOk;
    var m' := Apply(m, rules, op);
    if op.DoSubmit? && Submit(m, rules, op.request).1.Done? {
      AdmissionAddsOne(m, rules, op.request);
      assert m' == Submit(m, rules, op.request).0 by { SubmitApplies(m, rules, op); }
    } else {
      forall id | id in LiveStreams(m') ensures id in LiveStreams(m) { LiveAlready(m, rules, op, id); }
      Counting.SubsetSize(LiveStreams(m'), LiveStreams(m));
    }
  }

  lemma SubmitApplies(m: Streams, rules: Rules, op: Op)
    requires op.DoSubmit?
    ensures Apply(m, rules, op) == Submit(m, rules, op.request).0
  {
  }

  /** In every session whose counters do not wrap: no stream acknowledges more than it produced, none has more
      unacknowledged bytes than the limit, a terminal one has none, and never are more streams live than the
      in-flight limit. */
  lemma {:induction false} SessionsStaySound(rules: Rules, ops: seq<Op>)
    requires NeverWraps(rules, ops)
    ensures Sound(ApplyAll(rules, ops), rules)
  {
    if ops != [] {
      var before := ops[..|ops| - 1];
      forall i | 0 <= i < |before| ensures NoWrap(ApplyAll(rules, before[..i]), before[i]) {
        assert before[..i] == ops[..i];
      }
      SessionsStaySound(rules, before);
      OpKeepsStreams(ApplyAll(rules, before), rules, ops[|ops| - 1]);
      OpKeepsInflight(ApplyAll(rules, before), rules, ops[|ops| - 1]);
    } else {
      assert LiveStreams(map[]) == {};
    }
  }

  // ---- What wrapping would do --------------------------------------------------------------------------------

  /** A drain moves the acknowledged offset backwards exactly when its 64-bit sum wraps to an offset the stream
      has produced. */
  lemma DrainFallsExactlyWhenItWraps(m: Streams, id: StreamId, bytes: U64)
    requires id in m
    ensures AckDrain(m, id, bytes).0[id].acked < m[id].acked <==>
            MOD64 <= m[id].acked + bytes <= MOD64 + m[id].produced
  {
    var sum := m[id].acked + bytes;
    if sum >= MOD64 { assert sum % MOD64 == sum - MOD64; }
  }

  const SOME_ID := StreamId(1, 1, 0)
  const SOME_REQUEST := Requests.Request(SOME_ID, 1, [0x6D], [], 0, 0, true, false, Requests.DEFAULTS)

  /** A piece of output of one byte. */
  const SOME_EVENT :=
    Events.Event(SOME_ID, 1, 1, UNKNOWN, 0, 0, [], [], [0x78], 0, Events.NO_EMBEDDING, Events.NO_VISION)

  /** Such a drain happens in any session that admits a request and a byte: one byte is produced and acknowledged, and
      then 2^64 - 1 more are to be drained. */
  lemma ADrainThatFalls(rules: Rules)
    requires rules.maxInflight > 0 && rules.maxBuffered > 0
    ensures var m := ApplyAll(rules, [DoSubmit(SOME_REQUEST), DoDispatch(SOME_EVENT), DoAckOffset(SOME_ID, 1)]);
            && SOME_ID in m && m[SOME_ID].acked == 1
            && AckDrain(m, SOME_ID, MOD64 - 1) == (m[SOME_ID := m[SOME_ID].(acked := 0)], true)
  {
    hide Apply;
    ApplyThree(rules, DoSubmit(SOME_REQUEST), DoDispatch(SOME_EVENT), DoAckOffset(SOME_ID, 1));
    ProducesOneByte(rules);
  }

  lemma ApplyThree(rules: Rules, a: Op, b: Op, c: Op)
    ensures ApplyAll(rules, [a, b, c]) == Apply(Apply(Apply(map[], rules, a), rules, b), rules, c)
  {
    hide Apply;
    assert [a, b, c][..2] == [a, b] && [a, b][..1] == [a] && [a][..0] == [];
    assert ApplyAll(rules, [a]) == Apply(map[], rules, a);
    assert ApplyAll(rules, [a, b]) == Apply(ApplyAll(rules, [a]), rules, b);
  }

  lemma ProducesOneByte(rules: Rules)
    requires rules.maxInflight > 0 && rules.maxBuffered > 0
    ensures Apply(Apply(Apply(map[], rules, DoSubmit(SOME_REQUEST)), rules, DoDispatch(SOME_EVENT)), rules,
                  DoAckOffset(SOME_ID, 1)) ==
            map[SOME_ID := Stream(1, [0x6D], Started, UNKNOWN, 1, 1, 1)]
  {
    assert LiveStreams(map[]) == {};
    assert EventBytes(SOME_EVENT) == 1;
    var fresh0 := Stream(1, [0x6D], Accepted, UNKNOWN, 0, 0, 0);
    assert Apply(map[], rules, DoSubmit(SOME_REQUEST)) == map[SOME_ID := fresh0];
    assert Apply(map[SOME_ID := fresh0], rules, DoDispatch(SOME_EVENT)) ==
           map[SOME_ID := Stream(1, [0x6D], Started, UNKNOWN, 1, 1, 0)];
  }

  /** An accepted event that does not end the stream keeps the acknowledged offset within the produced one
      exactly when the produced count does not wrap, or the buffer sum wraps with it. */
  lemma EventKeepsOffsetsExactly(m: Streams, rules: Rules, e: Events.Event)
    requires e.stream in m && StreamOk(m[e.stream], rules)
    requires Dispatch(m, rules, e).1.Done? && !e.IsTerminal()
    ensures var s, s' := m[e.stream], Dispatch(m, rules, e).0[e.stream];
            s'.acked <= s'.produced <==> (s.produced + EventBytes(e) < MOD64 || s.Unacked() + EventBytes(e) >= MOD64)
  {
    var s := m[e.stream];
    var sum := s.produced + EventBytes(e);
    if sum >= MOD64 { assert sum % MOD64 == sum - MOD64; }
  }

  // ---- Events ------------------------------------------------------------------------------------------------

  /** The events the session accepted, in order. */
  function AcceptedEvents(rules: Rules, ops: seq<Op>): seq<Events.Event> {
    if ops == [] then []
    else
      var earlier, op := AcceptedEvents(rules, ops[..|ops| - 1]), ops[|ops| - 1];
      if op.DoDispatch? && Dispatch(ApplyAll(rules, ops[..|ops| - 1]), rules, op.event).1.Done?
      then earlier + [op.event] else earlier
  }

  /** A stream remembers the last number it accepted, and that it has ended. */
  predicate Remembers(m: Streams, e: Events.Event) {
    e.stream in m && 0 < e.number <= m[e.stream].lastSeq && (e.IsTerminal() ==> m[e.stream].state == Terminal)
  }

  lemma OpRemembers(m: Streams, rules: Rules, op: Op, e: Events.Event)
    requires Remembers(m, e)
    ensures Remembers(Apply(m, rules, op), e)
  {
  }

  lemma {:induction false} SessionRemembers(rules: Rules, ops: seq<Op>)
    ensures forall e :: e in AcceptedEvents(rules, ops) ==> Remembers(ApplyAll(rules, ops), e)
  {
    if ops != [] {
      var m, op := ApplyAll(rules, ops[..|ops| - 1]), ops[|ops| - 1];
      SessionRemembers(rules, ops[..|ops| - 1]);
      forall e | e in AcceptedEvents(rules, ops) ensures Remembers(Apply(m, rules, op), e) {
        if e in AcceptedEvents(rules, ops[..|ops| - 1]) { OpRemembers(m, rules, op, e); }
      }
    }
  }

  /** On every stream the accepted event numbers strictly increase and the terminal event is the last one,
      whatever else happens in the session and even if counters wrap. */
  lemma {:induction false} EventsAreOrdered(rules: Rules, ops: seq<Op>, i: nat, j: nat)
    requires i < j < |AcceptedEvents(rules, ops)|
    requires AcceptedEvents(rules, ops)[i].stream == AcceptedEvents(rules, ops)[j].stream
    ensures AcceptedEvents(rules, ops)[i].number < AcceptedEvents(rules, ops)[j].number
    ensures !AcceptedEvents(rules, ops)[i].IsTerminal()
  {
    var before := ops[..|ops| - 1];
    if j < |AcceptedEvents(rules, before)| {
      EventsAreOrdered(rules, before, i, j);
    } else {
      SessionRemembers(rules, before);
      assert Remembers(ApplyAll(rules, before), AcceptedEvents(rules, before)[i]);
    }
  }

  /** A refused operation leaves every stream as it was. */
  lemma RefusalChangesNothing(m: Streams, rules: Rules, op: Op)
    ensures op.DoSubmit? && Submit(m, rules, op.request).1.Refused? ==> Apply(m, rules, op) == m
    ensures op.DoDispatch? && Dispatch(m, rules, op.event).1.Refused? ==> Apply(m, rules, op) == m
    ensures op.DoControl? && ProcessControl(m, op.control).1.Refused? ==> Apply(m, rules, op) == m
    ensures op.DoAckOffset? && !AckOffset(m, op.id, op.offset).1 ==> Apply(m, rules, op) == m
    ensures op.DoAckDrain? && !AckDrain(m, op.drained, op.bytes).1 ==> Apply(m, rules, op) == m
    ensures op.DoCancel? && CancelExecution(m, op.execution).1 == 0 ==> Apply(m, rules, op) == m
  {
    if op.DoCancel? && op.execution != 0 && CancelExecution(m, op.execution).1 == 0 {
      forall id | id in m ensures Apply(m, rules, op)[id] == m[id] {
        assert id !in CancelledBy(m, op.execution);
      }
    }
  }
}
