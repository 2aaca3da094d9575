/** What the streams of a session have to do with its history: a stream's state, outcome, byte count and credit are told
    by the operations the session saw, without asking how any of them works. */
module StreamHistories {

  import opened Arithmetic
  import opened Basics
  import Events
  import Requests
  import opened SessionStreams

  // ---- One operation -----------------------------------------------------------------------------------------

  /** A request is admitted exactly when it is valid, its stream is new and the limit is not reached; it then starts a
      stream with all its credit and touches no other. */
  lemma AdmitsExactly(m: Streams, rules: Rules, r: Requests.Request)
    ensures var (m', answer) := Submit(m, rules, r);
            && (answer.Done? <==> r.Valid() && r.stream !in m && |LiveStreams(m)| < rules.maxInflight)
            && (answer.Done? ==> && m'.Keys == m.Keys + {r.stream} && m'[r.stream].state == Accepted
                                 && m'[r.stream].profile == r.profile && m'[r.stream].model == r.model
                                 && m'[r.stream].lastSeq == m'[r.stream].produced == m'[r.stream].acked == 0
                                 && m'[r.stream].outcome == UNKNOWN && OthersKept(m, m', r.stream))
            && (answer == Refused(400) <==> !r.Valid())
            && (answer == Refused(409) <==> r.Valid() && r.stream in m)
            && (answer.Refused? && answer.code !in {400, 409} ==> answer.code == 503)
  {
    hide LiveStreams, Requests.Request.Valid;
  }

  predicate OthersKept(m: Streams, m': Streams, id: StreamId) {
    forall other :: other in m && other != id ==> other in m' && m'[other] == m[other]
  }

  /** The event would be the next of its stream and fits its buffer. */
  predicate Acceptable(m: Streams, rules: Rules, e: Events.Event) {
    && e.Valid(rules.visionValid) && e.stream in m && m[e.stream].Live()
    && e.number > m[e.stream].lastSeq
    && (Max(m[e.stream].produced - m[e.stream].acked, 0) + Weight(e)) % MOD64 <= rules.maxBuffered
  }

  /** What an event weighs: its payload and four bytes for each value of an embedding. */
  function Weight(e: Events.Event): nat {
    |e.payload| + if e.kind == Events.EMBEDDING_RESULT then 4 * |e.embedding.vector| else 0
  }

  lemma Fits(s: Stream, e: Events.Event)
    ensures EventBytes(e) == Weight(e) % MOD64
    ensures (s.Unacked() + EventBytes(e)) % MOD64 == (Max(s.produced - s.acked, 0) + Weight(e)) % MOD64
  {
    AddsModulo(Weight(e), s.Unacked());
  }

  lemma DispatchesExactly(m: Streams, rules: Rules, e: Events.Event)
    ensures var (m', answer) := Dispatch(m, rules, e);
            && (answer.Done? <==> Acceptable(m, rules, e))
            && (answer == Refused(400) <==> !e.Valid(rules.visionValid))
            && (answer == Refused(404) <==> e.Valid(rules.visionValid) && e.stream !in m)
            && (answer == Refused(410) <==> e.Valid(rules.visionValid) && e.stream in m && !m[e.stream].Live())
            && (answer == Refused(422) <==> && e.Valid(rules.visionValid) && e.stream in m && m[e.stream].Live()
                                            && e.number <= m[e.stream].lastSeq)
            && (answer.Refused? && answer.code !in {400, 404, 410, 422} ==> answer.code == 507)
            && m'.Keys == m.Keys && OthersKept(m, m', e.stream)
            && (answer.Done? ==> m'[e.stream].lastSeq == e.number
                                 && m'[e.stream].profile == m[e.stream].profile
                                 && m'[e.stream].model == m[e.stream].model)
  {
    hide EventBytes, FinalOutcome, Stream.Unacked, Events.Event.Valid, Events.Event.IsTerminal, Weight, Max;
    if e.stream in m { Fits(m[e.stream], e); }
  }

  /** How a stream's credit moves: an offset acknowledgement or a window update within what was produced raises the
      offset to the announced one and never lowers it, a drain adds to it, and an end of the stream settles it. */
  lemma CreditMovesExactly(m: Streams, rules: Rules, op: Op, id: StreamId)
    requires id in m
    ensures var s, s' := m[id], Apply(m, rules, op)[id];
            && (op.DoAckOffset? && op.id == id ==>
                  && AckOffset(m, id, op.offset).1 == (op.offset <= s.produced || op.offset <= s.acked)
                  && s'.acked == if AckOffset(m, id, op.offset).1 then Max(s.acked, op.offset) else s.acked)
            && (op.DoAckDrain? && op.drained == id && s.acked + op.bytes < MOD64 ==>
                  && AckDrain(m, id, op.bytes).1 == (s.acked + op.bytes <= s.produced)
                  && s'.acked == if AckDrain(m, id, op.bytes).1 then s.acked + op.bytes else s.acked)
            && (op.DoControl? && Updates(op.control, id) ==>
                  && ProcessControl(m, op.control).1 == (if op.control.offset <= s.produced then Done else Refused(422))
                  && s'.acked == if op.control.offset <= s.produced then Max(s.acked, op.control.offset) else s.acked)
            && (Settles(m, rules, op, id) ==> s'.acked == s'.produced)
            && (!MovesCredit(m, rules, op, id) ==> s'.acked == s.acked)
  {
    hide EventBytes, FinalOutcome, Stream.Unacked, Events.Event.Valid, LiveStreams, Requests.Request.Valid, Weight;
    EventFits(m, op);
  }

  /** An event fits exactly if it does by its weight. */
  lemma EventFits(m: Streams, op: Op)
    ensures op.DoDispatch? && op.event.stream in m ==>
              var s := m[op.event.stream];
              (s.Unacked() + EventBytes(op.event)) % MOD64 ==
              (Max(s.produced - s.acked, 0) + Weight(op.event)) % MOD64
  {
    if op.DoDispatch? && op.event.stream in m { Fits(m[op.event.stream], op.event); }
  }

  function Max(a: int, b: int): int { if a < b then b else a }

  predicate Updates(c: Events.Control, id: StreamId) {
    c.Valid() && c.kind == WINDOW_UPDATE && c.stream == id
  }

  predicate Settles(m: Streams, rules: Rules, op: Op, id: StreamId) {
    id in m && m[id].Live() && Ends(m, rules, op, id)
  }

  predicate MovesCredit(m: Streams, rules: Rules, op: Op, id: StreamId) {
    || (op.DoAckOffset? && op.id == id) || (op.DoAckDrain? && op.drained == id)
    || (op.DoControl? && Updates(op.control, id)) || Settles(m, rules, op, id)
  }

  /** A refused acknowledgement is one for an unknown stream or beyond what was produced. */
  lemma UnknownStreamsAreRefused(m: Streams, id: StreamId, n: U64)
    ensures id !in m ==> AckOffset(m, id, n) == (m, false) && AckDrain(m, id, n) == (m, false)
    ensures AckOffset(m, id, n).0.Keys == AckDrain(m, id, n).0.Keys == m.Keys
    ensures OthersKept(m, AckOffset(m, id, n).0, id) && OthersKept(m, AckDrain(m, id, n).0, id)
  {
  }

  /** A cancel cancels: afterwards every live stream of the execution is to be cancelled, nothing else about it has
      changed and no other stream has; the count returned is the number of streams that changed. An execution number
      of zero names nothing. */
  lemma CancelCancels(m: Streams, x: U64)
    ensures var (m', count) := CancelExecution(m, x);
            && m'.Keys == m.Keys
            && (forall id :: id in m && InExecution(id, x) && m[id].Live() ==>
                  m'[id] == m[id].(state := CancelRequested))
            && (forall id :: id in m && !(InExecution(id, x) && m[id].Live()) ==> m'[id] == m[id])
            && count == |Changed(m, m')|
  {
    var (m', count) := CancelExecution(m, x);
    assert Changed(m, m') == if x == 0 then {} else CancelledBy(m, x);
  }

  predicate InExecution(id: StreamId, x: U64) { x != 0 && id.execution == x }

  function Changed(m: Streams, m': Streams): set<StreamId> {
    set id | id in m && id in m' && m'[id] != m[id]
  }

  /** A cancelling control is taken exactly when its stream is there, has not ended and is not being cancelled yet. */
  lemma ControlCancelsExactly(m: Streams, c: Events.Control)
    requires c.Valid()
    ensures var (m', answer) := ProcessControl(m, c);
            && (answer == Refused(400) <==> c.kind != CANCEL && c.kind != WINDOW_UPDATE)
            && (answer == Refused(404) <==> (c.kind == CANCEL || c.kind == WINDOW_UPDATE) && c.stream !in m)
            && OthersKept(m, m', c.stream) && m'.Keys == m.Keys
            && (c.kind == CANCEL && c.stream in m ==>
                  && (answer == Refused(410) <==> !m[c.stream].Live())
                  && (answer == Refused(0) <==> m[c.stream].state == CancelRequested)
                  && (answer == Done <==> m[c.stream].state !in {Terminal, CancelRequested})
                  && (m[c.stream].Live() ==> m'[c.stream] == m[c.stream].(state := CancelRequested)))
  {
  }

  /** The life cycle goes forward: the next state, or at once to be cancelled or at an end. */
  lemma TransitionsGoForward(s: State, next: State)
    ensures CanTransition(s, next) <==>
            Rank(next) == Rank(s) + 1 || (Rank(next) > Rank(s) && (next == CancelRequested || next == Terminal))
  {
  }

  function Rank(s: State): nat {
    match s case Received => 0 case Accepted => 1 case Started => 2 case CancelRequested => 3 case Terminal => 4
  }

  lemma OperationsFollowTheCycle(m: Streams, rules: Rules, op: Op, id: StreamId)
    requires id in m && m[id].state != Received && id in Apply(m, rules, op)
    ensures Apply(m, rules, op)[id].state == m[id].state || CanTransition(m[id].state, Apply(m, rules, op)[id].state)
  {
    hide Apply, Ends, AsksToCancel, Feeds;
    StateMoves(m, rules, op, id);
  }

  // ---- Histories ---------------------------------------------------------------------------------------------

  /** The operation ends the stream, if it has not ended yet. */
  predicate Ends(m: Streams, rules: Rules, op: Op, id: StreamId) {
    || (op.DoDispatch? && op.event.stream == id && op.event.IsTerminal() && Acceptable(m, rules, op.event))
    || op.DoTerminateAll?
  }

  /** The outcome such an operation announces: the event's own, or else the one its kind stands for. */
  function Announces(op: Op): U8 {
    if op.DoTerminateAll? then op.outcome
    else if !op.DoDispatch? then UNKNOWN
    else if op.event.outcome != UNKNOWN then op.event.outcome
    else if op.event.kind == Events.CANCELLED then CANCELLED
    else if op.event.kind == Events.FAILED then FAILED
    else COMPLETED
  }

  /** The operation asks for the stream to be cancelled. */
  predicate AsksToCancel(op: Op, id: StreamId) {
    || (op.DoCancel? && InExecution(id, op.execution))
    || (op.DoControl? && op.control.Valid() && op.control.kind == CANCEL && op.control.stream == id)
  }

  /** The operation is an event the stream takes. */
  predicate Feeds(m: Streams, rules: Rules, op: Op, id: StreamId) {
    op.DoDispatch? && op.event.stream == id && Acceptable(m, rules, op.event)
  }

  /** Before the given step the stream was there. */
  predicate Known(rules: Rules, ops: seq<Op>, i: nat, id: StreamId)
    requires i <= |ops|
  {
    id in ApplyAll(rules, ops[..i])
  }

  predicate EndedAt(rules: Rules, ops: seq<Op>, i: nat, id: StreamId)
    requires i < |ops|
  {
    Known(rules, ops, i, id) && Ends(ApplyAll(rules, ops[..i]), rules, ops[i], id)
  }

  predicate CancelledAt(rules: Rules, ops: seq<Op>, i: nat, id: StreamId)
    requires i < |ops|
  {
    Known(rules, ops, i, id) && AsksToCancel(ops[i], id)
  }

  predicate FedAt(rules: Rules, ops: seq<Op>, i: nat, id: StreamId)
    requires i < |ops|
  {
    Feeds(ApplyAll(rules, ops[..i]), rules, ops[i], id)
  }

  predicate Ended(rules: Rules, ops: seq<Op>, id: StreamId) {
    exists i: nat :: i < |ops| && EndedAt(rules, ops, i, id)
  }

  predicate Cancelled(rules: Rules, ops: seq<Op>, id: StreamId) {
    exists i: nat :: i < |ops| && CancelledAt(rules, ops, i, id)
  }

  predicate Fed(rules: Rules, ops: seq<Op>, id: StreamId) {
    exists i: nat :: i < |ops| && FedAt(rules, ops, i, id)
  }

  /** The state a history leaves a stream in. */
  function StateOf(ended: bool, cancelled: bool, fed: bool): State {
    if ended then Terminal else if cancelled then CancelRequested else if fed then Started else Accepted
  }

  /** In every session, a stream has ended exactly if a terminal event of it was accepted or all streams were ended
      while it was there; else it is to be cancelled exactly if it was asked for; else it is started exactly if an
      event of it was accepted. */
  lemma {:induction false} HistoryTellsState(rules: Rules, ops: seq<Op>, id: StreamId)
    requires id in ApplyAll(rules, ops)
    ensures ApplyAll(rules, ops)[id].state ==
            StateOf(Ended(rules, ops, id), Cancelled(rules, ops, id), Fed(rules, ops, id))
  {
    hide Ended, Cancelled, Fed, Apply, Ends, AsksToCancel, Feeds;
    var before, op := ops[..|ops| - 1], ops[|ops| - 1];
    var m := ApplyAll(rules, before);
    HistoryGrows(rules, before, op, id);
    assert before + [op] == ops;
    if id in m {
      HistoryTellsState(rules, before, id);
      StateMoves(m, rules, op, id);
    } else {
      NothingBefore(rules, before, id);
      Arrives(m, rules, op, id);
    }
  }

  /** One more operation adds what it does itself to what happened before. */
  lemma HistoryGrows(rules: Rules, before: seq<Op>, op: Op, id: StreamId)
    ensures var m, ops := ApplyAll(rules, before), before + [op];
            && Ended(rules, ops, id) == (Ended(rules, before, id) || (id in m && Ends(m, rules, op, id)))
            && Cancelled(rules, ops, id) == (Cancelled(rules, before, id) || (id in m && AsksToCancel(op, id)))
            && Fed(rules, ops, id) == (Fed(rules, before, id) || Feeds(m, rules, op, id))
  {
    hide Ends, AsksToCancel, Feeds, ApplyAll;
    var ops := before + [op];
    forall i: nat | i < |before|
      ensures EndedAt(rules, ops, i, id) == EndedAt(rules, before, i, id)
      ensures CancelledAt(rules, ops, i, id) == CancelledAt(rules, before, i, id)
      ensures FedAt(rules, ops, i, id) == FedAt(rules, before, i, id)
    {
      assert ops[..i] == before[..i];
    }
    assert ops[..|before|] == before;
    var last, m := |before|, ApplyAll(rules, before);
    assert EndedAt(rules, ops, last, id) == (id in m && Ends(m, rules, op, id));
    assert CancelledAt(rules, ops, last, id) == (id in m && AsksToCancel(op, id));
    assert FedAt(rules, ops, last, id) == Feeds(m, rules, op, id);
  }

  lemma StateMoves(m: Streams, rules: Rules, op: Op, id: StreamId)
    requires id in m && m[id].state != Received
    ensures id in Apply(m, rules, op)
    ensures Apply(m, rules, op)[id].state ==
            if m[id].state == Terminal || Ends(m, rules, op, id) then Terminal
            else if m[id].state == CancelRequested || AsksToCancel(op, id) then CancelRequested
            else if m[id].state == Started || Feeds(m, rules, op, id) then Started
            else Accepted
    ensures Feeds(m, rules, op, id) ==> m[id].state != Terminal
  {
    hide EventBytes, FinalOutcome, Stream.Unacked, Events.Event.Valid, LiveStreams, Requests.Request.Valid,
      Events.Control.Valid, Events.Event.IsTerminal, Weight, Max;
    EventFits(m, op);
  }

  /** A stream that appears is an admitted one. */
  lemma Arrives(m: Streams, rules: Rules, op: Op, id: StreamId)
    requires id !in m && id in Apply(m, rules, op)
    ensures Apply(m, rules, op)[id].state == Accepted && Apply(m, rules, op)[id].outcome == UNKNOWN
    ensures Apply(m, rules, op)[id].produced == Apply(m, rules, op)[id].acked == 0
    ensures !Feeds(m, rules, op, id)
  {
    hide EventBytes, FinalOutcome, Events.Event.Valid, LiveStreams, Requests.Request.Valid, Events.Control.Valid;
  }

  /** Streams stay: one that is not there has no history. */
  lemma {:induction false} NothingBefore(rules: Rules, ops: seq<Op>, id: StreamId)
    requires id !in ApplyAll(rules, ops)
    ensures !Ended(rules, ops, id) && !Cancelled(rules, ops, id) && !Fed(rules, ops, id)
  {
    hide Ends, AsksToCancel, Apply;
    forall i: nat | i < |ops| ensures !Known(rules, ops, i, id) && !FedAt(rules, ops, i, id) {
      StaysKnown(rules, ops, i, id);
    }
  }

  lemma {:induction false} StaysKnown(rules: Rules, ops: seq<Op>, i: nat, id: StreamId)
    requires i <= |ops| && id !in ApplyAll(rules, ops)
    ensures !Known(rules, ops, i, id)
  {
    hide Apply;
    if i < |ops| {
      KeysStay(ApplyAll(rules, ops[..|ops| - 1]), rules, ops[|ops| - 1]);
      StaysKnown(rules, ops[..|ops| - 1], i, id);
      assert ops[..|ops| - 1][..i] == ops[..i];
    } else {
      assert ops[..i] == ops;
    }
  }

  lemma KeysStay(m: Streams, rules: Rules, op: Op)
    ensures m.Keys <= Apply(m, rules, op).Keys
  {
    hide EventBytes, FinalOutcome, Events.Event.Valid, LiveStreams, Requests.Request.Valid, Events.Control.Valid;
  }

  // ---- Outcomes and bytes ------------------------------------------------------------------------------------

  /** The step is the first that ended the stream. */
  predicate FirstEnd(rules: Rules, ops: seq<Op>, i: nat, id: StreamId)
    requires i < |ops|
  {
    EndedAt(rules, ops, i, id) && !Ended(rules, ops[..i], id)
  }

  /** In every session a stream that ended has the outcome the first operation that ended it announced, and one that has
      not ended has none. */
  lemma {:induction false} HistoryTellsOutcome(rules: Rules, ops: seq<Op>, id: StreamId)
    requires id in ApplyAll(rules, ops)
    ensures !Ended(rules, ops, id) ==> ApplyAll(rules, ops)[id].outcome == UNKNOWN
    ensures forall i: nat :: i < |ops| && FirstEnd(rules, ops, i, id) ==>
              ApplyAll(rules, ops)[id].outcome == Announces(ops[i])
  {
    hide Ended, Cancelled, Fed, Apply, Ends, EndedAt, Announces;
    var before, op := ops[..|ops| - 1], ops[|ops| - 1];
    var m := ApplyAll(rules, before);
    HistoryGrows(rules, before, op, id);
    assert before + [op] == ops;
    if id in m {
      HistoryTellsState(rules, before, id);
      HistoryTellsOutcome(rules, before, id);
      OutcomeMoves(m, rules, op, id);
      forall i: nat | i < |ops| && FirstEnd(rules, ops, i, id)
        ensures ApplyAll(rules, ops)[id].outcome == Announces(ops[i])
      {
        if i < |before| {
          EarlierEnd(rules, ops, i, id);
        } else {
          LastEnd(rules, ops, id);
        }
      }
    } else {
      NothingBefore(rules, before, id);
      Arrives(m, rules, op, id);
      forall i: nat | i < |ops| ensures !EndedAt(rules, ops, i, id) { NotThere(rules, ops, i, id); }
    }
  }

  lemma OutcomeMoves(m: Streams, rules: Rules, op: Op, id: StreamId)
    requires id in m
    ensures id in Apply(m, rules, op)
    ensures Apply(m, rules, op)[id].outcome ==
            if m[id].state != Terminal && Ends(m, rules, op, id) then Announces(op) else m[id].outcome
  {
    hide EventBytes, Stream.Unacked, Events.Event.Valid, LiveStreams, Requests.Request.Valid, Events.Control.Valid,
      Events.Event.IsTerminal, Weight, Max;
    EventFits(m, op);
  }

  lemma EarlierEnd(rules: Rules, ops: seq<Op>, i: nat, id: StreamId)
    requires i < |ops| - 1 && FirstEnd(rules, ops, i, id)
    ensures FirstEnd(rules, ops[..|ops| - 1], i, id) && Ended(rules, ops[..|ops| - 1], id)
  {
    hide Ends, ApplyAll;
    var before := ops[..|ops| - 1];
    assert before[..i] == ops[..i];
    assert EndedAt(rules, before, i, id);
  }

  lemma LastEnd(rules: Rules, ops: seq<Op>, id: StreamId)
    requires ops != [] && FirstEnd(rules, ops, |ops| - 1, id)
    ensures !Ended(rules, ops[..|ops| - 1], id)
    ensures Ends(ApplyAll(rules, ops[..|ops| - 1]), rules, ops[|ops| - 1], id)
  {
    hide Ends, ApplyAll, Ended;
  }

  lemma NotThere(rules: Rules, ops: seq<Op>, i: nat, id: StreamId)
    requires i < |ops| && id !in ApplyAll(rules, ops[..|ops| - 1])
    ensures !EndedAt(rules, ops, i, id)
  {
    hide Ends, ApplyAll;
    StaysKnown(rules, ops[..|ops| - 1], i, id);
    assert ops[..|ops| - 1][..i] == ops[..i];
  }

  /** The bytes of the stream's events among those given. */
  function BytesOf(events: seq<Events.Event>, id: StreamId): nat {
    if events == [] then 0
    else
      var last := events[|events| - 1];
      BytesOf(events[..|events| - 1], id) + if last.stream == id then Weight(last) else 0
  }

  /** In every session the bytes a stream has produced are those of the events accepted for it, modulo 2^64. */
  lemma {:induction false} BytesAreConserved(rules: Rules, ops: seq<Op>, id: StreamId)
    ensures id in ApplyAll(rules, ops) ==>
              ApplyAll(rules, ops)[id].produced == BytesOf(AcceptedEvents(rules, ops), id) % MOD64
    ensures id !in ApplyAll(rules, ops) ==> BytesOf(AcceptedEvents(rules, ops), id) == 0
  {
    hide Apply, EventBytes, Weight;
    if ops != [] {
      var before, op := ops[..|ops| - 1], ops[|ops| - 1];
      BytesAreConserved(rules, before, id);
      BytesMove(ApplyAll(rules, before), rules, op, id);
      var earlier, now := AcceptedEvents(rules, before), AcceptedEvents(rules, ops);
      if now != earlier {
        assert now == earlier + [op.event] && now[..|now| - 1] == earlier;
        if op.event.stream == id {
          var produced := BytesOf(earlier, id) % MOD64;
          assert EventBytes(op.event) == Weight(op.event) % MOD64 by {
            Fits(Stream(0, [], Accepted, 0, 0, 0, 0), op.event);
          }
          AddsModulo(Weight(op.event), produced);
          AddsModulo(BytesOf(earlier, id), Weight(op.event));
        }
      }
    }
  }

  lemma BytesMove(m: Streams, rules: Rules, op: Op, id: StreamId)
    ensures m.Keys <= Apply(m, rules, op).Keys
    ensures id in Apply(m, rules, op) ==>
              var was := if id in m then m[id].produced else 0;
              Apply(m, rules, op)[id].produced ==
                if op.DoDispatch? && op.event.stream == id && Dispatch(m, rules, op.event).1.Done?
                then (was + EventBytes(op.event)) % MOD64 else was
    ensures op.DoDispatch? && Dispatch(m, rules, op.event).1.Done? ==> op.event.stream in m
  {
    hide EventBytes, FinalOutcome, Stream.Unacked, Events.Event.Valid, LiveStreams, Requests.Request.Valid,
      Events.Control.Valid, Events.Event.IsTerminal;
  }

  lemma AddsModulo(a: nat, b: nat)
    ensures (a % MOD64 + b) % MOD64 == (a + b) % MOD64
  {
    var q := a / MOD64;
    assert a == q * MOD64 + a % MOD64;
    ModuloShift(a % MOD64 + b, q);
  }

  lemma {:induction false} ModuloShift(x: nat, q: nat)
    ensures (q * MOD64 + x) % MOD64 == x % MOD64
  {
    if q > 0 {
      ModuloShift(x, q - 1);
      assert ((q - 1) * MOD64 + x + MOD64) % MOD64 == ((q - 1) * MOD64 + x) % MOD64;
    }
  }
}
