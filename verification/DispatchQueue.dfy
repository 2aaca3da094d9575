/** The scheduler on its real queue: calls of submit and slot threads that put their task back push into the ring
    access by access, and the loop pops from it access by access. Every run of this system is, access for access, a
    run of the scheduler whose queue is a sequence. */
module DispatchQueue {

  import opened Basics
  import opened Counting
  import D = Dispatch
  import M = MpscQueue

  type Task = D.Task

  // ---- The composed system -----------------------------------------------------------------------------------

  /** Who is inside a push: a call of submit, or a slot thread that puts its task back. */
  datatype Owner = ByCaller(caller: nat) | ByThread(round: nat, thread: nat)

  /** The scheduler without its queue, the ring, and whose each call of push is. */
  datatype State = State(rest: D.System, ring: M.System<Task>, calls: map<nat, Owner>)

  datatype Action =
    | Other(action: D.Action)
    | Begin(id: nat, owner: Owner)
    | Access(id: nat, weakFails: bool)
    | Consume

  /** A push whose outcome is still open. */
  predicate Pending(p: M.Producer<Task>) {
    p.LoadHead? || p.LoadStamp? || p.Exchange?
  }

  /** The task its owner is about to push, if it has come to that. */
  function TaskOf(s: D.System, o: Owner): Option<Task> {
    match o
    case ByCaller(k) => if k < |s.callers| && s.callers[k].Pushing? then Some(s.callers[k].task) else None
    case ByThread(i, t) =>
      if i < |s.rounds| && t < |s.rounds[i].threads| && s.rounds[i].threads[t].Requeue? then Some(s.rounds[i].task)
      else None
  }

  predicate Pushes(c: State, id: nat, o: Owner) {
    id in c.calls && c.calls[id] == o && id in c.ring.producers && Pending(c.ring.producers[id])
  }

  /** How an owner goes on once its push is decided. */
  function Decided(s: D.System, o: Owner, accepted: bool): D.System {
    if TaskOf(s, o).None? then s
    else match o
         case ByCaller(k) =>
           s.(callers := s.callers[k := if accepted then D.Returned else D.Rejecting(s.callers[k].task)])
         case ByThread(i, t) =>
           s.(rounds := s.rounds[i := D.ThreadStep(s.rounds[i], t, D.Environment(None, accepted, 0)).0])
  }

  /** Steps of the scheduler that neither push nor pop; the loop starts tasks only between pops. */
  predicate Apart(c: State, a: D.Action) {
    && !a.Enqueue? && !a.Pop?
    && (a.Advance? ==> TaskOf(c.rest, ByThread(a.round, a.thread)).None?)
    && (a.Start? ==> c.ring.consumer.Idle?)
  }

  ghost predicate Busy(c: State, o: Owner) {
    exists id :: Pushes(c, id, o)
  }

  ghost function Act(c: State, a: Action): (c': State)
    requires |c.ring.mem.slots| > 0
    ensures |c'.ring.mem.slots| == |c.ring.mem.slots|
  {
    match a
    case Other(action) => if Apart(c, action) then c.(rest := D.Step(c.rest, action)) else c
    case Begin(id, o) =>
      if id in c.ring.producers || TaskOf(c.rest, o).None? || Busy(c, o) then c
      else c.(ring := M.Step(c.ring, M.CallPush(id, TaskOf(c.rest, o).value)), calls := c.calls[id := o])
    case Access(id, weakFails) =>
      if id !in c.calls || id !in c.ring.producers then c
      else
        var ring := M.Step(c.ring, M.Produce(id, weakFails));
        var p, q := c.ring.producers[id], ring.producers[id];
        if Pending(p) && (q.Store? || q.Full?) then
          c.(ring := ring, rest := Decided(c.rest, c.calls[id], q.Store?))
        else c.(ring := ring)
    case Consume =>
      if !c.rest.draining then c
      else
        var ring := M.Step(c.ring, M.Consume);
        if c.ring.consumer.Advance? then
          c.(ring := ring, rest := c.rest.(snapshot := c.rest.snapshot + [c.ring.consumer.value]))
        else if c.ring.consumer.Idle? && ring.consumer.Idle? then
          c.(ring := ring, rest := c.rest.(draining := c.rest.snapshot == []))
        else c.(ring := ring)
  }

  ghost function Init(capacity: nat, blank: Task): (c: State)
    ensures |c.ring.mem.slots| == capacity
  {
    State(D.START, M.Init(capacity, blank), map[])
  }

  ghost function Run(c: State, acts: seq<Action>): (c': State)
    requires |c.ring.mem.slots| > 0
    ensures |c'.ring.mem.slots| == |c.ring.mem.slots|
  {
    if acts == [] then c else Act(Run(c, acts[..|acts| - 1]), acts[|acts| - 1])
  }

  // ---- What it refines ---------------------------------------------------------------------------------------

  /** The ring as a sequence: the tickets reserved and not yet taken, oldest first. */
  function Contents(ring: M.System<Task>): seq<Task> {
    if ring.mem.tail <= |ring.reserved| then ring.reserved[ring.mem.tail..] else []
  }

  function Abstract(c: State): D.System {
    c.rest.(queue := Contents(c.ring))
  }

  ghost predicate Owned(c: State) {
    && (forall id :: id in c.ring.producers && Pending(c.ring.producers[id]) && id in c.calls ==>
          TaskOf(c.rest, c.calls[id]) == Some(c.ring.producers[id].item))
    && (forall id, id', o :: Pushes(c, id, o) && Pushes(c, id', o) ==> id == id')
  }

  ghost predicate Inv(c: State) {
    && |c.ring.mem.slots| > 0 && M.Inv(c.ring) && c.rest.queue == [] && Owned(c)
    && (c.ring.consumer.Idle? || c.rest.draining)
  }
  /** One step of the scheduler, or none. */
  function Steps(s: D.System, a: Option<D.Action>): D.System {
    match a
    case None => s
    case Some(action) => D.Step(s, action)
  }

  /** A step apart from the queue is the same whatever the queue holds. */
  lemma ApartLeavesQueue(c: State, a: D.Action, queue: seq<Task>)
    requires Apart(c, a)
    ensures D.Step(c.rest.(queue := queue), a) == D.Step(c.rest, a).(queue := queue)
    ensures D.Step(c.rest, a).queue == c.rest.queue
  {
  }

  /** And it takes nobody away from a push. */
  lemma ApartKeepsTasks(c: State, a: D.Action, o: Owner)
    requires Apart(c, a) && TaskOf(c.rest, o).Some?
    ensures TaskOf(D.Step(c.rest, a), o) == TaskOf(c.rest, o)
  {
    if a.Advance? && o.ByThread? && a.round == o.round && a.round < |c.rest.rounds| &&
       a.thread < |c.rest.rounds[a.round].threads|
    {
      ThreadsStay(c.rest.rounds[a.round], a.thread, a.env);
    }
  }

  lemma ThreadsStay(r: D.Round, t: nat, env: D.Environment)
    requires t < |r.threads|
    ensures var r' := D.ThreadStep(r, t, env).0;
            r'.task == r.task && r'.threads == r.threads[t := r'.threads[t]]
  {
  }

  lemma OtherStep(c: State, a: D.Action)
    requires Inv(c) && Apart(c, a)
    ensures Inv(Act(c, Other(a))) && Abstract(Act(c, Other(a))) == D.Step(Abstract(c), a)
  {
    hide M.Inv, D.Step, Apart;
    ApartLeavesQueue(c, a, Contents(c.ring));
    var c' := Act(c, Other(a));
    forall id | id in c.ring.producers && Pending(c.ring.producers[id]) && id in c.calls
      ensures TaskOf(c'.rest, c.calls[id]) == Some(c.ring.producers[id].item)
    {
      ApartKeepsTasks(c, a, c.calls[id]);
    }
    assert forall id, o :: Pushes(c', id, o) == Pushes(c, id, o);
    assert c.ring.consumer.Idle? || c'.rest.draining by { ApartKeepsDraining(c, a); }
  }

  lemma ApartKeepsDraining(c: State, a: D.Action)
    requires Apart(c, a) && (c.ring.consumer.Idle? || c.rest.draining)
    ensures c.ring.consumer.Idle? || D.Step(c.rest, a).draining
  {
  }

  lemma BeginStep(c: State, id: nat, o: Owner)
    requires Inv(c)
    ensures Inv(Act(c, Begin(id, o))) && Abstract(Act(c, Begin(id, o))) == Abstract(c)
  {
    hide M.Inv;
    var c' := Act(c, Begin(id, o));
    if c' != c {
      M.StepInv(c.ring, M.CallPush(id, TaskOf(c.rest, o).value));
      forall i, j, w | Pushes(c', i, w) && Pushes(c', j, w) ensures i == j {
        assert i != id ==> Pushes(c, i, w);
        assert j != id ==> Pushes(c, j, w);
      }
    }
  }
  /** What one access of a push does to the ring, as far as the scheduler can tell. */
  lemma AccessOfRing(ring: M.System<Task>, id: nat, weakFails: bool)
    requires M.Inv(ring) && id in ring.producers
    ensures var ring' := M.Step(ring, M.Produce(id, weakFails));
            && id in ring'.producers
            && var p, q := ring.producers[id], ring'.producers[id];
               && ring'.producers == ring.producers[id := q] && ring'.consumer == ring.consumer
               && (Pending(q) ==> Pending(p) && q.item == p.item)
               && Contents(ring') ==
                    if Pending(p) && q.Store? then Contents(ring) + [p.item] else Contents(ring)
  {
    var ring' := M.Step(ring, M.Produce(id, weakFails));
    assert Contents(ring) == ring.reserved[ring.mem.tail..];
  }

  /** A decided push is one step of the scheduler. */
  lemma DecidedIsAStep(s: D.System, o: Owner, accepted: bool, queue: seq<Task>) returns (a: D.Action)
    requires TaskOf(s, o).Some?
    ensures D.Step(s.(queue := queue), a) ==
            Decided(s, o, accepted).(queue := if accepted then queue + [TaskOf(s, o).value] else queue)
    ensures Decided(s, o, accepted).queue == s.queue && Decided(s, o, accepted).draining == s.draining
  {
    match o {
      case ByCaller(k) => a := D.Enqueue(k, accepted);
      case ByThread(i, t) => a := D.Advance(i, t, D.Environment(None, accepted, 0));
    }
  }

  lemma DecidedKeepsOthers(s: D.System, o: Owner, accepted: bool, other: Owner)
    requires other != o && TaskOf(s, other).Some?
    ensures TaskOf(Decided(s, o, accepted), other) == TaskOf(s, other)
  {
    if TaskOf(s, o).Some? && o.ByThread? { ThreadsStay(s.rounds[o.round], o.thread, D.Environment(None, accepted, 0)); }
  }

  lemma AccessKeepsOwners(c: State, id: nat, weakFails: bool)
    requires Inv(c) && id in c.calls && id in c.ring.producers
    ensures Owned(Act(c, Access(id, weakFails)))
  {
    AccessOfRing(c.ring, id, weakFails);
    hide M.Inv, M.Step, Decided, TaskOf;
    var c' := Act(c, Access(id, weakFails));
    forall i, w | Pushes(c', i, w) ensures Pushes(c, i, w) {
    }
    forall i | i in c'.ring.producers && Pending(c'.ring.producers[i]) && i in c'.calls
      ensures TaskOf(c'.rest, c'.calls[i]) == Some(c'.ring.producers[i].item)
    {
      if i != id && c'.rest != c.rest {
        assert Pushes(c, i, c.calls[i]) && Pushes(c, id, c.calls[id]);
        DecidedKeepsOthers(c.rest, c.calls[id], c'.ring.producers[id].Store?, c.calls[i]);
      }
    }
  }

  lemma AccessStep(c: State, id: nat, weakFails: bool) returns (a: Option<D.Action>)
    requires Inv(c)
    ensures Inv(Act(c, Access(id, weakFails)))
    ensures Abstract(Act(c, Access(id, weakFails))) == Steps(Abstract(c), a)
  {
    a := None;
    if id in c.calls && id in c.ring.producers {
      M.StepInv(c.ring, M.Produce(id, weakFails));
      AccessOfRing(c.ring, id, weakFails);
      AccessKeepsOwners(c, id, weakFails);
      hide M.Inv, M.Step, D.Step, Decided, TaskOf, Owned, Contents;
      var c' := Act(c, Access(id, weakFails));
      var p, q := c.ring.producers[id], c'.ring.producers[id];
      if Pending(p) && (q.Store? || q.Full?) {
        OwnerHasTask(c, id);
        var action := DecidedIsAStep(c.rest, c.calls[id], q.Store?, Contents(c.ring));
        a := Some(action);
      }
    }
  }

  lemma OwnerHasTask(c: State, id: nat)
    requires Owned(c) && id in c.calls && id in c.ring.producers && Pending(c.ring.producers[id])
    ensures TaskOf(c.rest, c.calls[id]) == Some(c.ring.producers[id].item)
  {
  }

  /** What one access of pop does to the ring. */
  lemma ConsumeOfRing(ring: M.System<Task>)
    requires M.Inv(ring)
    ensures var ring' := M.Step(ring, M.Consume);
            && ring'.producers == ring.producers
            && (ring.consumer.Advance? ==>
                  && ring'.consumer.Idle? && Contents(ring) != [] && Contents(ring)[0] == ring.consumer.value
                  && Contents(ring') == Contents(ring)[1..])
            && (!ring.consumer.Advance? ==> Contents(ring') == Contents(ring))
            && (ring'.consumer.Idle? ==> ring.consumer.Advance? || ring.consumer.Idle?)
  {
  }

  lemma OwnersStay(c: State, c': State)
    requires Owned(c) && c'.calls == c.calls && c'.ring.producers == c.ring.producers
    requires c'.rest.callers == c.rest.callers && c'.rest.rounds == c.rest.rounds
    ensures Owned(c')
  {
    assert forall id, o :: Pushes(c', id, o) == Pushes(c, id, o);
    assert forall o :: TaskOf(c'.rest, o) == TaskOf(c.rest, o);
  }

  lemma ConsumeStep(c: State) returns (a: Option<D.Action>)
    requires Inv(c)
    ensures Inv(Act(c, Consume)) && Abstract(Act(c, Consume)) == Steps(Abstract(c), a)
  {
    a := None;
    if c.rest.draining {
      M.StepInv(c.ring, M.Consume);
      ConsumeOfRing(c.ring);
      hide M.Inv, M.Step, Contents, Owned;
      var c' := Act(c, Consume);
      OwnersStay(c, c');
      if c.ring.consumer.Advance? {
        a := Some(D.Pop(true));
      } else if c.ring.consumer.Idle? && c'.ring.consumer.Idle? {
        a := Some(D.Pop(false));
      }
    }
  }

  /** Every access of every thread is one step of the scheduler whose queue is a sequence, or none that it sees: a push
      takes effect with the exchange that reserves its ticket, or with the load that finds the ring full, and a pop with
      the advance of the tail, or with the load that finds nothing. */
  lemma RingStepIsAQueueStep(c: State, act: Action) returns (a: Option<D.Action>)
    requires Inv(c)
    ensures Inv(Act(c, act)) && Abstract(Act(c, act)) == Steps(Abstract(c), a)
  {
    match act {
      case Other(action) =>
        if Apart(c, action) {
          OtherStep(c, action);
          a := Some(action);
        } else {
          a := None;
        }
      case Begin(id, o) =>
        BeginStep(c, id, o);
        a := None;
      case Access(id, weakFails) => a := AccessStep(c, id, weakFails);
      case Consume => a := ConsumeStep(c);
    }
  }

  lemma StartsEmpty(capacity: nat, blank: Task)
    requires capacity >= 2
    ensures Inv(Init(capacity, blank)) && Abstract(Init(capacity, blank)) == D.Run([])
  {
    M.InitInv(capacity, blank);
  }

  /** So every run over the ring is a run over the sequence. */
  lemma {:induction false} RingRunsAreQueueRuns(capacity: nat, blank: Task, acts: seq<Action>)
    returns (actions: seq<D.Action>)
    requires capacity >= 2
    ensures Inv(Run(Init(capacity, blank), acts))
    ensures Abstract(Run(Init(capacity, blank), acts)) == D.Run(actions)
  {
    hide Inv, Act, Abstract, D.Step, Init;
    if acts == [] {
      actions := [];
      StartsEmpty(capacity, blank);
    } else {
      var before := RingRunsAreQueueRuns(capacity, blank, acts[..|acts| - 1]);
      var a := RingStepIsAQueueStep(Run(Init(capacity, blank), acts[..|acts| - 1]), acts[|acts| - 1]);
      actions := if a.Some? then before + [a.value] else before;
      if a.Some? { assert actions[..|actions| - 1] == before; }
    }
  }

  // ---- What callers may rely on, over the ring ----------------------------------------------------------------

  /** A task's place may be the ring: reserved, and not yet taken by the loop. */
  function Places(c: State, id: nat): nat {
    D.Places(Abstract(c), id)
  }

  /** In every run over the ring each submitted task is in exactly one place, fires at most once, and is started in at
      most max(1, max_attempts) rounds. */
  lemma OnePlaceOverTheRing(capacity: nat, blank: Task, acts: seq<Action>, id: nat)
    requires capacity >= 2
    ensures var c := Run(Init(capacity, blank), acts);
            && Places(c, id) == (if id < |c.rest.budgets| then 1 else 0)
            && Sum(c.rest.fired, D.CallbackWeight(id)) <= 1
            && (id < |c.rest.budgets| ==> D.RoundsOf(c.rest, id) <= D.Limit(c.rest.budgets[id]))
  {
    hide D.Places, Run, Init;
    var actions := RingRunsAreQueueRuns(capacity, blank, acts);
    D.OnePlaceAndBoundedRounds(actions, id);
  }

  /** Nobody holds work, and the loop has taken every ticket. */
  predicate Drained(c: State) {
    && (forall k :: 0 <= k < |c.rest.callers| ==> c.rest.callers[k].Returned?)
    && c.ring.mem.tail == c.ring.mem.head && c.rest.snapshot == []
    && (forall r, t :: 0 <= r < |c.rest.rounds| && 0 <= t < |c.rest.rounds[r].threads| ==>
          c.rest.rounds[r].threads[t].Exited?)
  }

  /** Then every submitted task has fired exactly once. */
  lemma FiredOnceOverTheRing(capacity: nat, blank: Task, acts: seq<Action>, id: nat)
    requires capacity >= 2 && Drained(Run(Init(capacity, blank), acts))
    requires id < |Run(Init(capacity, blank), acts).rest.budgets|
    ensures Sum(Run(Init(capacity, blank), acts).rest.fired, D.CallbackWeight(id)) == 1
  {
    hide Run, Init;
    var c := Run(Init(capacity, blank), acts);
    var actions := RingRunsAreQueueRuns(capacity, blank, acts);
    EmptyRing(c.ring);
    D.FiredOnceWhenDrained(actions, id);
  }

  lemma EmptyRing(ring: M.System<Task>)
    requires M.Inv(ring) && ring.mem.tail == ring.mem.head
    ensures Contents(ring) == []
  {
  }
}
