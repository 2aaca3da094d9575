/** The pending-task queue of the scheduler: a ring of stamped slots that any number of producers fill
    and one consumer empties, without locks.

    Every access of the original to a shared word (an atomic load, store or compare-exchange, and the plain
    read or write of a slot's value) is one step here, and the steps of all threads interleave freely.
    Memory is sequentially consistent and the 32-bit counters do not wrap. */
module MpscQueue {
  import opened Basics
  import opened Arithmetic

  datatype Slot<T> = Slot(stamp: nat, value: T)

  /** The shared words. tail belongs to the consumer alone. */
  datatype Memory<T> = Memory(slots: seq<Slot<T>>, head: nat, tail: nat)

  /** Where a producer stands inside push: the next access it will make. Once stored, the item is kept only
      to say which call this was. */
  datatype Producer<T> =
    | LoadHead(item: T)
    | LoadStamp(item: T, pos: nat)
    | Exchange(item: T, pos: nat)
    | Store(item: T, pos: nat)
    | Publish(item: T, pos: nat)
    | Pushed(item: T, pos: nat)
    | Full

  /** Where the consumer stands inside pop. Idle is the load that opens a call. */
  datatype Consumer<T> =
    | Idle
    | Take
    | Release(value: T)
    | Advance(value: T)

  function SetSlot<T>(m: Memory<T>, pos: nat, slot: Slot<T>): Memory<T>
    requires |m.slots| > 0
  {
    m.(slots := m.slots[pos % |m.slots| := slot])
  }

  function At<T>(m: Memory<T>, pos: nat): Slot<T>
    requires |m.slots| > 0
  {
    m.slots[pos % |m.slots|]
  }

  /** One access of a producer. weakFails is the spurious failure a weak compare-exchange may report. */
  function ProducerStep<T>(m: Memory<T>, p: Producer<T>, weakFails: bool): (Memory<T>, Producer<T>)
    requires |m.slots| > 0
  {
    match p
    case LoadHead(item) => (m, LoadStamp(item, m.head))
    case LoadStamp(item, pos) =>
      var stamp := At(m, pos).stamp;
      if stamp == pos then (m, Exchange(item, pos))
      else if stamp < pos then (m, Full)
      else (m, LoadHead(item))
    case Exchange(item, pos) =>
      if m.head == pos && !weakFails then (m.(head := pos + 1), Store(item, pos))
      else (m, LoadStamp(item, m.head))
    case Store(item, pos) => (SetSlot(m, pos, At(m, pos).(value := item)), Publish(item, pos))
    case Publish(item, pos) => (SetSlot(m, pos, At(m, pos).(stamp := pos + 1)), Pushed(item, pos))
    case Pushed(_, _) => (m, p)
    case Full => (m, p)
  }

  /** One access of the consumer. */
  function ConsumerStep<T>(m: Memory<T>, c: Consumer<T>): (Memory<T>, Consumer<T>)
    requires |m.slots| > 0
  {
    match c
    case Idle => if At(m, m.tail).stamp == m.tail + 1 then (m, Take) else (m, Idle)
    case Take => (m, Release(At(m, m.tail).value))
    case Release(v) => (SetSlot(m, m.tail, At(m, m.tail).(stamp := m.tail + |m.slots|)), Advance(v))
    case Advance(v) => (m.(tail := m.tail + 1), Idle)
  }

  // ---- Whole runs -------------------------------------------------------------------------------------

  /** All threads. reserved lists the pushed items by ticket (the order of successful exchanges);
      popped lists what pop returned, oldest first. */
  datatype System<T> = System(
    mem: Memory<T>,
    producers: map<nat, Producer<T>>,
    consumer: Consumer<T>,
    reserved: seq<T>,
    popped: seq<T>)

  datatype Action<T> =
    | CallPush(id: nat, item: T)
    | Produce(id: nat, weakFails: bool)
    | Consume

  predicate Returned<T>(p: Producer<T>) {
    p.Pushed? || p.Full?
  }

  function Step<T>(s: System<T>, a: Action<T>): System<T>
    requires |s.mem.slots| > 0
    ensures |Step(s, a).mem.slots| == |s.mem.slots|
  {
    match a
    case CallPush(id, item) =>
      if id in s.producers && !Returned(s.producers[id]) then s
      else s.(producers := s.producers[id := LoadHead(item)])
    case Produce(id, weakFails) =>
      if id !in s.producers then s else
      var p := s.producers[id];
      var (mem, q) := ProducerStep(s.mem, p, weakFails);
      s.(mem := mem, producers := s.producers[id := q],
         reserved := if p.Exchange? && q.Store? then s.reserved + [p.item] else s.reserved)
    case Consume =>
      var (mem, c) := ConsumerStep(s.mem, s.consumer);
      s.(mem := mem, consumer := c,
         popped := if s.consumer.Advance? then s.popped + [s.consumer.value] else s.popped)
  }

  function Init<T>(capacity: nat, blank: T): System<T>
    ensures |Init(capacity, blank).mem.slots| == capacity
  {
    System(Memory(seq(capacity, (i: nat) => Slot(i, blank)), 0, 0), map[], Idle, [], [])
  }

  function Run<T>(s: System<T>, actions: seq<Action<T>>): System<T>
    requires |s.mem.slots| > 0
    ensures |Run(s, actions).mem.slots| == |s.mem.slots|
  {
    if actions == [] then s
    else Step(Run(s, actions[..|actions| - 1]), actions[|actions| - 1])
  }

  // ---- The invariant ----------------------------------------------------------------------------------

  /** Tickets below this one have given their slot back to the producers. */
  function Released<T>(s: System<T>): nat {
    if s.consumer.Advance? then s.mem.tail + 1 else s.mem.tail
  }

  /** p holds ticket pos: it reserved it and has not yet published it. */
  predicate Holds<T>(p: Producer<T>, pos: nat) {
    (p.Store? || p.Publish?) && p.pos == pos
  }

  ghost predicate Held<T>(s: System<T>, pos: nat) {
    exists id :: id in s.producers && Holds(s.producers[id], pos)
  }

  /** The slot of a ticket in the live window: free, reserved and held, or published with its item. */
  ghost predicate SlotOk<T>(s: System<T>, pos: nat)
    requires |s.mem.slots| > 0
  {
    var slot := At(s.mem, pos);
    if pos >= |s.reserved| then slot.stamp == pos
    else if Held(s, pos) then slot.stamp == pos
    else slot.stamp == pos + 1 && slot.value == s.reserved[pos]
  }

  ghost predicate ProducerOk<T>(s: System<T>, p: Producer<T>)
    requires |s.mem.slots| > 0
  {
    match p
    case LoadStamp(_, pos) => pos <= s.mem.head
    case Exchange(_, pos) => pos <= s.mem.head && At(s.mem, pos).stamp >= pos
    case Store(item, pos) => Released(s) <= pos < |s.reserved| && item == s.reserved[pos]
    case Publish(item, pos) =>
      Released(s) <= pos < |s.reserved| && item == s.reserved[pos] && At(s.mem, pos).value == item
    case Pushed(item, pos) => pos < |s.reserved| && item == s.reserved[pos]
    case _ => true
  }

  ghost predicate ConsumerOk<T>(s: System<T>) {
    var tail := s.mem.tail;
    match s.consumer
    case Idle => true
    case Take => tail < |s.reserved| && !Held(s, tail)
    case Release(v) => tail < |s.reserved| && !Held(s, tail) && v == s.reserved[tail]
    case Advance(v) => tail < |s.reserved| && v == s.reserved[tail]
  }

  ghost predicate Inv<T>(s: System<T>) {
    && |s.mem.slots| >= 2
    && |s.reserved| == s.mem.head
    && s.mem.tail <= Released(s) <= s.mem.head <= Released(s) + |s.mem.slots|
    && s.popped == s.reserved[..s.mem.tail]
    && (forall pos :: Released(s) <= pos < Released(s) + |s.mem.slots| ==> SlotOk(s, pos))
    && (forall id :: id in s.producers ==> ProducerOk(s, s.producers[id]))
    && (forall i, j, pos | i in s.producers && j in s.producers ::
          Holds(s.producers[i], pos) && Holds(s.producers[j], pos) ==> i == j)
    && ConsumerOk(s)
  }

  lemma InitInv<T>(capacity: nat, blank: T)
    requires capacity >= 2
    ensures Inv(Init(capacity, blank))
  {
    var s := Init(capacity, blank);
    forall pos: nat | pos < capacity ensures SlotOk(s, pos) {
      assert pos % capacity == pos by { RemainderOf(0, pos, capacity); }
    }
  }

  /** A slot's stamp never falls below a ticket that has been seen free in it. */
  lemma FreeWhenExchanged<T>(s: System<T>, pos: nat)
    requires Inv(s) && pos == s.mem.head && At(s.mem, pos).stamp >= pos
    ensures pos < Released(s) + |s.mem.slots|
  {
    var n := |s.mem.slots|;
    PlusModulus(Released(s), n);
    assert SlotOk(s, Released(s));
  }

  lemma ReserveInv<T>(s: System<T>, id: nat)
    requires Inv(s) && id in s.producers && s.producers[id].Exchange? && s.producers[id].pos == s.mem.head
    ensures Inv(Step(s, Produce(id, false)))
  {
    var s' := Step(s, Produce(id, false));
    var p := s.producers[id];
    var n := |s.mem.slots|;
    FreeWhenExchanged(s, p.pos);
    assert Holds(s'.producers[id], p.pos);
    forall x ensures Held(s', x) == (Held(s, x) || x == p.pos) {
      if Held(s, x) {
        var i :| i in s.producers && Holds(s.producers[i], x);
        assert i in s'.producers && Holds(s'.producers[i], x);
      }
    }
    forall x | Released(s) <= x < Released(s) + n ensures SlotOk(s', x) {
      assert SlotOk(s, x);
    }
    forall i | i in s'.producers ensures ProducerOk(s', s'.producers[i]) {
      assert i in s.producers && ProducerOk(s, s.producers[i]);
    }
  }

  /** What storing the item or its stamp does to every other slot and producer: nothing. */
  lemma OtherSlots<T>(s: System<T>, pos: nat, slot: Slot<T>, x: nat)
    requires |s.mem.slots| > 0 && x % |s.mem.slots| != pos % |s.mem.slots|
    ensures At(SetSlot(s.mem, pos, slot), x) == At(s.mem, x)
  {
  }

  lemma StoreInv<T>(s: System<T>, id: nat)
    requires Inv(s) && id in s.producers && s.producers[id].Store?
    ensures Inv(Step(s, Produce(id, false)))
  {
    var s' := Step(s, Produce(id, false));
    var p := s.producers[id];
    var n := |s.mem.slots|;
    assert Holds(p, p.pos) && Holds(s'.producers[id], p.pos);
    forall x ensures Held(s', x) == Held(s, x) {
      if Held(s, x) {
        var i :| i in s.producers && Holds(s.producers[i], x);
        assert i in s'.producers && Holds(s'.producers[i], x);
      }
    }
    forall x | Released(s) <= x < Released(s) + n ensures SlotOk(s', x) {
      assert SlotOk(s, x);
      if x % n == p.pos % n { SameRemainder(x, p.pos, n); assert Held(s, x); }
    }
    forall i | i in s'.producers ensures ProducerOk(s', s'.producers[i]) {
      assert i in s.producers && ProducerOk(s, s.producers[i]);
      if i != id && s.producers[i].Publish? {
        var x := s.producers[i].pos;
        assert Holds(s.producers[i], x);
        if x % n == p.pos % n { SameRemainder(x, p.pos, n); }
      }
    }
  }

  lemma PublishInv<T>(s: System<T>, id: nat)
    requires Inv(s) && id in s.producers && s.producers[id].Publish?
    ensures Inv(Step(s, Produce(id, false)))
  {
    var s' := Step(s, Produce(id, false));
    var p := s.producers[id];
    var n := |s.mem.slots|;
    assert Holds(p, p.pos);
    assert SlotOk(s, p.pos) && Held(s, p.pos);
    forall x ensures Held(s', x) == (Held(s, x) && x != p.pos) {
      if Held(s, x) && x != p.pos {
        var i :| i in s.producers && Holds(s.producers[i], x);
        assert i in s'.producers && Holds(s'.producers[i], x);
      }
    }
    forall x | Released(s) <= x < Released(s) + n ensures SlotOk(s', x) {
      assert SlotOk(s, x);
      if x % n == p.pos % n { SameRemainder(x, p.pos, n); }
    }
    forall i | i in s'.producers ensures ProducerOk(s', s'.producers[i]) {
      assert i in s.producers && ProducerOk(s, s.producers[i]);
      if i != id && s.producers[i].Publish? {
        var x := s.producers[i].pos;
        assert Holds(s.producers[i], x);
        if x % n == p.pos % n { SameRemainder(x, p.pos, n); }
      }
    }
  }

  lemma ProduceInv<T>(s: System<T>, id: nat, weakFails: bool)
    requires Inv(s) && id in s.producers
    ensures Inv(Step(s, Produce(id, weakFails)))
  {
    var s' := Step(s, Produce(id, weakFails));
    var p, q := s.producers[id], s'.producers[id];
    if p.Exchange? && q.Store? {
      ReserveInv(s, id);
    } else if p.Store? {
      StoreInv(s, id);
    } else if p.Publish? {
      PublishInv(s, id);
    } else {
      KeepsTickets(s, s', id);
    }
  }

  /** A step of one producer that changes neither memory nor any ticket keeps the invariant. */
  lemma KeepsTickets<T>(s: System<T>, s': System<T>, id: nat)
    requires Inv(s) && id in s'.producers && s' == s.(producers := s.producers[id := s'.producers[id]])
    requires id in s.producers ==> !s.producers[id].Store? && !s.producers[id].Publish?
    requires !s'.producers[id].Store? && !s'.producers[id].Publish? && ProducerOk(s', s'.producers[id])
    ensures Inv(s')
  {
    forall x ensures Held(s', x) == Held(s, x) {
      if Held(s, x) {
        var i :| i in s.producers && Holds(s.producers[i], x);
        assert i in s'.producers && Holds(s'.producers[i], x);
      }
    }
    forall x | Released(s) <= x < Released(s) + |s.mem.slots| ensures SlotOk(s', x) {
      assert SlotOk(s, x);
    }
    forall i | i in s'.producers ensures ProducerOk(s', s'.producers[i]) {
      if i != id { assert i in s.producers && ProducerOk(s, s.producers[i]); }
    }
  }

  lemma NotHolding<T>(s: System<T>, pos: nat)
    requires !Held(s, pos)
    ensures forall i :: i in s.producers ==> !Holds(s.producers[i], pos)
  {
  }

  lemma ReleaseInv<T>(s: System<T>)
    requires Inv(s) && s.consumer.Release?
    ensures Inv(Step(s, Consume))
  {
    var s' := Step(s, Consume);
    var n, tail := |s.mem.slots|, s.mem.tail;
    assert SlotOk(s, tail);
    assert forall x :: Held(s', x) == Held(s, x);
    PlusModulus(tail, n);
    forall x | tail < x <= tail + n ensures SlotOk(s', x) {
      if x < tail + n {
        assert SlotOk(s, x);
        if x % n == tail % n { SameRemainder(x, tail, n); }
      } else {
        assert !Held(s, x);
      }
    }
    NotHolding(s, tail);
    forall i | i in s'.producers ensures ProducerOk(s', s'.producers[i]) {
      assert ProducerOk(s, s.producers[i]);
      if s.producers[i].Publish? {
        var x := s.producers[i].pos;
        if x % n == tail % n { SameRemainder(x, tail, n); }
      }
    }
  }

  lemma ConsumeInv<T>(s: System<T>)
    requires Inv(s)
    ensures Inv(Step(s, Consume))
  {
    var s' := Step(s, Consume);
    assert !s.consumer.Advance? ==> SlotOk(s, s.mem.tail);
    if s.consumer.Release? {
      ReleaseInv(s);
    } else {
      assert forall x :: Held(s', x) == Held(s, x);
      forall x | Released(s) <= x < Released(s) + |s.mem.slots| ensures SlotOk(s', x) {
        assert SlotOk(s, x);
      }
      forall i | i in s'.producers ensures ProducerOk(s', s'.producers[i]) {
        assert ProducerOk(s, s.producers[i]);
      }
    }
  }

  /** Every step of every thread keeps the invariant. */
  lemma StepInv<T>(s: System<T>, a: Action<T>)
    requires Inv(s)
    ensures Inv(Step(s, a))
  {
    match a
    case CallPush(id, item) =>
      if id !in s.producers || Returned(s.producers[id]) {
        KeepsTickets(s, Step(s, a), id);
      }
    case Produce(id, weakFails) =>
      if id in s.producers { ProduceInv(s, id, weakFails); }
    case Consume => ConsumeInv(s);
  }

  lemma {:induction false} RunInv<T>(s: System<T>, actions: seq<Action<T>>)
    requires Inv(s)
    ensures Inv(Run(s, actions))
  {
    if actions != [] {
      RunInv(s, actions[..|actions| - 1]);
      StepInv(Run(s, actions[..|actions| - 1]), actions[|actions| - 1]);
    }
  }

  // ---- What callers may rely on -------------------------------------------------------------------------

  /** Any producers, any interleaving: pop returns the pushed items in ticket order, each exactly once, and
      a push that returned true has its item at its ticket. */
  lemma PopsInTicketOrder<T>(capacity: nat, blank: T, actions: seq<Action<T>>)
    requires capacity >= 2
    ensures
      var s := Run(Init(capacity, blank), actions);
      && s.mem.tail <= |s.reserved| <= s.mem.tail + capacity + 1
      && s.popped == s.reserved[..s.mem.tail]
      && forall id :: id in s.producers && s.producers[id].Pushed? ==>
           s.producers[id].pos < |s.reserved| && s.reserved[s.producers[id].pos] == s.producers[id].item
  {
    InitInv(capacity, blank);
    RunInv(Init(capacity, blank), actions);
    var s := Run(Init(capacity, blank), actions);
    assert forall id :: id in s.producers ==> ProducerOk(s, s.producers[id]);
  }

  /** push gives up at its load of a stamp only when every slot is reserved and not yet released, and a
      producer that looks at the current head gives up whenever that is so. */
  lemma RefusesExactlyWhenFull<T>(s: System<T>, id: nat)
    requires Inv(s) && id in s.producers && s.producers[id].LoadStamp?
    ensures
      var refuses := Step(s, Produce(id, false)).producers[id].Full?;
      var full := s.mem.head == Released(s) + |s.mem.slots|;
      (refuses ==> full) && (full && s.producers[id].pos == s.mem.head ==> refuses)
  {
    var pos, n := s.producers[id].pos, |s.mem.slots|;
    assert ProducerOk(s, s.producers[id]);
    PlusModulus(Released(s), n);
    assert SlotOk(s, Released(s));
    if At(s.mem, pos).stamp < pos && s.mem.head < Released(s) + n {
      var w := RemainderInWindow(pos, Released(s), n);
      assert SlotOk(s, w) && At(s.mem, w) == At(s.mem, pos);
      assert pos >= Released(s);
      SameRemainder(w, pos, n);
      assert false;
    }
  }

  /** pop finds an item exactly when the oldest unreleased ticket exists and its push has published; a later
      ticket that is already published does not help. */
  lemma FindsExactlyPublished<T>(s: System<T>)
    requires Inv(s) && s.consumer.Idle?
    ensures Step(s, Consume).consumer.Take? <==> s.mem.tail < s.mem.head && !Held(s, s.mem.tail)
  {
    assert SlotOk(s, s.mem.tail);
  }

  /** k undisturbed calls of pop that each find an item. */
  function Pops<T>(k: nat): seq<Action<T>> {
    if k == 0 then [] else [Consume, Consume, Consume, Consume] + Pops(k - 1)
  }

  /** With no push in progress, as many pops as there are items left return all of them. */
  lemma {:induction false} DrainsCompletely<T>(s: System<T>)
    requires Inv(s) && s.consumer.Idle? && forall pos :: !Held(s, pos)
    ensures
      var t := Run(s, Pops(s.mem.head - s.mem.tail));
      t.popped == t.reserved == s.reserved && t.consumer.Idle?
    decreases s.mem.head - s.mem.tail
  {
    hide Inv, Step, Run;
    var k := s.mem.head - s.mem.tail;
    if k <= 0 {
      NothingLeft(s);
    } else {
      var t := PopsOne(s);
      assert forall pos :: Held(t, pos) == Held(s, pos);
      DrainsCompletely(t);
      var four: seq<Action<T>> := [Consume, Consume, Consume, Consume];
      RunConcat(s, four, Pops(k - 1));
    }
  }

  lemma NothingLeft<T>(s: System<T>)
    requires Inv(s) && s.consumer.Idle? && s.mem.head <= s.mem.tail
    ensures s.mem.head == s.mem.tail && Run(s, []) == s && s.popped == s.reserved
  {
  }

  lemma PopsOne<T>(s: System<T>) returns (t: System<T>)
    requires Inv(s) && s.consumer.Idle? && s.mem.tail < s.mem.head && !Held(s, s.mem.tail)
    ensures t == Run(s, [Consume, Consume, Consume, Consume])
    ensures Inv(t) && t.consumer.Idle? && t.producers == s.producers
    ensures t.mem.head == s.mem.head && t.mem.tail == s.mem.tail + 1 && t.reserved == s.reserved
  {
    FindsExactlyPublished(s);
    var s1 := Step(s, Consume);
    StepInv(s, Consume);
    var s2 := Step(s1, Consume);
    StepInv(s1, Consume);
    var s3 := Step(s2, Consume);
    StepInv(s2, Consume);
    t := Step(s3, Consume);
    StepInv(s3, Consume);
    RunFour(s, Consume, Consume, Consume, Consume);
  }

  lemma RunTwo<T>(s: System<T>, a: Action<T>, b: Action<T>)
    requires |s.mem.slots| > 0
    ensures Run(s, [a, b]) == Step(Step(s, a), b)
  {
    hide Run, Step;
    var none: seq<Action<T>> := [];
    RunNone(s);
    RunOne(s, none, a);
    assert none + [a] == [a];
    RunOne(s, [a], b);
    assert [a] + [b] == [a, b];
  }

  lemma RunFour<T>(s: System<T>, a: Action<T>, b: Action<T>, c: Action<T>, d: Action<T>)
    requires |s.mem.slots| > 0
    ensures Run(s, [a, b, c, d]) == Step(Step(Step(Step(s, a), b), c), d)
  {
    hide Run, Step;
    RunTwo(s, a, b);
    RunTwo(Run(s, [a, b]), c, d);
    RunConcat(s, [a, b], [c, d]);
    assert [a, b] + [c, d] == [a, b, c, d];
  }

  lemma RunNone<T>(s: System<T>)
    requires |s.mem.slots| > 0
    ensures Run(s, []) == s
  {
  }

  lemma RunOne<T>(s: System<T>, actions: seq<Action<T>>, a: Action<T>)
    requires |s.mem.slots| > 0
    ensures Run(s, actions + [a]) == Step(Run(s, actions), a)
  {
    assert (actions + [a])[..|actions|] == actions;
  }

  lemma {:induction false} RunConcat<T>(s: System<T>, first: seq<Action<T>>, rest: seq<Action<T>>)
    requires |s.mem.slots| > 0
    ensures Run(s, first + rest) == Run(Run(s, first), rest)
  {
    hide Step;
    if rest == [] {
      assert first + rest == first;
    } else {
      var k := |rest| - 1;
      RunConcat(s, first, rest[..k]);
      assert (first + rest)[..|first| + k] == first + rest[..k];
    }
  }

  /** Tickets respect real time: a push that has returned true precedes every push that starts later. */
  lemma ReturnedPushComesFirst<T>(s: System<T>, actions: seq<Action<T>>, i: nat, j: nat)
    requires Inv(s) && i in s.producers && s.producers[i].Pushed?
    requires j in s.producers && s.producers[j].LoadHead?
    ensures
      var s' := Run(s, actions);
      j in s'.producers && (s'.producers[j].Pushed? ==> s.producers[i].pos < s'.producers[j].pos)
  {
    assert ProducerOk(s, s.producers[i]);
    LaterTickets(s, actions, j);
  }

  lemma {:induction false} LaterTickets<T>(s: System<T>, actions: seq<Action<T>>, j: nat)
    requires Inv(s) && j in s.producers && s.producers[j].LoadHead?
    ensures
      var s' := Run(s, actions);
      && s'.mem.head >= s.mem.head && j in s'.producers
      && var p := s'.producers[j];
         (p.Store? || p.Publish? || p.Pushed? ==> p.pos >= s.mem.head)
  {
    if actions != [] {
      LaterTickets(s, actions[..|actions| - 1], j);
    }
  }

  // ---- The smallest capacity the source admits ------------------------------------------------------------

  /** With one slot, the stamp that says "published" to the consumer says "free" to the next producer. */
  lemma OneSlotLosesAnItem()
    ensures exists actions: seq<Action<int>> ::
              var s := Run(Init(1, 0), actions); s.popped == [8] && s.reserved == [7, 8]
  {
    var s0: System<int> := Init(1, 0);
    var first, s1 := FirstPush();
    var second, s2 := FirstPushEnds(s1);
    var third, s3 := SecondPush(s2);
    var fourth, s4 := OvertakenPop(s3);
    RunConcat(s0, first, second);
    RunConcat(s0, first + second, third);
    RunConcat(s0, first + second + third, fourth);
    assert Run(s0, first + second + third + fourth) == s4;
  }

  lemma FirstPush() returns (actions: seq<Action<int>>, t: System<int>)
    ensures t == System(Memory([Slot(0, 0)], 1, 0), map[0 := Store(7, 0)], Idle, [7], [])
    ensures Run(Init(1, 0), actions) == t
  {
    var s: System<int> := Init(1, 0);
    assert s.mem.slots == [Slot(0, 0)];
    actions := [CallPush(0, 7), Produce(0, false), Produce(0, false), Produce(0, false)];
    RunFour(s, CallPush(0, 7), Produce(0, false), Produce(0, false), Produce(0, false));
    var s1 := Step(s, CallPush(0, 7));
    assert s1 == s.(producers := map[0 := LoadHead(7)]);
    var s2 := Step(s1, Produce(0, false));
    assert s2 == s.(producers := map[0 := LoadStamp(7, 0)]);
    var s3 := Step(s2, Produce(0, false));
    assert s3 == s.(producers := map[0 := Exchange(7, 0)]);
    t := Step(s3, Produce(0, false));
  }

  lemma FirstPushEnds(s: System<int>) returns (actions: seq<Action<int>>, t: System<int>)
    requires s == System(Memory([Slot(0, 0)], 1, 0), map[0 := Store(7, 0)], Idle, [7], [])
    ensures t == System(Memory([Slot(1, 7)], 1, 0), map[0 := Pushed(7, 0), 1 := LoadHead(8)], Take, [7], [])
    ensures Run(s, actions) == t
  {
    actions := [Produce(0, false), Produce(0, false), Consume, CallPush(1, 8)];
    RunFour(s, Produce(0, false), Produce(0, false), Consume, CallPush(1, 8));
    var s1 := Step(s, Produce(0, false));
    assert s1 == s.(mem := Memory([Slot(0, 7)], 1, 0), producers := map[0 := Publish(7, 0)]);
    var s2 := Step(s1, Produce(0, false));
    assert s2 == s.(mem := Memory([Slot(1, 7)], 1, 0), producers := map[0 := Pushed(7, 0)]);
    var s3 := Step(s2, Consume);
    assert s3 == s2.(consumer := Take);
    t := Step(s3, CallPush(1, 8));
  }

  lemma SecondPush(s: System<int>) returns (actions: seq<Action<int>>, t: System<int>)
    requires s == System(Memory([Slot(1, 7)], 1, 0), map[0 := Pushed(7, 0), 1 := LoadHead(8)], Take, [7], [])
    ensures t.mem == Memory([Slot(1, 8)], 2, 0) && t.consumer == Take && t.reserved == [7, 8] && t.popped == []
    ensures Run(s, actions) == t
  {
    actions := [Produce(1, false), Produce(1, false), Produce(1, false), Produce(1, false)];
    RunFour(s, Produce(1, false), Produce(1, false), Produce(1, false), Produce(1, false));
    var s1 := Step(s, Produce(1, false));
    assert s1.producers == map[0 := Pushed(7, 0), 1 := LoadStamp(8, 1)];
    var s2 := Step(s1, Produce(1, false));
    assert s2.producers == map[0 := Pushed(7, 0), 1 := Exchange(8, 1)];
    var s3 := Step(s2, Produce(1, false));
    assert s3.mem == Memory([Slot(1, 7)], 2, 0) && s3.producers[1] == Store(8, 1);
    t := Step(s3, Produce(1, false));
  }

  lemma OvertakenPop(s: System<int>) returns (actions: seq<Action<int>>, t: System<int>)
    requires s.mem == Memory([Slot(1, 8)], 2, 0) && s.consumer == Take && s.popped == []
    ensures Run(s, actions) == t && t.popped == [8] && t.reserved == s.reserved
  {
    actions := [Consume, Consume, Consume, Consume];
    RunFour(s, Consume, Consume, Consume, Consume);
    var s1 := Step(s, Consume);
    assert s1.consumer == Release(8);
    var s2 := Step(s1, Consume);
    var s3 := Step(s2, Consume);
    t := Step(s3, Consume);
  }

  /** So the order guarantee holds in every run exactly for the capacities above one. */
  lemma OrderedExactlyAboveOne(capacity: nat)
    requires capacity > 0
    ensures (forall actions: seq<Action<int>> ::
               var s := Run(Init(capacity, 0), actions); s.popped <= s.reserved) <==> capacity >= 2
  {
    if capacity >= 2 {
      forall actions: seq<Action<int>>
        ensures var s := Run(Init(capacity, 0), actions); s.popped <= s.reserved
      {
        PopsInTicketOrder(capacity, 0, actions);
      }
    } else {
      OneSlotLosesAnItem();
      var actions: seq<Action<int>> :|
        var s := Run(Init(1, 0), actions); s.popped == [8] && s.reserved == [7, 8];
      var s := Run(Init(1, 0), actions);
      assert s.popped[0] != s.reserved[0];
    }
  }

  // ---- In place ---------------------------------------------------------------------------------------------

  /** Memory between calls: contents sits in the slots from tail to head, and every other slot is free. */
  ghost predicate Settled<T>(m: Memory<T>, contents: seq<T>) {
    && |m.slots| >= 2
    && m.head == m.tail + |contents| <= m.tail + |m.slots|
    && (forall pos :: m.tail <= pos < m.head ==> At(m, pos) == Slot(pos + 1, contents[pos - m.tail]))
    && (forall pos :: m.head <= pos < m.tail + |m.slots| ==> At(m, pos).stamp == pos)
  }

  /** The stamp at the head tells a full queue from one with room. */
  lemma FullOrFree<T>(m: Memory<T>, contents: seq<T>)
    requires Settled(m, contents)
    ensures |contents| < |m.slots| ==> At(m, m.head).stamp == m.head
    ensures |contents| == |m.slots| ==> At(m, m.head).stamp < m.head
  {
    if |contents| == |m.slots| {
      PlusModulus(m.tail, |m.slots|);
      assert At(m, m.tail) == Slot(m.tail + 1, contents[0]);
    }
  }

  lemma PushSettles<T>(m: Memory<T>, contents: seq<T>, item: T)
    requires Settled(m, contents) && |contents| < |m.slots|
    ensures Settled(SetSlot(m.(head := m.head + 1), m.head, Slot(m.head + 1, item)), contents + [item])
  {
    var n, m' := |m.slots|, SetSlot(m.(head := m.head + 1), m.head, Slot(m.head + 1, item));
    forall pos | m.tail <= pos < m.tail + n && pos != m.head ensures At(m', pos) == At(m, pos) {
      if pos % n == m.head % n { SameRemainder(pos, m.head, n); }
    }
  }

  lemma PopSettles<T>(m: Memory<T>, contents: seq<T>)
    requires Settled(m, contents) && contents != []
    ensures
      var released := SetSlot(m, m.tail, At(m, m.tail).(stamp := m.tail + |m.slots|));
      Settled(released.(tail := m.tail + 1), contents[1..])
  {
    var n := |m.slots|;
    var m' := SetSlot(m, m.tail, At(m, m.tail).(stamp := m.tail + n)).(tail := m.tail + 1);
    PlusModulus(m.tail, n);
    forall pos | m.tail < pos < m.tail + n ensures At(m', pos) == At(m, pos) {
      if pos % n == m.tail % n { SameRemainder(pos, m.tail, n); }
    }
  }

  /** The queue object. ProducerAccess and ConsumerAccess are the single accesses of which push and pop
      consist; Push and Pop are whole calls that no other thread disturbs. contents is what the calls so far
      have left in the queue. */
  class BoundedMpscQueue<T> {
    const slots: array<Slot<T>>
    var head: nat
    var tail: nat
    ghost var contents: seq<T>

    ghost function Mem(): Memory<T>
      reads this, slots
    {
      Memory(slots[..], head, tail)
    }

    ghost predicate Valid()
      reads this, slots
    {
      Settled(Mem(), contents)
    }

    constructor (capacity: nat, blank: T)
      ensures fresh(slots) && Mem() == Init(capacity, blank).mem && contents == []
      ensures capacity >= 2 ==> Valid()
    {
      slots := new Slot<T>[capacity]((i: nat) => Slot(i, blank));
      head, tail, contents := 0, 0, [];
      new;
      forall pos: nat | pos < capacity ensures pos % capacity == pos {
        RemainderOf(0, pos, capacity);
      }
    }

    method ProducerAccess(p: Producer<T>, weakFails: bool) returns (q: Producer<T>)
      requires slots.Length > 0
      modifies this`head, slots
      ensures (Mem(), q) == ProducerStep(old(Mem()), p, weakFails)
    {
      match p
      case LoadHead(item) => q := LoadStamp(item, head);
      case LoadStamp(item, pos) =>
        var stamp := slots[pos % slots.Length].stamp;
        q := if stamp == pos then Exchange(item, pos) else if stamp < pos then Full else LoadHead(item);
      case Exchange(item, pos) =>
        if head == pos && !weakFails {
          head := pos + 1;
          q := Store(item, pos);
        } else {
          q := LoadStamp(item, head);
        }
      case Store(item, pos) =>
        slots[pos % slots.Length] := slots[pos % slots.Length].(value := item);
        q := Publish(item, pos);
      case Publish(item, pos) =>
        slots[pos % slots.Length] := slots[pos % slots.Length].(stamp := pos + 1);
        q := Pushed(item, pos);
      case Pushed(_, _) => q := p;
      case Full => q := p;
    }

    method ConsumerAccess(c: Consumer<T>) returns (d: Consumer<T>)
      requires slots.Length > 0
      modifies this`tail, slots
      ensures (Mem(), d) == ConsumerStep(old(Mem()), c)
    {
      match c
      case Idle => d := if slots[tail % slots.Length].stamp == tail + 1 then Take else Idle;
      case Take => d := Release(slots[tail % slots.Length].value);
      case Release(v) =>
        slots[tail % slots.Length] := slots[tail % slots.Length].(stamp := tail + slots.Length);
        d := Advance(v);
      case Advance(v) =>
        tail := tail + 1;
        d := Idle;
    }

    method Push(item: T) returns (ok: bool)
      requires Valid()
      modifies this, slots
      ensures Valid() && tail == old(tail)
      ensures ok <==> |old(contents)| < slots.Length
      ensures contents == if ok then old(contents) + [item] else old(contents)
    {
      var n := slots.Length;
      ghost var m := Mem();
      FullOrFree(m, contents);
      var p := LoadHead(item);
      while !Returned(p)
        invariant tail == old(tail) && contents == old(contents)
        invariant match p
                  case LoadHead(x) => x == item && Mem() == m
                  case LoadStamp(x, pos) => x == item && pos == m.head && Mem() == m
                  case Exchange(x, pos) => x == item && pos == m.head && Mem() == m && |contents| < n
                  case Store(x, pos) =>
                    x == item && pos == m.head && Mem() == m.(head := pos + 1) && |contents| < n
                  case Publish(x, pos) =>
                    pos == m.head && Mem() == SetSlot(m.(head := pos + 1), pos, Slot(pos, item)) && |contents| < n
                  case Pushed(x, pos) =>
                    pos == m.head && Mem() == SetSlot(m.(head := pos + 1), pos, Slot(pos + 1, item)) && |contents| < n
                  case Full => Mem() == m && |contents| == n
        decreases if p.LoadHead? then 5 else if p.LoadStamp? then 4 else if p.Exchange? then 3
                  else if p.Store? then 2 else if p.Publish? then 1 else 0
      {
        p := ProducerAccess(p, false);
      }
      ok := p.Pushed?;
      if ok {
        PushSettles(m, contents, item);
        contents := contents + [item];
      }
    }

    method Pop() returns (r: Option<T>)
      requires Valid()
      modifies this, slots
      ensures Valid() && head == old(head)
      ensures old(contents) == [] ==> r == None && contents == [] && tail == old(tail)
      ensures old(contents) != [] ==> r == Some(old(contents)[0]) && contents == old(contents)[1..]
    {
      ghost var m := Mem();
      var c := ConsumerAccess(Idle);
      if c.Idle? {
        return None;
      }
      c := ConsumerAccess(c);
      r := Some(c.value);
      c := ConsumerAccess(c);
      c := ConsumerAccess(c);
      PopSettles(m, contents);
      contents := contents[1..];
    }
  }
}
