/** Choice of the best slots for a task: eligible ones only, best first, one per worker. Scores are real numbers;
    times are nanoseconds of the steady clock, 0 for never. */
module SlotSelection {

  import opened Basics
  import Counting

  datatype SlotKey = SlotKey(worker: U16, slot: U8)

  datatype Slot = Slot(
    kind: U8, active: bool, alive: bool, ready: bool, busy: bool, degraded: bool, error: bool, thermalLimit: bool,
    modelLoading: bool, load: U8, queueDepth: U8, workerScore: U16, vramFree: U32, prefixAffinity: U8,
    tokensPerSecond: U16, latency: real, errors: U32, timeouts: U32, lastHeartbeat: int, lastUsed: int,
    cooldownUntil: int)

  type Slots = map<SlotKey, Slot>

  const HEARTBEAT_TIMEOUT := 5_000_000_000

  predicate Eligible(s: Slot, now: int) {
    && s.active && s.alive && s.ready && !s.error && !s.modelLoading && !s.thermalLimit
    && s.load < 90 && s.queueDepth < 8
    && s.lastHeartbeat != 0 && now <= s.lastHeartbeat + HEARTBEAT_TIMEOUT && now >= s.cooldownUntil
  }

  function Unit(x: real): real { if x < 1.0 then x else 1.0 }

  function Score(s: Slot): real {
    var vram := if s.vramFree > 0 then s.vramFree as real else 8192.0;
    var cost :=
      Unit(s.load as real / 100.0) + 2.0 * Unit(s.queueDepth as real / 8.0) + 1.5 * (1.0 - Unit(vram / 16384.0)) -
      3.0 * Unit(s.prefixAffinity as real / 100.0) - 0.5 * Unit(s.tokensPerSecond as real / 100.0);
    0.35 * Unit(s.workerScore as real / 100.0) + 0.65 * cost + s.latency / 1000.0 * 0.5 +
    (if s.busy then 2.0 else 0.0) + (if s.degraded then 5.0 else 0.0) + (if s.thermalLimit then 10.0 else 0.0) +
    s.timeouts as real * 1.5 + s.errors as real * 2.5
  }

  predicate BetterTie(a: Slot, b: Slot) {
    if a.queueDepth != b.queueDepth then a.queueDepth < b.queueDepth
    else if a.latency != b.latency then a.latency < b.latency
    else a.lastUsed < b.lastUsed
  }

  predicate Better(a: Slot, b: Slot) {
    if Score(a) != Score(b) then Score(a) < Score(b) else BetterTie(a, b)
  }

  predicate Equivalent(a: Slot, b: Slot) { !Better(a, b) && !Better(b, a) }

  /** The comparison is one a sort may use: a strict weak order. */
  lemma StrictWeakOrder(a: Slot, b: Slot, c: Slot)
    ensures !Better(a, a)
    ensures Better(a, b) && Better(b, c) ==> Better(a, c)
    ensures Better(a, b) ==> !Better(b, a)
    ensures Equivalent(a, b) && Equivalent(b, c) ==> Equivalent(a, c)
  {
    hide Score;
  }

  lemma NoBetterIsTransitive(a: Slot, b: Slot, c: Slot)
    requires !Better(b, a) && !Better(c, b)
    ensures !Better(c, a)
  {
    hide Score;
  }

  // ---- What the order means ----------------------------------------------------------------------------------

  function Capped(n: nat, cap: nat): nat { if n < cap then n else cap }

  /** Free memory as the score sees it: what a slot does not report counts as 8192. */
  function Memory(s: Slot): nat { Capped(if s.vramFree > 0 then s.vramFree else 8192, 16384) }

  /** a is at least as good as b in everything the score looks at, up to the caps. */
  predicate NoWorse(a: Slot, b: Slot) {
    && Capped(a.load, 100) <= Capped(b.load, 100) && Capped(a.queueDepth, 8) <= Capped(b.queueDepth, 8)
    && Capped(a.workerScore, 100) <= Capped(b.workerScore, 100) && Memory(a) >= Memory(b)
    && Capped(a.prefixAffinity, 100) >= Capped(b.prefixAffinity, 100)
    && Capped(a.tokensPerSecond, 100) >= Capped(b.tokensPerSecond, 100)
    && a.latency <= b.latency && a.timeouts <= b.timeouts && a.errors <= b.errors
    && (a.busy ==> b.busy) && (a.degraded ==> b.degraded) && (a.thermalLimit ==> b.thermalLimit)
  }

  /** At least as good in everything, and better in something. */
  predicate Beats(a: Slot, b: Slot) {
    NoWorse(a, b) && !NoWorse(b, a)
  }

  function Cost(load: real, queue: real, memory: real, prefix: real, speed: real, worker: real): real {
    0.0035 * worker + 0.0065 * load + 0.1625 * queue - 0.975 / 16384.0 * memory - 0.0195 * prefix - 0.00325 * speed
  }

  function Penalty(s: Slot): real {
    0.0005 * s.latency + (if s.busy then 2.0 else 0.0) + (if s.degraded then 5.0 else 0.0) +
    (if s.thermalLimit then 10.0 else 0.0) + 1.5 * s.timeouts as real + 2.5 * s.errors as real
  }

  lemma UnitIsCapped(n: nat, cap: nat)
    requires cap > 0
    ensures Unit(n as real / cap as real) == Capped(n, cap) as real / cap as real
  {
    if n >= cap { assert n as real / cap as real >= 1.0; } else { assert n as real / cap as real < 1.0; }
  }

  /** The score is linear in the capped measures. */
  lemma ScoreIsLinear(s: Slot)
    ensures Score(s) == 0.975 + Cost(Capped(s.load, 100) as real, Capped(s.queueDepth, 8) as real, Memory(s) as real,
                                     Capped(s.prefixAffinity, 100) as real, Capped(s.tokensPerSecond, 100) as real,
                                     Capped(s.workerScore, 100) as real) + Penalty(s)
  {
    UnitIsCapped(s.load, 100);
    UnitIsCapped(s.queueDepth, 8);
    UnitIsCapped(s.prefixAffinity, 100);
    UnitIsCapped(s.tokensPerSecond, 100);
    UnitIsCapped(s.workerScore, 100);
    UnitIsCapped(if s.vramFree > 0 then s.vramFree else 8192, 16384);
    hide Unit, Capped;
  }

  /** A slot that beats another comes first. */
  lemma BeatsIsBetter(a: Slot, b: Slot)
    requires Beats(a, b)
    ensures Better(a, b) && !Better(b, a)
  {
    ScoreIsLinear(a);
    ScoreIsLinear(b);
    hide Score, Capped, Memory;
  }

  /** Of two slots with equal scores the shorter queue comes first, then the lower latency, then the one not used for
      longer. */
  lemma TiesDecide(a: Slot, b: Slot)
    requires Score(a) == Score(b)
    ensures Better(a, b) <==>
            || a.queueDepth < b.queueDepth
            || (a.queueDepth == b.queueDepth && a.latency < b.latency)
            || (a.queueDepth == b.queueDepth && a.latency == b.latency && a.lastUsed < b.lastUsed)
  {
    hide Score;
  }

  // ---- What a choice has to be -------------------------------------------------------------------------------

  predicate Candidate(slots: Slots, kind: U8, now: int, key: SlotKey) {
    key in slots && slots[key].kind == kind && Eligible(slots[key], now)
  }

  function Candidates(slots: Slots, kind: U8, now: int): set<SlotKey> {
    set key | key in slots && Candidate(slots, kind, now, key)
  }

  function Workers(keys: set<SlotKey>): set<U16> {
    set key | key in keys :: key.worker
  }

  predicate Known(slots: Slots, keys: seq<SlotKey>) {
    forall i :: 0 <= i < |keys| ==> keys[i] in slots
  }

  /** No slot is listed behind a worse one. */
  predicate InOrder(slots: Slots, keys: seq<SlotKey>) {
    Known(slots, keys) &&
    forall i, j :: 0 <= i < j < |keys| ==> !Better(slots[keys[j]], slots[keys[i]])
  }

  predicate DistinctWorkers(keys: seq<SlotKey>) {
    forall i, j :: 0 <= i < j < |keys| ==> keys[i].worker != keys[j].worker
  }

  /** Leaving key out is justified: its worker is served by a slot no worse, or all places went to slots no worse. */
  predicate RightlyLeftOut(slots: Slots, chosen: seq<SlotKey>, k: int, key: SlotKey)
    requires key in slots && Known(slots, chosen)
  {
    || (exists i :: 0 <= i < |chosen| && chosen[i].worker == key.worker && !Better(slots[key], slots[chosen[i]]))
    || (|chosen| == k && forall i :: 0 <= i < |chosen| ==> !Better(slots[key], slots[chosen[i]]))
  }

  // ---- The choice --------------------------------------------------------------------------------------------

  /** Never a candidate: a slot of another kind, one that is not active, alive and ready, that is in error, loading or
      too hot, overloaded or with a full queue, silent for longer than the timeout or for ever, or cooling down. */
  lemma CandidatesAreUsable(slots: Slots, kind: U8, now: int, key: SlotKey)
    requires key in slots
    ensures var s := slots[key];
            key !in Candidates(slots, kind, now) <==>
              || s.kind != kind || !s.active || !s.alive || !s.ready || s.error || s.modelLoading || s.thermalLimit
              || s.load >= 90 || s.queueDepth >= 8 || s.lastHeartbeat == 0 || now - s.lastHeartbeat > 5_000_000_000
              || now < s.cooldownUntil
  {
  }

  /** The slots of the right kind that may be used, in some order. */
  method Collect(slots: Slots, kind: U8, now: int) returns (found: seq<SlotKey>)
    ensures Known(slots, found) && forall key :: key in found <==> key in Candidates(slots, kind, now)
    ensures forall i, j :: 0 <= i < j < |found| ==> found[i] != found[j]
  {
    found := [];
    var pending := slots.Keys;
    while pending != {}
      invariant pending <= slots.Keys && Known(slots, found)
      invariant forall key :: key in found <==> key in Candidates(slots, kind, now) && key !in pending
      invariant forall i, j :: 0 <= i < j < |found| ==> found[i] != found[j]
      decreases pending
    {
      var key :| key in pending;
      pending := pending - {key};
      var slot := slots[key];
      if slot.kind == kind && Eligible(slot, now) {
        found := found + [key];
      }
    }
  }

  /** A library sort: any order of the keys that the comparison allows. */
  method SortCandidates(slots: Slots, keys: seq<SlotKey>) returns (sorted: seq<SlotKey>)
    requires Known(slots, keys)
    ensures InOrder(slots, sorted) && multiset(sorted) == multiset(keys)
  {
    hide InOrder;
    sorted := [];
    assert InOrder(slots, sorted) by { NothingInOrder(slots); }
    var n := 0;
    while n < |keys|
      invariant n <= |keys| && multiset(sorted) == multiset(keys[..n]) && InOrder(slots, sorted)
    {
      sorted := InsertCandidate(slots, sorted, keys[n]);
      assert keys[..n + 1] == keys[..n] + [keys[n]];
      n := n + 1;
    }
    assert keys[..n] == keys;
  }

  lemma NothingInOrder(slots: Slots)
    ensures InOrder(slots, [])
  {
  }

  method InsertCandidate(slots: Slots, sorted: seq<SlotKey>, key: SlotKey) returns (longer: seq<SlotKey>)
    requires InOrder(slots, sorted) && key in slots
    ensures InOrder(slots, longer) && multiset(longer) == multiset(sorted) + multiset{key}
  {
    hide Better;
    var p := |sorted|;
    while p > 0 && Better(slots[key], slots[sorted[p - 1]])
      invariant 0 <= p <= |sorted|
      invariant forall i :: p <= i < |sorted| ==> Better(slots[key], slots[sorted[i]])
    {
      p := p - 1;
    }
    Inserted(slots, sorted, key, p);
    assert sorted == sorted[..p] + sorted[p..];
    longer := sorted[..p] + [key] + sorted[p..];
  }

  lemma Inserted(slots: Slots, sorted: seq<SlotKey>, key: SlotKey, p: nat)
    requires key in slots && p <= |sorted| && InOrder(slots, sorted)
    requires forall i :: p <= i < |sorted| ==> Better(slots[key], slots[sorted[i]])
    requires p > 0 ==> !Better(slots[key], slots[sorted[p - 1]])
    ensures InOrder(slots, sorted[..p] + [key] + sorted[p..])
  {
    hide Better;
    var all := sorted[..p] + [key] + sorted[p..];
    forall i, j | 0 <= i < j < |all| ensures !Better(slots[all[j]], slots[all[i]]) {
      if j == p {
        if i < p - 1 { NoBetterIsTransitive(slots[sorted[i]], slots[sorted[p - 1]], slots[key]); }
      } else if i == p {
        StrictWeakOrder(slots[key], slots[all[j]], slots[key]);
      }
    }
  }

  /** The best slots: every one a candidate, no two of one worker, best first; as many as asked for, or one of
      each worker that has a candidate; and every candidate left out rightly so. */
  method SelectBestSlots(slots: Slots, kind: U8, now: int, k: int) returns (chosen: seq<SlotKey>)
    ensures forall i :: 0 <= i < |chosen| ==> chosen[i] in Candidates(slots, kind, now)
    ensures DistinctWorkers(chosen) && InOrder(slots, chosen)
    ensures var workers := |Workers(Candidates(slots, kind, now))|;
            |chosen| == if k <= 0 then 0 else if k < workers then k else workers
    ensures k > 0 ==> forall key :: key in Candidates(slots, kind, now) && key !in chosen ==>
              RightlyLeftOut(slots, chosen, k, key)
    ensures chosen != [] ==> forall key :: key in Candidates(slots, kind, now) ==>
              !Beats(slots[key], slots[chosen[0]])
  {
    hide Better, Eligible, Score, Beats;
    if k <= 0 {
      return [];
    }
    var found := Collect(slots, kind, now);
    var sorted := SortCandidates(slots, found);
    SameMembers(slots, kind, now, found, sorted);
    ghost var at;
    chosen, at := TakeFirstOfEachWorker(slots, kind, now, k, sorted);
    FirstIsUnbeaten(slots, kind, now, k, chosen);
  }

  /** No candidate beats the slot chosen first. */
  lemma FirstIsUnbeaten(slots: Slots, kind: U8, now: int, k: int, chosen: seq<SlotKey>)
    requires k > 0 && InOrder(slots, chosen)
    requires forall key :: key in Candidates(slots, kind, now) && key !in chosen ==>
               RightlyLeftOut(slots, chosen, k, key)
    ensures chosen != [] ==> forall key :: key in Candidates(slots, kind, now) ==>
              !Beats(slots[key], slots[chosen[0]])
  {
    hide Better, Eligible, Beats;
    if chosen != [] {
      forall key | key in Candidates(slots, kind, now) ensures !Beats(slots[key], slots[chosen[0]]) {
        assert !Better(slots[key], slots[chosen[0]]) by { NotBetterThanFirst(slots, k, chosen, key); }
        if Beats(slots[key], slots[chosen[0]]) { BeatsIsBetter(slots[key], slots[chosen[0]]); }
      }
    }
  }

  lemma NotBetterThanFirst(slots: Slots, k: int, chosen: seq<SlotKey>, key: SlotKey)
    requires k > 0 && InOrder(slots, chosen) && chosen != [] && key in slots
    requires key !in chosen ==> RightlyLeftOut(slots, chosen, k, key)
    ensures !Better(slots[key], slots[chosen[0]])
  {
    hide Better;
    var first := slots[chosen[0]];
    StrictWeakOrder(first, first, first);
    if key in chosen {
      var i :| 0 <= i < |chosen| && chosen[i] == key;
    } else if !(|chosen| == k && forall i :: 0 <= i < |chosen| ==> !Better(slots[key], slots[chosen[i]])) {
      var i :| 0 <= i < |chosen| && chosen[i].worker == key.worker && !Better(slots[key], slots[chosen[i]]);
      if i > 0 { NoBetterIsTransitive(first, slots[chosen[i]], slots[key]); }
    }
  }

  lemma SameMembers(slots: Slots, kind: U8, now: int, found: seq<SlotKey>, sorted: seq<SlotKey>)
    requires multiset(sorted) == multiset(found)
    requires forall key :: key in found <==> key in Candidates(slots, kind, now)
    ensures forall key :: key in sorted <==> key in Candidates(slots, kind, now)
  {
    hide Candidates;
    forall key ensures key in sorted <==> key in Candidates(slots, kind, now) {
      assert key in sorted <==> key in multiset(sorted);
      assert key in found <==> key in multiset(found);
    }
  }

  /** The walk over the sorted candidates. */
  method TakeFirstOfEachWorker(slots: Slots, kind: U8, now: int, k: int, sorted: seq<SlotKey>)
    returns (chosen: seq<SlotKey>, ghost at: seq<nat>)
    requires k > 0 && InOrder(slots, sorted)
    requires forall key :: key in sorted <==> key in Candidates(slots, kind, now)
    ensures forall i :: 0 <= i < |chosen| ==> chosen[i] in Candidates(slots, kind, now)
    ensures DistinctWorkers(chosen) && InOrder(slots, chosen)
    ensures var workers := |Workers(Candidates(slots, kind, now))|; |chosen| == if k < workers then k else workers
    ensures forall key :: key in Candidates(slots, kind, now) && key !in chosen ==>
              RightlyLeftOut(slots, chosen, k, key)
  {
    hide Candidates, InOrder, Better, RightlyLeftOut, Served;
    chosen, at := [], [];
    var used: set<U16> := {};
    var n := 0;
    while n < |sorted| && |chosen| < k
      invariant n <= |sorted| && |chosen| <= k && |used| == |chosen|
      invariant Taken(sorted, n, chosen, at)
      invariant UsedBy(used, chosen)
      invariant forall i :: 0 <= i < n ==> Served(sorted, chosen, at, i)
    {
      var key := sorted[n];
      if key.worker !in used {
        TakenNext(sorted, n, chosen, at);
        UsedNext(used, chosen, key);
        chosen, used, at := chosen + [key], used + {key.worker}, at + [n];
      } else {
        Skipped(sorted, n, chosen, at);
      }
      n := n + 1;
    }
    Concluded(slots, kind, now, k, sorted, n, chosen, at, used);
  }

  /** The workers that were served. */
  ghost predicate UsedBy(used: set<U16>, chosen: seq<SlotKey>) {
    forall w :: w in used <==> exists i :: 0 <= i < |chosen| && chosen[i].worker == w
  }

  lemma UsedNext(used: set<U16>, chosen: seq<SlotKey>, key: SlotKey)
    requires UsedBy(used, chosen)
    ensures UsedBy(used + {key.worker}, chosen + [key])
  {
    var longer := chosen + [key];
    forall w ensures w in used + {key.worker} <==> exists i :: 0 <= i < |longer| && longer[i].worker == w {
      if w in used {
        var i :| 0 <= i < |chosen| && chosen[i].worker == w;
        assert longer[i].worker == w;
      }
      assert longer[|chosen|].worker == key.worker;
    }
  }

  lemma TakenNext(sorted: seq<SlotKey>, n: nat, chosen: seq<SlotKey>, at: seq<nat>)
    requires n < |sorted| && Taken(sorted, n, chosen, at)
    requires forall i :: 0 <= i < |chosen| ==> chosen[i].worker != sorted[n].worker
    requires forall i :: 0 <= i < n ==> Served(sorted, chosen, at, i)
    ensures Taken(sorted, n + 1, chosen + [sorted[n]], at + [n])
    ensures forall i :: 0 <= i < n + 1 ==> Served(sorted, chosen + [sorted[n]], at + [n], i)
  {
    var longer, places := chosen + [sorted[n]], at + [n];
    forall i | 0 <= i < n + 1 ensures Served(sorted, longer, places, i) {
      if i < n {
        assert Served(sorted, chosen, at, i);
        var j :| 0 <= j < |chosen| && chosen[j].worker == sorted[i].worker && at[j] <= i;
        assert longer[j] == chosen[j] && places[j] == at[j];
      } else {
        assert longer[|chosen|].worker == sorted[i].worker && places[|chosen|] == n;
      }
    }
  }

  lemma Skipped(sorted: seq<SlotKey>, n: nat, chosen: seq<SlotKey>, at: seq<nat>)
    requires n < |sorted| && Taken(sorted, n, chosen, at)
    requires exists i :: 0 <= i < |chosen| && chosen[i].worker == sorted[n].worker
    ensures Taken(sorted, n + 1, chosen, at) && Served(sorted, chosen, at, n)
  {
    var i :| 0 <= i < |chosen| && chosen[i].worker == sorted[n].worker;
    assert at[i] < n;
  }

  /** The chosen keys are those at the given rising places of the sorted list. */
  ghost predicate Taken(sorted: seq<SlotKey>, n: nat, chosen: seq<SlotKey>, at: seq<nat>) {
    && |at| == |chosen| && n <= |sorted|
    && (forall i :: 0 <= i < |at| ==> at[i] < n && sorted[at[i]] == chosen[i])
    && (forall i, j :: 0 <= i < j < |at| ==> at[i] < at[j])
    && DistinctWorkers(chosen)
  }

  /** The worker of the i-th sorted key was served at or before it. */
  ghost predicate Served(sorted: seq<SlotKey>, chosen: seq<SlotKey>, at: seq<nat>, i: nat)
    requires i < |sorted| && |at| == |chosen|
  {
    exists j :: 0 <= j < |chosen| && chosen[j].worker == sorted[i].worker && at[j] <= i
  }

  /** All workers of the sorted list up to n have been served, and no others. */
  lemma UsedAreServed(sorted: seq<SlotKey>, n: nat, chosen: seq<SlotKey>, at: seq<nat>, used: set<U16>,
                      all: set<SlotKey>)
    requires Taken(sorted, n, chosen, at) && forall key :: key in sorted <==> key in all
    requires UsedBy(used, chosen)
    requires forall i :: 0 <= i < n ==> Served(sorted, chosen, at, i)
    ensures used <= Workers(all) && (n == |sorted| ==> used == Workers(all))
  {
    forall w | w in used ensures w in Workers(all) {
      var i :| 0 <= i < |chosen| && chosen[i].worker == w;
      assert sorted[at[i]] in sorted;
    }
    if n == |sorted| {
      forall w | w in Workers(all) ensures w in used {
        var key :| key in all && key.worker == w;
        var i :| 0 <= i < |sorted| && sorted[i] == key;
        assert Served(sorted, chosen, at, i);
      }
    }
  }

  lemma ChosenInOrder(slots: Slots, sorted: seq<SlotKey>, n: nat, chosen: seq<SlotKey>, at: seq<nat>)
    requires InOrder(slots, sorted) && Taken(sorted, n, chosen, at)
    ensures InOrder(slots, chosen)
  {
    hide Better;
    assert forall i :: 0 <= i < |chosen| ==> chosen[i] == sorted[at[i]];
  }

  lemma LeftOut(slots: Slots, k: int, sorted: seq<SlotKey>, n: nat, chosen: seq<SlotKey>, at: seq<nat>, i: nat)
    requires k > 0 && i < |sorted| && (n == |sorted| || |chosen| == k)
    requires InOrder(slots, sorted) && Taken(sorted, n, chosen, at) && sorted[i] !in chosen && Known(slots, chosen)
    requires forall j :: 0 <= j < n ==> Served(sorted, chosen, at, j)
    ensures RightlyLeftOut(slots, chosen, k, sorted[i])
  {
    hide Better;
    if i < n {
      assert Served(sorted, chosen, at, i);
      var j :| 0 <= j < |chosen| && chosen[j].worker == sorted[i].worker && at[j] <= i;
      assert chosen[j] == sorted[at[j]] && at[j] != i;
    } else {
      assert forall j :: 0 <= j < |chosen| ==> at[j] < i && chosen[j] == sorted[at[j]];
    }
  }

  lemma Concluded(slots: Slots, kind: U8, now: int, k: int, sorted: seq<SlotKey>, n: nat, chosen: seq<SlotKey>,
                  at: seq<nat>, used: set<U16>)
    requires k > 0 && n <= |sorted| && (n == |sorted| || |chosen| == k) && |chosen| <= k
    requires forall key :: key in sorted <==> key in Candidates(slots, kind, now)
    requires InOrder(slots, sorted) && Taken(sorted, n, chosen, at) && |used| == |chosen|
    requires UsedBy(used, chosen)
    requires forall i :: 0 <= i < n ==> Served(sorted, chosen, at, i)
    ensures forall i :: 0 <= i < |chosen| ==> chosen[i] in Candidates(slots, kind, now)
    ensures InOrder(slots, chosen)
    ensures var workers := |Workers(Candidates(slots, kind, now))|; |chosen| == if k < workers then k else workers
    ensures forall key :: key in Candidates(slots, kind, now) && key !in chosen ==>
              RightlyLeftOut(slots, chosen, k, key)
  {
    hide Better, Eligible, Served, InOrder, RightlyLeftOut;
    var all := Candidates(slots, kind, now);
    ChosenInOrder(slots, sorted, n, chosen, at);
    UsedAreServed(sorted, n, chosen, at, used, all);
    Counting.SubsetSize(used, Workers(all));
    assert forall i :: 0 <= i < |chosen| ==> chosen[i] == sorted[at[i]] && sorted[at[i]] in sorted;
    forall key | key in all && key !in chosen ensures RightlyLeftOut(slots, chosen, k, key) {
      var i :| 0 <= i < |sorted| && sorted[i] == key;
      LeftOut(slots, k, sorted, n, chosen, at, i);
    }
  }
}
