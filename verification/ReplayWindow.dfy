/** The 128-bit sliding replay window and the in-order stream tracker.

    Sequence numbers are 64-bit unsigned numbers. A 64-bit bitmap word is written as its bits, least
    significant first, with the shifts and the bitwise or of such words. Bit d of the bitmap stands for the
    number d below the highest accepted one. */
module ReplayWindow {

  import opened Basics

  function Zeros(n: nat): seq<bool> {
    seq(n, _ => false)
  }

  type Word = w: seq<bool> | |w| == 64 witness Zeros(64)

  const ZERO: Word := Zeros(64)

  const ONE: Word := [true] + Zeros(63)

  function Or(v: Word, w: Word): Word {
    seq(64, (i: nat) requires i < 64 => v[i] || w[i])
  }

  function ShiftLeft(w: Word, d: nat): Word
    requires d < 64
  {
    Zeros(d) + w[..64 - d]
  }

  function ShiftRight(w: Word, d: nat): Word
    requires d < 64
  {
    w[d..] + Zeros(d)
  }

  datatype Status = Accepted | Duplicate | TooOld | InvalidSeq

  const WINDOW_SIZE := 128

  datatype Window = Window(max: U64, bitmap: (Word, Word))

  const EMPTY := Window(0, (ZERO, ZERO))

  /** Whether the bitmap records the number d below the highest one. */
  predicate Marked(w: Window, d: nat)
    requires d < WINDOW_SIZE
  {
    if d < 64 then w.bitmap.0[d] else w.bitmap.1[d - 64]
  }

  function Check(w: Window, n: U64): Status {
    if n == 0 then InvalidSeq
    else if w.max == 0 || n > w.max then Accepted
    else if w.max - n >= WINDOW_SIZE then TooOld
    else if Marked(w, w.max - n) then Duplicate
    else Accepted
  }

  /** The bitmap after its highest number has risen by diff. */
  function Slide(bitmap: (Word, Word), diff: nat): (Word, Word)
    requires diff > 0
  {
    if diff >= WINDOW_SIZE then (ONE, ZERO)
    else if diff >= 64 then (ONE, ShiftLeft(bitmap.0, diff - 64))
    else (Or(ShiftLeft(bitmap.0, diff), ONE), Or(ShiftLeft(bitmap.1, diff), ShiftRight(bitmap.0, 64 - diff)))
  }

  function Mark(bitmap: (Word, Word), d: nat): (Word, Word)
    requires d < WINDOW_SIZE
  {
    if d < 64 then (Or(bitmap.0, ShiftLeft(ONE, d)), bitmap.1)
    else (bitmap.0, Or(bitmap.1, ShiftLeft(ONE, d - 64)))
  }

  function Update(w: Window, n: U64): (Window, Status) {
    if n == 0 then (w, InvalidSeq)
    else if w.max == 0 then (Window(n, (ONE, ZERO)), Accepted)
    else if n > w.max then (Window(n, Slide(w.bitmap, n - w.max)), Accepted)
    else if w.max - n >= WINDOW_SIZE then (w, TooOld)
    else if Marked(w, w.max - n) then (w, Duplicate)
    else (w.(bitmap := Mark(w.bitmap, w.max - n)), Accepted)
  }

  // ---- The bitmap stands for a set ---------------------------------------------------------------------------

  /** Sliding moves every mark up by diff, drops those that leave the window and adds one at 0. */
  lemma SlideMoves(w: Window, n: U64, d: nat)
    requires n > w.max && d < WINDOW_SIZE
    ensures
      var diff := n - w.max;
      Marked(Window(n, Slide(w.bitmap, diff)), d) == (d == 0 || (d >= diff && Marked(w, d - diff)))
  {
  }

  lemma MarkAdds(w: Window, at: nat, d: nat)
    requires at < WINDOW_SIZE && d < WINDOW_SIZE
    ensures Marked(w.(bitmap := Mark(w.bitmap, at)), d) == (Marked(w, d) || d == at)
  {
  }

  /** The plain rule the bitmap implements: remember every accepted number and the highest of them. */
  datatype Reference = Reference(accepted: set<U64>, max: U64)

  function ReferenceCheck(r: Reference, n: U64): Status {
    if n == 0 then InvalidSeq
    else if n > r.max then Accepted
    else if r.max - n >= WINDOW_SIZE then TooOld
    else if n in r.accepted then Duplicate
    else Accepted
  }

  function ReferenceUpdate(r: Reference, n: U64): (Reference, Status) {
    var status := ReferenceCheck(r, n);
    if status == Accepted then (Reference(r.accepted + {n}, if n > r.max then n else r.max), status)
    else (r, status)
  }

  ghost predicate Represents(w: Window, r: Reference) {
    && w.max == r.max
    && (r.max == 0 <==> r.accepted == {})
    && (r.max != 0 ==> r.max in r.accepted)
    && (forall n :: n in r.accepted ==> 0 < n <= r.max)
    && (w.max != 0 ==> forall d: nat :: d < WINDOW_SIZE ==>
          (Marked(w, d) <==> d < w.max && w.max - d in r.accepted))
  }

  lemma CheckAgrees(w: Window, r: Reference, n: U64)
    requires Represents(w, r)
    ensures Check(w, n) == ReferenceCheck(r, n)
  {
    if 0 < n <= w.max && w.max - n < WINDOW_SIZE {
      var d: nat := w.max - n;
      assert Marked(w, d) <==> d < w.max && w.max - d in r.accepted;
    }
  }

  /** One update of the bitmap is one update of the set, with the same verdict. */
  lemma UpdateAgrees(w: Window, r: Reference, n: U64)
    requires Represents(w, r)
    ensures
      && Update(w, n).1 == ReferenceUpdate(r, n).1 == Check(w, n)
      && Represents(Update(w, n).0, ReferenceUpdate(r, n).0)
  {
    CheckAgrees(w, r, n);
    var w', r' := Update(w, n).0, ReferenceUpdate(r, n).0;
    if ReferenceCheck(r, n) == Accepted {
      forall d: nat | d < WINDOW_SIZE
        ensures Marked(w', d) <==> d < w'.max && w'.max - d in r'.accepted
      {
        if w.max == 0 {
        } else if n > w.max {
          var diff: nat := n - w.max;
          SlideMoves(w, n, d);
          if d >= diff {
            var e: nat := d - diff;
            assert Marked(w, e) <==> e < w.max && w.max - e in r.accepted;
            assert w.max - e == n - d;
          }
        } else {
          MarkAdds(w, w.max - n, d);
          assert Marked(w, d) <==> d < w.max && w.max - d in r.accepted;
        }
      }
    }
  }

  // ---- Whole runs --------------------------------------------------------------------------------------------

  datatype Operation = Receive(n: U64) | Reset

  function WindowAfter(ops: seq<Operation>): Window {
    if ops == [] then EMPTY
    else match ops[|ops| - 1]
         case Receive(n) => Update(WindowAfter(ops[..|ops| - 1]), n).0
         case Reset => EMPTY
  }

  function ReferenceAfter(ops: seq<Operation>): Reference {
    if ops == [] then Reference({}, 0)
    else match ops[|ops| - 1]
         case Receive(n) => ReferenceUpdate(ReferenceAfter(ops[..|ops| - 1]), n).0
         case Reset => Reference({}, 0)
  }

  /** After any operations the bitmap stands for the set of numbers accepted since the last reset. */
  lemma {:induction false} RunsAgree(ops: seq<Operation>)
    ensures Represents(WindowAfter(ops), ReferenceAfter(ops))
  {
    if ops != [] {
      RunsAgree(ops[..|ops| - 1]);
      match ops[|ops| - 1]
      case Receive(n) => UpdateAgrees(WindowAfter(ops[..|ops| - 1]), ReferenceAfter(ops[..|ops| - 1]), n);
      case Reset =>
    }
  }

  /** Whether the k-th operation received a number that was accepted. */
  predicate AcceptedAt(ops: seq<Operation>, k: nat)
    requires k < |ops|
  {
    ops[k].Receive? && Check(WindowAfter(ops[..k]), ops[k].n) == Accepted
  }

  /** An accepted number stays in the set until a reset. */
  lemma {:induction false} StaysAccepted(ops: seq<Operation>, k: nat)
    requires k < |ops| && AcceptedAt(ops, k) && Reset !in ops[k..]
    ensures ops[k].n in ReferenceAfter(ops).accepted
  {
    var last := |ops| - 1;
    RunsAgree(ops[..last]);
    if k == last {
      UpdateAgrees(WindowAfter(ops[..last]), ReferenceAfter(ops[..last]), ops[k].n);
    } else {
      assert ops[..last][..k] == ops[..k];
      assert ops[k..] == ops[..last][k..] + [ops[last]];
      StaysAccepted(ops[..last], k);
    }
  }

  /** No number is accepted twice without a reset in between. */
  lemma NeverAcceptedTwice(ops: seq<Operation>, i: nat, j: nat)
    requires i < j < |ops| && Reset !in ops[i..j]
    requires AcceptedAt(ops, i) && AcceptedAt(ops, j)
    ensures ops[i].n != ops[j].n
  {
    assert ops[..j][..i] == ops[..i] && ops[..j][i..] == ops[i..j];
    StaysAccepted(ops[..j], i);
    RunsAgree(ops[..j]);
    CheckAgrees(WindowAfter(ops[..j]), ReferenceAfter(ops[..j]), ops[j].n);
    assert ops[i].n <= ReferenceAfter(ops[..j]).max;
  }

  /** And a number is accepted exactly when it is not zero, has not been accepted since the last reset, and
      lies above the highest accepted number minus the window size (any number does if there is none). */
  lemma AcceptsExactlyNewInWindow(ops: seq<Operation>, n: U64)
    ensures
      var r := ReferenceAfter(ops);
      Check(WindowAfter(ops), n) == Accepted <==>
        n != 0 && n !in r.accepted && (r.accepted == {} || n > r.max - WINDOW_SIZE)
  {
    RunsAgree(ops);
    CheckAgrees(WindowAfter(ops), ReferenceAfter(ops), n);
  }

  /** The window object of the source, updated in place. accepted is what it has accepted since the last
      reset. */
  class SlidingReplayWindow {
    var max: U64
    const bitmap: array<Word>
    ghost var accepted: set<U64>

    ghost function Value(): Window
      reads this, bitmap
      requires bitmap.Length == 2
    {
      Window(max, (bitmap[0], bitmap[1]))
    }

    ghost predicate Valid()
      reads this, bitmap
    {
      bitmap.Length == 2 && Represents(Value(), Reference(accepted, max))
    }

    constructor ()
      ensures Valid() && fresh(bitmap) && Value() == EMPTY && accepted == {}
    {
      bitmap := new Word[2](_ => ZERO);
      max, accepted := 0, {};
    }

    method CheckSeq(n: U64) returns (status: Status)
      requires Valid()
      ensures status == Check(Value(), n)
      ensures status == Accepted <==> n != 0 && n !in accepted && (accepted == {} || n > max - WINDOW_SIZE)
    {
      CheckAgrees(Value(), Reference(accepted, max), n);
      if n == 0 {
        return InvalidSeq;
      }
      if max == 0 || n > max {
        return Accepted;
      }
      var diff := max - n;
      if diff >= WINDOW_SIZE {
        return TooOld;
      }
      if bitmap[diff / 64][diff % 64] {
        return Duplicate;
      }
      return Accepted;
    }

    method UpdateSeq(n: U64) returns (status: Status)
      requires Valid()
      modifies this, bitmap
      ensures Valid() && status == old(Check(Value(), n))
      ensures (Value(), status) == Update(old(Value()), n)
      ensures accepted == if status == Accepted then old(accepted) + {n} else old(accepted)
    {
      UpdateAgrees(Value(), Reference(accepted, max), n);
      if n == 0 {
        return InvalidSeq;
      }
      if max == 0 {
        max := n;
        bitmap[0] := ONE;
        bitmap[1] := ZERO;
        accepted := accepted + {n};
        return Accepted;
      }
      if n > max {
        var diff := n - max;
        if diff >= WINDOW_SIZE {
          bitmap[0] := ONE;
          bitmap[1] := ZERO;
        } else if diff >= 64 {
          bitmap[1] := ShiftLeft(bitmap[0], diff - 64);
          bitmap[0] := ONE;
        } else {
          bitmap[1] := Or(ShiftLeft(bitmap[1], diff), ShiftRight(bitmap[0], 64 - diff));
          bitmap[0] := Or(ShiftLeft(bitmap[0], diff), ONE);
        }
        max := n;
        accepted := accepted + {n};
        return Accepted;
      }
      var diff := max - n;
      if diff >= WINDOW_SIZE {
        return TooOld;
      }
      if bitmap[diff / 64][diff % 64] {
        return Duplicate;
      }
      bitmap[diff / 64] := Or(bitmap[diff / 64], ShiftLeft(ONE, diff % 64));
      accepted := accepted + {n};
      return Accepted;
    }

    method CheckAndUpdate(n: U64) returns (status: Status)
      requires Valid()
      modifies this, bitmap
      ensures Valid() && (Value(), status) == Update(old(Value()), n)
      ensures accepted == if status == Accepted then old(accepted) + {n} else old(accepted)
    {
      status := CheckSeq(n);
      UpdateAgrees(Value(), Reference(accepted, max), n);
      if status == Accepted {
        status := UpdateSeq(n);
      }
    }

    method Clear()
      requires Valid()
      modifies this, bitmap
      ensures Valid() && Value() == EMPTY && accepted == {}
    {
      max, accepted := 0, {};
      bitmap[0] := ZERO;
      bitmap[1] := ZERO;
    }
  }

  // ---- In-order streams --------------------------------------------------------------------------------------

  datatype Position = Position(event: U64, fragment: U64, hasFragment: bool)

  datatype Tracker = Tracker(last: Position, started: bool)

  function TrackerAdvance(t: Tracker, p: Position): (Tracker, bool) {
    if p.event == 0 then (t, false)
    else if !t.started || p.event > t.last.event then
      if p.hasFragment && p.fragment != 0 then (t, false) else (Tracker(p, true), true)
    else if p.event == t.last.event && p.hasFragment && p.fragment > t.last.fragment then (Tracker(p, true), true)
    else (t, false)
  }

  function TrackerAfter(ps: seq<Position>): Tracker {
    if ps == [] then Tracker(Position(0, 0, false), false)
    else TrackerAdvance(TrackerAfter(ps[..|ps| - 1]), ps[|ps| - 1]).0
  }

  predicate Advances(ps: seq<Position>, k: nat)
    requires k < |ps|
  {
    TrackerAdvance(TrackerAfter(ps[..k]), ps[k]).1
  }

  predicate Precedes(p: Position, q: Position) {
    p.event < q.event || (p.event == q.event && q.hasFragment && p.fragment < q.fragment)
  }

  lemma {:induction false} LastIsHighest(ps: seq<Position>, k: nat)
    requires k < |ps| && Advances(ps, k)
    ensures TrackerAfter(ps).started
    ensures TrackerAfter(ps).last == ps[k] || Precedes(ps[k], TrackerAfter(ps).last)
  {
    var last := |ps| - 1;
    if k < last {
      assert ps[..last][..k] == ps[..k];
      LastIsHighest(ps[..last], k);
    }
  }

  /** The accepted positions of a stream strictly increase, by event and then by fragment, and a new event
      that carries fragments starts at fragment zero. */
  lemma AcceptedPositionsIncrease(ps: seq<Position>, i: nat, j: nat)
    requires i < j < |ps| && Advances(ps, i) && Advances(ps, j)
    ensures Precedes(ps[i], ps[j])
    ensures ps[i].event < ps[j].event && ps[j].hasFragment ==> ps[j].fragment == 0 || exists k ::
              i < k < j && Advances(ps, k) && ps[k].event == ps[j].event
  {
    assert ps[..j][..i] == ps[..i];
    LastIsHighest(ps[..j], i);
    if ps[i].event < ps[j].event && ps[j].hasFragment && ps[j].fragment != 0 {
      var k := LastIsSome(ps[..j], i);
      assert ps[..j][..k] == ps[..k];
      assert Advances(ps, k);
      assert k != i;
    }
  }

  lemma {:induction false} LastIsSome(ps: seq<Position>, i: nat) returns (k: nat)
    requires i < |ps| && Advances(ps, i)
    ensures i <= k < |ps| && Advances(ps, k) && TrackerAfter(ps).last == ps[k] && TrackerAfter(ps).started
  {
    var last := |ps| - 1;
    if Advances(ps, last) {
      k := last;
    } else {
      assert ps[..last][..i] == ps[..i];
      k := LastIsSome(ps[..last], i);
      assert ps[..last][..k] == ps[..k];
    }
  }

  lemma {:induction false} NothingStarted(ps: seq<Position>)
    requires forall i :: 0 <= i < |ps| ==> !Advances(ps, i)
    ensures !TrackerAfter(ps).started
  {
    if ps != [] {
      var before := ps[..|ps| - 1];
      forall i | 0 <= i < |before| ensures !Advances(before, i) {
        assert before[..i] == ps[..i];
        assert !Advances(ps, i);
      }
      NothingStarted(before);
      assert !Advances(ps, |ps| - 1);
    }
  }

  predicate EventBegun(ps: seq<Position>, j: nat)
    requires j < |ps|
  {
    exists i :: 0 <= i < j && Advances(ps, i) && ps[i].event == ps[j].event
  }

  /** A position is accepted exactly if it has an event number, every position accepted before precedes it, and it is a
      later fragment only of an event already begun. */
  lemma AdvancesExactly(ps: seq<Position>, j: nat)
    requires j < |ps|
    ensures Advances(ps, j) <==>
            && ps[j].event != 0 && (forall i :: 0 <= i < j && Advances(ps, i) ==> Precedes(ps[i], ps[j]))
            && (ps[j].hasFragment && ps[j].fragment != 0 ==> EventBegun(ps, j))
  {
    var before := ps[..j];
    forall i | 0 <= i < j ensures before[..i] == ps[..i] && (Advances(before, i) <==> Advances(ps, i)) { }
    forall i | 0 <= i < j && Advances(ps, i)
      ensures TrackerAfter(before).last == ps[i] || Precedes(ps[i], TrackerAfter(before).last)
    {
      LastIsHighest(before, i);
    }
    if i: nat :| i < j && Advances(ps, i) {
      var k := LastIsSome(before, i);
      assert Advances(ps, k) && TrackerAfter(before).last == ps[k];
    } else {
      NothingStarted(before);
    }
  }

  class MonotonicStreamTracker {
    var lastEvent: U64
    var lastFragment: U64
    var hasStarted: bool

    /** hasFragment of the last position is not kept; no later verdict depends on it. */
    ghost predicate Holds(t: Tracker)
      reads this
    {
      hasStarted == t.started && lastEvent == t.last.event && lastFragment == t.last.fragment
    }

    constructor ()
      ensures Holds(TrackerAfter([]))
    {
      lastEvent, lastFragment, hasStarted := 0, 0, false;
    }

    method CheckAndAdvance(event: U64, fragment: U64, hasFragment: bool, ghost t: Tracker) returns (ok: bool)
      requires Holds(t)
      modifies this
      ensures ok == TrackerAdvance(t, Position(event, fragment, hasFragment)).1
      ensures Holds(TrackerAdvance(t, Position(event, fragment, hasFragment)).0)
    {
      if event == 0 {
        return false;
      }
      if !hasStarted {
        if hasFragment && fragment != 0 {
          return false;
        }
        lastEvent, lastFragment, hasStarted := event, fragment, true;
        return true;
      }
      if event > lastEvent {
        if hasFragment && fragment != 0 {
          return false;
        }
        lastEvent, lastFragment := event, fragment;
        return true;
      }
      if event == lastEvent {
        if !hasFragment {
          return false;
        }
        if fragment <= lastFragment {
          return false;
        }
        lastFragment := fragment;
        return true;
      }
      return false;
    }
  }
}
