/** The scheduler gets on: every step but a submit that changes anything brings it nearer to the end, and while a task
    is still on its way there is such a step. */
module DispatchProgress {

  import opened Basics
  import opened Counting
  import opened Dispatch

  // ---- How far there is to go --------------------------------------------------------------------------------

  /** The steps a thread has before it at most. */
  function StepsLeft(t: Thread): nat {
    match t
    case Transport => 10
    case Record(_) => 9
    case Claim(_) => 8
    case Report(_) => 7
    case Leave => 6
    case Inspect => 5
    case Decide => 4
    case Requeue => 3
    case LastClaim(_) => 2
    case LastReport(_) => 1
    case Exited => 0
  }

  /** What a task may still cost: a round now, and one more for each attempt left. */
  function Ahead(task: Task): nat {
    40 * (1 + if task.maxAttempts > task.attempts then task.maxAttempts - task.attempts else 0)
  }

  function CallerAhead(c: Caller): nat {
    match c case Pushing(task) => Ahead(task) + 6 case Rejecting(_) => 1 case Returned => 0
  }

  function QueuedAhead(task: Task): nat { Ahead(task) + 5 }

  function TakenAhead(task: Task): nat { Ahead(task) + 2 }

  /** A round that may put its task back keeps that in reserve. */
  function RoundAhead(r: Round): nat {
    Sum(r.threads, StepsLeft) + if Open(r) && r.task.attempts < r.task.maxAttempts then QueuedAhead(r.task) else 0
  }

  function Distance(s: System): nat {
    Sum(s.callers, CallerAhead) + Sum(s.queue, QueuedAhead) + Sum(s.snapshot, TakenAhead) + Sum(s.rounds, RoundAhead) +
    if s.draining && s.snapshot != [] then 1 else 0
  }

  // ---- Every step brings it nearer ---------------------------------------------------------------------------

  lemma OneStepLess(r: Round, t: nat, env: Environment)
    requires t < |r.threads|
    ensures var (r', e) := ThreadStep(r, t, env);
            && |r'.threads| == |r.threads| && r'.threads == r.threads[t := r'.threads[t]]
            && (r.threads[t].Exited? ==> r' == r && e.Nothing?)
            && (!r.threads[t].Exited? ==> StepsLeft(r'.threads[t]) < StepsLeft(r.threads[t]))
  {
    hide Chosen;
  }

  lemma ThreadGetsOn(r: Round, t: nat, env: Environment)
    requires RoundInv(r) && t < |r.threads| && !r.threads[t].Exited?
    ensures var (r', e) := ThreadStep(r, t, env);
            RoundAhead(r') + (if e.Put? then QueuedAhead(r.task) else 0) < RoundAhead(r)
  {
    hide ThreadStep, RoundInv, StepsLeft;
    OneStepLess(r, t, env);
    ThreadStepInv(r, t, env);
    var (r', e) := ThreadStep(r, t, env);
    SumUpdate(r.threads, t, r'.threads[t], StepsLeft);
  }

  lemma {:induction false} FewSteps(threads: seq<Thread>)
    ensures Sum(threads, StepsLeft) <= 10 * |threads|
  {
    if threads != [] { FewSteps(threads[1..]); }
  }

  lemma CallersGetOn(s: System, a: Action)
    requires a.Enqueue? || a.Refuse?
    ensures Step(s, a) == s || Distance(Step(s, a)) < Distance(s)
  {
    var s', k := Step(s, a), a.caller;
    if k < |s.callers| && s' != s {
      SumUpdate(s.callers, k, s'.callers[k], CallerAhead);
      if a.Enqueue? && a.accepted { SumAppend(s.queue, s.callers[k].task, QueuedAhead); }
    }
  }

  lemma LoopGetsOn(s: System, a: Action)
    requires a.Pop? || a.Start?
    ensures Step(s, a) == s || Distance(Step(s, a)) < Distance(s)
  {
    if a.Pop? {
      if s.queue != [] { SumAppend(s.snapshot, s.queue[0], TakenAhead); }
    } else if !s.draining && s.snapshot != [] {
      var n := if a.slots > FAN_OUT then FAN_OUT else a.slots;
      var round := NewRound(s.snapshot[0], n);
      SumAppend(s.rounds, round, RoundAhead);
      FewSteps(round.threads);
    }
  }

  lemma ThreadsGetOn(s: System, a: Action)
    requires RoundsInv(s) && a.Advance?
    ensures Step(s, a) == s || Distance(Step(s, a)) < Distance(s)
  {
    var i, t := a.round, a.thread;
    if i < |s.rounds| && t < |s.rounds[i].threads| {
      var r := s.rounds[i];
      var (r', e) := ThreadStep(r, t, a.env);
      OneStepLess(r, t, a.env);
      if r.threads[t].Exited? {
        assert s.rounds[i := r] == s.rounds;
      } else {
        ThreadGetsOn(r, t, a.env);
        hide ThreadStep, RoundAhead, RoundInv;
        ThreadStepInv(r, t, a.env);
        SumUpdate(s.rounds, i, r', RoundAhead);
        SumAppend(s.queue, r.task, QueuedAhead);
      }
    }
  }

  /** In every reachable state, whatever the network, the slots and the queue do: a step that is not a submit changes
      nothing or brings the scheduler strictly nearer to the end. */
  lemma EveryStepGetsOn(actions: seq<Action>, a: Action)
    requires !a.Submit?
    ensures Step(Run(actions), a) == Run(actions) || Distance(Step(Run(actions), a)) < Distance(Run(actions))
  {
    hide Run, Step, Distance, PlacesInv, WaitingInv, FiredInv;
    RunInv(actions);
    var s := Run(actions);
    match a {
      case Enqueue(_, _) => CallersGetOn(s, a);
      case Refuse(_) => CallersGetOn(s, a);
      case Pop(_) => LoopGetsOn(s, a);
      case Start(_) => LoopGetsOn(s, a);
      case Advance(_, _, _) => ThreadsGetOn(s, a);
    }
  }

  // ---- There is a step until it is drained -------------------------------------------------------------------

  /** No step but a submit changes anything. */
  ghost predicate Settled(s: System) {
    forall a: Action :: !a.Submit? ==> Step(s, a) == s
  }

  /** Nothing is left to do exactly when the scheduler is drained: while any task is in the hands of a caller, queued,
      in the loop's hands or in a round, some thread can take a step. */
  lemma SettledExactlyWhenDrained(s: System)
    requires s.draining || s.snapshot != []
    ensures Settled(s) <==> Drained(s)
  {
    if Settled(s) { SettledDrains(s); }
    if Drained(s) {
      forall a: Action | !a.Submit? ensures Step(s, a) == s { DrainedSettles(s, a); }
    }
  }

  lemma SettledDrains(s: System)
    requires Settled(s) && (s.draining || s.snapshot != [])
    ensures Drained(s)
  {
    hide Settled, Step;
    forall k | 0 <= k < |s.callers| ensures s.callers[k].Returned? {
      StaysPut(s, Enqueue(k, true));
      StaysPut(s, Refuse(k));
      CallerMoves(s, k);
    }
    StaysPut(s, Pop(true));
    StaysPut(s, Pop(false));
    StaysPut(s, Start(0));
    LoopMoves(s);
    forall r, t | 0 <= r < |s.rounds| && 0 <= t < |s.rounds[r].threads| ensures s.rounds[r].threads[t].Exited? {
      var env := Environment(None, true, 0);
      StaysPut(s, Advance(r, t, env));
      ThreadMoves(s, r, t, env);
    }
  }

  lemma StaysPut(s: System, a: Action)
    requires Settled(s) && !a.Submit?
    ensures Step(s, a) == s
  {
  }

  lemma CallerMoves(s: System, k: nat)
    requires k < |s.callers|
    ensures s.callers[k].Pushing? ==> Step(s, Enqueue(k, true)) != s
    ensures s.callers[k].Rejecting? ==> Step(s, Refuse(k)) != s
  {
    if s.callers[k].Pushing? { assert Step(s, Enqueue(k, true)).callers[k].Returned?; }
    if s.callers[k].Rejecting? { assert Step(s, Refuse(k)).callers[k].Returned?; }
  }

  lemma LoopMoves(s: System)
    ensures s.draining && s.queue != [] ==> Step(s, Pop(true)) != s
    ensures s.draining && s.snapshot != [] ==> Step(s, Pop(false)) != s
    ensures !s.draining && s.snapshot != [] ==> Step(s, Start(0)) != s
  {
    if s.draining && s.queue != [] { assert |Step(s, Pop(true)).queue| < |s.queue|; }
    if !s.draining && s.snapshot != [] { assert |Step(s, Start(0)).snapshot| < |s.snapshot|; }
  }

  lemma ThreadMoves(s: System, i: nat, t: nat, env: Environment)
    requires i < |s.rounds| && t < |s.rounds[i].threads| && Step(s, Advance(i, t, env)) == s
    ensures s.rounds[i].threads[t].Exited?
  {
    hide ThreadStep;
    OneStepLess(s.rounds[i], t, env);
    assert Step(s, Advance(i, t, env)).rounds[i] == ThreadStep(s.rounds[i], t, env).0;
  }

  lemma DrainedSettles(s: System, a: Action)
    requires Drained(s) && !a.Submit?
    ensures Step(s, a) == s
  {
    hide ThreadStep;
    if a.Advance? && a.round < |s.rounds| && a.thread < |s.rounds[a.round].threads| {
      OneStepLess(s.rounds[a.round], a.thread, a.env);
      assert s.rounds[a.round].threads[a.thread].Exited?;
      assert s.rounds[a.round := s.rounds[a.round]] == s.rounds;
    }
  }

  /** The loop drains the queue, or has something in its hands. */
  lemma {:induction false} LoopIsBusy(actions: seq<Action>)
    ensures Run(actions).draining || Run(actions).snapshot != []
  {
    if actions != [] {
      LoopIsBusy(actions[..|actions| - 1]);
      LoopStaysBusy(Run(actions[..|actions| - 1]), actions[|actions| - 1]);
    }
  }

  lemma LoopStaysBusy(s: System, a: Action)
    requires s.draining || s.snapshot != []
    ensures Step(s, a).draining || Step(s, a).snapshot != []
  {
    hide ThreadStep;
  }

  // ---- Every task is answered --------------------------------------------------------------------------------

  predicate NoSubmits(actions: seq<Action>) {
    forall k :: 0 <= k < |actions| ==> !actions[k].Submit?
  }

  /** Every action changes something. */
  predicate AllMove(before: seq<Action>, more: seq<Action>) {
    forall k :: 0 <= k < |more| ==> Step(Run(before + more[..k]), more[k]) != Run(before + more[..k])
  }

  lemma RunAppend(actions: seq<Action>, a: Action)
    ensures Run(actions + [a]) == Step(Run(actions), a)
  {
    hide Step;
    assert (actions + [a])[..|actions|] == actions;
  }

  /** Without further submits a run takes at most as many steps that change anything as its distance says, whatever is
      chosen: no retry, refusal or lost race goes on for ever. */
  lemma {:induction false} RunsSettle(before: seq<Action>, more: seq<Action>)
    requires NoSubmits(more) && AllMove(before, more)
    ensures |more| + Distance(Run(before + more)) <= Distance(Run(before))
    decreases |more|
  {
    hide Step, Run, Distance;
    if more == [] {
      assert before + more == before;
    } else {
      var k := |more| - 1;
      var init := more[..k];
      forall j | 0 <= j < |init| ensures Step(Run(before + init[..j]), init[j]) != Run(before + init[..j]) {
        assert init[..j] == more[..j] && init[j] == more[j];
      }
      RunsSettle(before, init);
      EveryStepGetsOn(before + init, more[k]);
      RunAppend(before + init, more[k]);
      assert before + init + [more[k]] == before + more;
    }
  }

  /** From every state the scheduler can be in there is a way to the end without further submits, and at the end every
      submitted task has had exactly one callback. */
  lemma {:induction false} EveryTaskIsAnswered(actions: seq<Action>) returns (more: seq<Action>)
    ensures NoSubmits(more) && AllMove(actions, more) && |more| <= Distance(Run(actions))
    ensures Drained(Run(actions + more))
    ensures forall id: nat :: id < |Run(actions + more).budgets| ==>
              Sum(Run(actions + more).fired, CallbackWeight(id)) == 1
    decreases Distance(Run(actions))
  {
    hide Step, Run, Distance, Drained, Settled;
    var s := Run(actions);
    LoopIsBusy(actions);
    SettledExactlyWhenDrained(s);
    if Drained(s) {
      more := [];
      assert actions + more == actions;
    } else {
      var a := SomeStep(s);
      EveryStepGetsOn(actions, a);
      RunAppend(actions, a);
      var rest := EveryTaskIsAnswered(actions + [a]);
      more := [a] + rest;
      assert actions + more == actions + [a] + rest;
      MovesOn(actions, a, rest);
      RunsSettle(actions, more);
    }
    forall id: nat | id < |Run(actions + more).budgets|
      ensures Sum(Run(actions + more).fired, CallbackWeight(id)) == 1
    {
      FiredOnceWhenDrained(actions + more, id);
    }
  }

  lemma SomeStep(s: System) returns (a: Action)
    requires !Settled(s)
    ensures !a.Submit? && Step(s, a) != s
  {
    a :| !a.Submit? && Step(s, a) != s;
  }

  lemma MovesOn(actions: seq<Action>, a: Action, rest: seq<Action>)
    requires Step(Run(actions), a) != Run(actions) && AllMove(actions + [a], rest)
    ensures AllMove(actions, [a] + rest)
  {
    hide Step, Run;
    var more := [a] + rest;
    forall k | 0 <= k < |more| ensures Step(Run(actions + more[..k]), more[k]) != Run(actions + more[..k]) {
      if k == 0 {
        assert actions + more[..0] == actions;
      } else {
        assert actions + more[..k] == actions + [a] + rest[..k - 1];
      }
    }
  }
}
