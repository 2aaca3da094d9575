/** No slot's answer is lost: what the slots of a round answered is what the round decides on. */
module DispatchAnswers {

  import opened Basics
  import opened Counting
  import opened Dispatch

  function Is(a: Reply): Reply -> nat {
    (b: Reply) => if b == a then 1 else 0
  }

  /** A thread that has its slot's answer in hand and has not put it down yet. */
  function Holds(a: Reply): Thread -> nat {
    (t: Thread) => if t == Record(a) then 1 else 0
  }

  /** The step hands this answer of a slot to a thread of the round. */
  predicate Gives(s: System, action: Action, i: nat, a: Reply) {
    && action.Advance? && action.round == i < |s.rounds| && action.thread < |s.rounds[i].threads|
    && s.rounds[i].threads[action.thread].Transport? && action.env.answer == Some(a)
  }

  /** How often the slots of the round gave this answer. */
  function Given(actions: seq<Action>, i: nat, a: Reply): nat {
    if actions == [] then 0
    else
      var before := actions[..|actions| - 1];
      Given(before, i, a) + if Gives(Run(before), actions[|actions| - 1], i, a) then 1 else 0
  }

  function Kept(r: Round, a: Reply): nat {
    Sum(r.partials, Is(a)) + Sum(r.threads, Holds(a))
  }

  lemma ThreadPutsDown(r: Round, t: nat, env: Environment)
    requires t < |r.threads|
    ensures var r', was := ThreadStep(r, t, env).0, r.threads[t];
            && |r'.threads| == |r.threads| && r'.threads == r.threads[t := r'.threads[t]]
            && (r'.threads[t].Record? <==> was.Transport? && env.answer.Some?)
            && (r'.threads[t].Record? ==> r'.threads[t].answer == env.answer.value)
            && r'.partials == if was.Record? then r.partials + [was.answer] else r.partials
  {
    hide Chosen;
  }

  lemma ThreadKeeps(r: Round, t: nat, env: Environment, a: Reply)
    requires t < |r.threads|
    ensures Kept(ThreadStep(r, t, env).0, a) ==
            Kept(r, a) + if r.threads[t].Transport? && env.answer == Some(a) then 1 else 0
  {
    hide ThreadStep;
    ThreadPutsDown(r, t, env);
    var r' := ThreadStep(r, t, env).0;
    SumUpdate(r.threads, t, r'.threads[t], Holds(a));
    if r.threads[t].Record? { SumAppend(r.partials, r.threads[t].answer, Is(a)); }
  }

  lemma {:induction false} NothingHeld(threads: seq<Thread>, a: Reply)
    requires forall t :: 0 <= t < |threads| ==> !threads[t].Record?
    ensures Sum(threads, Holds(a)) == 0
  {
    if threads != [] { NothingHeld(threads[1..], a); }
  }

  lemma StepKeepsAnswers(s: System, action: Action, i: nat, a: Reply)
    requires i < |Step(s, action).rounds|
    ensures Kept(Step(s, action).rounds[i], a) ==
            (if i < |s.rounds| then Kept(s.rounds[i], a) else 0) + if Gives(s, action, i, a) then 1 else 0
  {
    hide ThreadStep, Kept;
    if action.Advance? && action.round < |s.rounds| && action.thread < |s.rounds[action.round].threads| {
      ThreadKeeps(s.rounds[action.round], action.thread, action.env, a);
    } else if i >= |s.rounds| {
      NewRoundIsEmpty(Step(s, action).rounds[i], a);
    }
  }

  lemma NewRoundIsEmpty(r: Round, a: Reply)
    ensures r.partials == [] && (forall t :: 0 <= t < |r.threads| ==> r.threads[t].Transport?) ==> Kept(r, a) == 0
  {
    if r.partials == [] && forall t :: 0 <= t < |r.threads| ==> r.threads[t].Transport? { NothingHeld(r.threads, a); }
  }

  lemma RoundsStay(s: System, action: Action)
    ensures |s.rounds| <= |Step(s, action).rounds|
  {
    hide ThreadStep;
  }

  /** In every run, what the threads of a round have put down or still hold are exactly the answers its slots gave,
      each as often as it was given. */
  lemma {:induction false} AnswersAreKept(actions: seq<Action>, i: nat, a: Reply)
    ensures i < |Run(actions).rounds| ==> Kept(Run(actions).rounds[i], a) == Given(actions, i, a)
    ensures i >= |Run(actions).rounds| ==> Given(actions, i, a) == 0
  {
    hide Step, Kept;
    if actions != [] {
      var before, action := actions[..|actions| - 1], actions[|actions| - 1];
      AnswersAreKept(before, i, a);
      RoundsStay(Run(before), action);
      if i < |Run(actions).rounds| { StepKeepsAnswers(Run(before), action, i, a); }
    }
  }

  lemma {:induction false} ListedExactly(answers: seq<Reply>, a: Reply)
    ensures a in answers <==> Sum(answers, Is(a)) > 0
  {
    if answers != [] { ListedExactly(answers[1..], a); }
  }

  /** When all threads of a round have gone, the answers it decided on are exactly those its slots gave; and it ended
      with OK exactly if one of them was OK, however the threads raced. */
  lemma DecidedOnWhatWasGiven(actions: seq<Action>, i: nat)
    requires i < |Run(actions).rounds|
    requires forall t :: 0 <= t < |Run(actions).rounds[i].threads| ==> Run(actions).rounds[i].threads[t].Exited?
    ensures forall a: Reply :: a in Run(actions).rounds[i].partials <==> Given(actions, i, a) > 0
    ensures var outcome := Run(actions).rounds[i].outcome;
            (outcome.Some? && outcome.value.status == RESULT_OK) <==>
            exists a: Reply :: a.status == RESULT_OK && Given(actions, i, a) > 0
  {
    hide Step, Run, Given;
    var r := Run(actions).rounds[i];
    forall a: Reply ensures a in r.partials <==> Given(actions, i, a) > 0 {
      AnswersAreKept(actions, i, a);
      NothingHeld(r.threads, a);
      ListedExactly(r.partials, a);
    }
    RunInv(actions);
    OkEnds(Run(actions), i);
    if AnyOk(r.partials) {
      var k :| 0 <= k < |r.partials| && r.partials[k].status == RESULT_OK;
      assert Given(actions, i, r.partials[k]) > 0;
    }
  }

  /** A round whose threads have gone ended with OK exactly if an answer it kept is OK. */
  lemma OkEnds(s: System, i: nat)
    requires Inv(s) && i < |s.rounds|
    requires forall t :: 0 <= t < |s.rounds[i].threads| ==> s.rounds[i].threads[t].Exited?
    ensures var r := s.rounds[i];
            (r.outcome.Some? && r.outcome.value.status == RESULT_OK) <==> AnyOk(r.partials)
  {
    hide PlacesInv, WaitingInv, FiredInv, RoundFits;
    assert RoundInv(s.rounds[i]);
  }
}
