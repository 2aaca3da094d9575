/** Task dispatch: callers submit, the loop drains the pending queue and starts one round of slot threads per
    task, and the threads race to complete the task or put it back.

    Every access to shared state is one step, and the steps of all threads interleave freely. What the network
    does to a slot thread, which slots the loop finds, and whether the bounded queue takes a task are choices
    of the environment. */
module Dispatch {

  import opened Basics
  import opened Counting

  const RESULT_OK := 0x00
  const RESULT_REJECTED := 0x01
  const RESULT_TIMEOUT := 0x02

  /** At most three slots work on one round. */
  const FAN_OUT := 3

  datatype Task = Task(id: nat, maxAttempts: nat, attempts: nat)

  datatype Reply = Reply(status: nat, payload: seq<nat>)

  /** Where a slot thread stands in dispatch_one_slot. */
  datatype Thread =
    | Transport
    | Record(answer: Reply)
    | Claim(answer: Reply)
    | Report(answer: Reply)
    | Leave
    | Inspect
    | Decide
    | Requeue
    | LastClaim(answer: Reply)
    | LastReport(answer: Reply)
    | Exited

  /** The state one round's threads share. outcome is set together with the done flag; requeued notes that the
      round ended by putting its task back. */
  datatype Round = Round(
    task: Task,
    outcome: Option<Reply>,
    remaining: int,
    partials: seq<Reply>,
    threads: seq<Thread>,
    requeued: bool)

  datatype Environment = Environment(answer: Option<Reply>, accepted: bool, pick: nat)

  datatype Effect = Nothing | Fire(answer: Reply) | Put

  function OkAnswers(answers: seq<Reply>): seq<Reply> {
    if answers == [] then []
    else (if answers[0].status == RESULT_OK then [answers[0]] else []) + OkAnswers(answers[1..])
  }

  /** The answer the last thread out reports; pick is what the embedding consensus would point at. */
  function Chosen(answers: seq<Reply>, pick: nat): Reply
    requires answers != []
  {
    var oks := OkAnswers(answers);
    if |oks| >= 2 then oks[if pick < |oks| then pick else 0]
    else if |oks| == 1 then oks[0]
    else answers[0]
  }

  /** One step of thread t of a round. */
  function ThreadStep(r: Round, t: nat, env: Environment): (Round, Effect)
    requires t < |r.threads|
  {
    var to := (next: Thread) => r.threads[t := next];
    match r.threads[t]
    case Transport =>
      (r.(threads := to(if env.answer.None? then Leave else Record(env.answer.value))), Nothing)
    case Record(a) =>
      (r.(partials := r.partials + [a], threads := to(if a.status == RESULT_OK then Claim(a) else Leave)), Nothing)
    case Claim(a) =>
      if r.outcome.None? then (r.(outcome := Some(a), threads := to(Report(a))), Nothing)
      else (r.(threads := to(Leave)), Nothing)
    case Report(a) => (r.(threads := to(Leave)), Fire(a))
    case Leave =>
      (r.(remaining := r.remaining - 1, threads := to(if r.remaining == 1 then Inspect else Exited)), Nothing)
    case Inspect => (r.(threads := to(if r.outcome.Some? then Exited else Decide)), Nothing)
    case Decide =>
      var next :=
        if r.partials != [] then LastClaim(Chosen(r.partials, env.pick))
        else if r.task.attempts < r.task.maxAttempts then Requeue
        else LastClaim(Reply(RESULT_TIMEOUT, []));
      (r.(threads := to(next)), Nothing)
    case Requeue =>
      if env.accepted then (r.(threads := to(Exited), requeued := true), Put)
      else (r.(threads := to(LastClaim(Reply(RESULT_REJECTED, [])))), Nothing)
    case LastClaim(a) =>
      if r.outcome.None? then (r.(outcome := Some(a), threads := to(LastReport(a))), Nothing)
      else (r.(threads := to(Exited)), Nothing)
    case LastReport(a) => (r.(threads := to(Exited)), Fire(a))
    case Exited => (r, Nothing)
  }

  // ---- One round ---------------------------------------------------------------------------------------------

  predicate Open(r: Round) {
    r.outcome.None? && !r.requeued
  }

  /** Threads that have not yet left. */
  function Working(t: Thread): nat {
    if t.Transport? || t.Record? || t.Claim? || t.Report? || t.Leave? then 1 else 0
  }

  /** The thread that left last, while it settles the round. */
  function Settling(t: Thread): nat {
    if t.Inspect? || t.Decide? || t.Requeue? || t.LastClaim? || t.LastReport? then 1 else 0
  }

  function Reporting(t: Thread): nat {
    if t.Report? || t.LastReport? then 1 else 0
  }

  predicate AnyOk(answers: seq<Reply>) {
    exists i :: 0 <= i < |answers| && answers[i].status == RESULT_OK
  }

  predicate ThreadOk(r: Round, t: Thread) {
    match t
    case Claim(a) => a.status == RESULT_OK && a in r.partials
    case Report(a) => r.outcome == Some(a)
    case Decide => Open(r) && !AnyOk(r.partials)
    case Requeue => Open(r) && r.partials == [] && r.task.attempts < r.task.maxAttempts
    case LastClaim(a) => Open(r) && !AnyOk(r.partials) && a.status != RESULT_OK && (r.partials == [] || a in r.partials)
    case LastReport(a) => r.outcome == Some(a)
    case _ => true
  }

  ghost predicate RoundInv(r: Round) {
    && r.remaining == Sum(r.threads, Working)
    && Sum(r.threads, Settling) <= 1
    && (r.remaining > 0 ==> Sum(r.threads, Settling) == 0)
    && (r.requeued ==> r.outcome.None? && r.remaining == 0 && Sum(r.threads, Settling) == 0)
    && (Open(r) ==> r.remaining > 0 || Sum(r.threads, Settling) == 1)
    && (forall t :: 0 <= t < |r.threads| ==> ThreadOk(r, r.threads[t]))
    && (AnyOk(r.partials) ==> r.outcome.Some? || exists t :: 0 <= t < |r.threads| && r.threads[t].Claim?)
    && (r.outcome.Some? ==>
          var a := r.outcome.value;
          && (a.status == RESULT_OK <==> AnyOk(r.partials))
          && (a.status == RESULT_OK ==> a in r.partials)
          && (a.status != RESULT_OK ==> r.remaining == 0 && (r.partials == [] || a in r.partials)))
  }

  lemma {:induction false} NoOkAnswers(answers: seq<Reply>)
    ensures OkAnswers(answers) == [] <==> !AnyOk(answers)
  {
    if answers != [] {
      NoOkAnswers(answers[1..]);
      if AnyOk(answers[1..]) {
        var i :| 0 <= i < |answers[1..]| && answers[1..][i].status == RESULT_OK;
        assert answers[i + 1].status == RESULT_OK;
      }
      if AnyOk(answers) && answers[0].status != RESULT_OK {
        var i :| 0 <= i < |answers| && answers[i].status == RESULT_OK;
        assert answers[1..][i - 1].status == RESULT_OK;
      }
    }
  }

  lemma ThreadStepSums(r: Round, t: nat, next: Thread)
    requires t < |r.threads|
    ensures
      var threads := r.threads[t := next];
      && Sum(threads, Working) + Working(r.threads[t]) == Sum(r.threads, Working) + Working(next)
      && Sum(threads, Settling) + Settling(r.threads[t]) == Sum(r.threads, Settling) + Settling(next)
      && Sum(threads, Reporting) + Reporting(r.threads[t]) == Sum(r.threads, Reporting) + Reporting(next)
    ensures Working(r.threads[t]) <= Sum(r.threads, Working)
    ensures Settling(r.threads[t]) <= Sum(r.threads, Settling)
    ensures forall u :: 0 <= u < |r.threads| && u != t ==>
              Settling(r.threads[t]) + Settling(r.threads[u]) <= Sum(r.threads, Settling)
    ensures forall u :: 0 <= u < |r.threads| ==> Working(r.threads[u]) <= Sum(r.threads, Working)
    ensures forall u :: 0 <= u < |r.threads| ==> Settling(r.threads[u]) <= Sum(r.threads, Settling)
  {
    SumUpdate(r.threads, t, next, Working);
    SumUpdate(r.threads, t, next, Settling);
    SumUpdate(r.threads, t, next, Reporting);
    SumCovers(r.threads, t, Working);
    SumCovers(r.threads, t, Settling);
    forall u | 0 <= u < |r.threads|
      ensures Working(r.threads[u]) <= Sum(r.threads, Working)
      ensures Settling(r.threads[u]) <= Sum(r.threads, Settling)
    {
      Below(r.threads, u, Working);
      Below(r.threads, u, Settling);
    }
  }

  /** How much of its task a round still carries: the duty to finish it, or a callback about to be made. */
  function RoundWeight(r: Round): nat {
    (if Open(r) then 1 else 0) + Sum(r.threads, Reporting)
  }

  function EffectWeight(e: Effect): nat {
    if e.Nothing? then 0 else 1
  }

  ghost predicate StepKeeps(r: Round, r': Round, e: Effect) {
    && RoundInv(r')
    && RoundWeight(r') + EffectWeight(e) == RoundWeight(r)
    && r'.task == r.task
    && |r'.threads| == |r.threads|
    && (e.Put? ==> r.task.attempts < r.task.maxAttempts && r'.requeued && Open(r))
    && (e.Fire? ==> r'.outcome == Some(e.answer))
    && (r.outcome.Some? ==> r'.outcome == r.outcome)
    && (Open(r') ==> Open(r))
    && (r.requeued ==> r'.requeued)
    && r.partials <= r'.partials
  }

  /** While the round keeps its answers and outcome, the other threads stay as they should be. */
  lemma OthersStayOk(r: Round, r': Round, t: nat)
    requires t < |r.threads| == |r'.threads| && r'.threads == r.threads[t := r'.threads[t]]
    requires forall u :: 0 <= u < |r.threads| ==> ThreadOk(r, r.threads[u])
    requires forall u :: 0 <= u < |r.threads| && u != t ==> Settling(r.threads[u]) == 0
    requires r.partials <= r'.partials && (r.outcome.Some? ==> r'.outcome == r.outcome)
    ensures forall u :: 0 <= u < |r'.threads| && u != t ==> ThreadOk(r', r'.threads[u])
  {
    forall u | 0 <= u < |r'.threads| && u != t ensures ThreadOk(r', r'.threads[u]) {
      assert ThreadOk(r, r.threads[u]);
    }
  }

  /** A thread that records the answer of its slot. */
  lemma RecordStep(r: Round, t: nat, env: Environment)
    requires RoundInv(r) && t < |r.threads| && r.threads[t].Record?
    ensures var (r', e) := ThreadStep(r, t, env); StepKeeps(r, r', e)
  {
    var (r', e) := ThreadStep(r, t, env);
    ThreadStepSums(r, t, r'.threads[t]);
    OthersStayOk(r, r', t);
    var a := r.threads[t].answer;
    assert r'.partials[|r.partials|] == a;
    assert AnyOk(r'.partials) == (AnyOk(r.partials) || a.status == RESULT_OK) by {
      if AnyOk(r.partials) {
        var i :| 0 <= i < |r.partials| && r.partials[i].status == RESULT_OK;
        assert r'.partials[i].status == RESULT_OK;
      }
    }
    if a.status == RESULT_OK {
      assert r'.threads[t].Claim?;
    } else if AnyOk(r.partials) && r'.outcome.None? {
      var u :| 0 <= u < |r.threads| && r.threads[u].Claim?;
      assert r'.threads[u].Claim?;
    }
  }

  /** A thread that is otherwise still working on its slot, or leaving. */
  lemma WorkingStep(r: Round, t: nat, env: Environment)
    requires RoundInv(r) && t < |r.threads| && Working(r.threads[t]) == 1 && !r.threads[t].Record?
    ensures var (r', e) := ThreadStep(r, t, env); StepKeeps(r, r', e)
  {
    var (r', e) := ThreadStep(r, t, env);
    ThreadStepSums(r, t, r'.threads[t]);
    assert r'.threads == r.threads[t := r'.threads[t]];
    assert ThreadOk(r, r.threads[t]);
    OthersStayOk(r, r', t);
    if AnyOk(r.partials) && r'.outcome.None? {
      var u :| 0 <= u < |r.threads| && r.threads[u].Claim?;
      assert r'.threads[u].Claim?;
    }
  }

  /** The thread that left last decides: none of the round's answers is OK, so it reports the first one, or
      the task is tried again, or it times out. */
  lemma DecideStep(r: Round, t: nat, env: Environment)
    requires RoundInv(r) && t < |r.threads| && r.threads[t].Decide?
    ensures var (r', e) := ThreadStep(r, t, env); StepKeeps(r, r', e)
    ensures
      ThreadStep(r, t, env).0.threads[t] ==
        if r.partials != [] then LastClaim(r.partials[0])
        else if r.task.attempts < r.task.maxAttempts then Requeue
        else LastClaim(Reply(RESULT_TIMEOUT, []))
  {
    var (r', e) := ThreadStep(r, t, env);
    ThreadStepSums(r, t, r'.threads[t]);
    assert ThreadOk(r, r.threads[t]);
    NoOkAnswers(r.partials);
    OthersStayOk(r, r', t);
  }

  /** The thread that left last, before and after it decides. */
  lemma SettlingStep(r: Round, t: nat, env: Environment)
    requires RoundInv(r) && t < |r.threads| && Settling(r.threads[t]) == 1 && !r.threads[t].Decide?
    ensures var (r', e) := ThreadStep(r, t, env); StepKeeps(r, r', e)
  {
    var (r', e) := ThreadStep(r, t, env);
    ThreadStepSums(r, t, r'.threads[t]);
    assert r'.threads == r.threads[t := r'.threads[t]];
    assert ThreadOk(r, r.threads[t]);
    assert r.remaining == 0;
    OthersStayOk(r, r', t);
  }

  /** A thread's step keeps the round's invariant, and the round gives up its task only by the callback or by
      putting the task back. */
  lemma ThreadStepInv(r: Round, t: nat, env: Environment)
    requires RoundInv(r) && t < |r.threads|
    ensures var (r', e) := ThreadStep(r, t, env); StepKeeps(r, r', e)
  {
    if r.threads[t].Record? {
      RecordStep(r, t, env);
    } else if Working(r.threads[t]) == 1 {
      WorkingStep(r, t, env);
    } else if r.threads[t].Decide? {
      DecideStep(r, t, env);
    } else if Settling(r.threads[t]) == 1 {
      SettlingStep(r, t, env);
    }
  }

  // ---- All threads -------------------------------------------------------------------------------------------

  /** A call of submit: about to enqueue its task, about to report that the queue was full, or over. */
  datatype Caller = Pushing(task: Task) | Rejecting(task: Task) | Returned

  datatype Callback = Callback(id: nat, answer: Reply)

  /** budgets lists the attempt limits of all tasks submitted so far, by id. draining tells the two halves of
      the loop apart: emptying the queue into the snapshot, and starting the snapshot's tasks. */
  datatype System = System(
    budgets: seq<nat>,
    callers: seq<Caller>,
    queue: seq<Task>,
    snapshot: seq<Task>,
    draining: bool,
    rounds: seq<Round>,
    fired: seq<Callback>)

  datatype Action =
    | Submit(maxAttempts: nat)
    | Enqueue(caller: nat, accepted: bool)
    | Refuse(caller: nat)
    | Pop(found: bool)
    | Start(slots: nat)
    | Advance(round: nat, thread: nat, env: Environment)

  const REJECTION := Reply(RESULT_REJECTED, [])

  function NewRound(task: Task, slots: nat): Round {
    Round(task.(attempts := task.attempts + 1), None, slots, [], seq(slots, _ => Transport), false)
  }

  function Step(s: System, a: Action): System {
    match a
    case Submit(maxAttempts) =>
      s.(budgets := s.budgets + [maxAttempts],
         callers := s.callers + [Pushing(Task(|s.budgets|, maxAttempts, 0))])
    case Enqueue(k, accepted) =>
      if k >= |s.callers| || !s.callers[k].Pushing? then s
      else if accepted then
        s.(callers := s.callers[k := Returned], queue := s.queue + [s.callers[k].task])
      else s.(callers := s.callers[k := Rejecting(s.callers[k].task)])
    case Refuse(k) =>
      if k >= |s.callers| || !s.callers[k].Rejecting? then s
      else s.(callers := s.callers[k := Returned],
              fired := s.fired + [Callback(s.callers[k].task.id, REJECTION)])
    case Pop(found) =>
      if !s.draining then s
      else if found && s.queue != [] then
        s.(queue := s.queue[1..], snapshot := s.snapshot + [s.queue[0]])
      else s.(draining := s.snapshot == [])
    case Start(slots) =>
      if s.draining || s.snapshot == [] then s else
      var task := s.snapshot[0];
      var rest := s.(snapshot := s.snapshot[1..], draining := |s.snapshot| == 1);
      if slots == 0 then rest.(fired := s.fired + [Callback(task.id, REJECTION)])
      else rest.(rounds := s.rounds + [NewRound(task, if slots > FAN_OUT then FAN_OUT else slots)])
    case Advance(i, t, env) =>
      if i >= |s.rounds| || t >= |s.rounds[i].threads| then s else
      var (r, e) := ThreadStep(s.rounds[i], t, env);
      var s' := s.(rounds := s.rounds[i := r]);
      match e
      case Nothing => s'
      case Fire(answer) => s'.(fired := s.fired + [Callback(r.task.id, answer)])
      case Put => s'.(queue := s.queue + [r.task])
  }

  const START := System([], [], [], [], true, [], [])

  function Run(actions: seq<Action>): System {
    if actions == [] then START
    else Step(Run(actions[..|actions| - 1]), actions[|actions| - 1])
  }

  // ---- Every task is in exactly one place --------------------------------------------------------------------

  function CallerWeight(id: nat): Caller -> nat {
    (c: Caller) => if !c.Returned? && c.task.id == id then 1 else 0
  }

  function TaskWeight(id: nat): Task -> nat {
    (t: Task) => if t.id == id then 1 else 0
  }

  function RoundWeightOf(id: nat): Round -> nat {
    (r: Round) => if r.task.id == id then RoundWeight(r) else 0
  }

  function CallbackWeight(id: nat): Callback -> nat {
    (c: Callback) => if c.id == id then 1 else 0
  }

  function IsRoundOf(id: nat): Round -> nat {
    (r: Round) => if r.task.id == id then 1 else 0
  }

  /** Where task id is: in a call of submit, queued, in the loop's hands, carried by a round, or finished. */
  function Places(s: System, id: nat): nat {
    Sum(s.callers, CallerWeight(id)) + Sum(s.queue, TaskWeight(id)) + Sum(s.snapshot, TaskWeight(id)) +
    Sum(s.rounds, RoundWeightOf(id)) + Sum(s.fired, CallbackWeight(id))
  }

  function RoundsOf(s: System, id: nat): nat {
    Sum(s.rounds, IsRoundOf(id))
  }

  lemma NewRoundInv(task: Task, slots: nat)
    requires slots > 0
    ensures RoundInv(NewRound(task, slots)) && RoundWeight(NewRound(task, slots)) == 1
  {
    var r := NewRound(task, slots);
    AllWorking(r.threads);
    SumZero(r.threads, Settling);
    SumZero(r.threads, Reporting);
  }

  lemma {:induction false} AllWorking(threads: seq<Thread>)
    requires forall t :: 0 <= t < |threads| ==> threads[t].Transport?
    ensures Sum(threads, Working) == |threads|
  {
    if threads != [] { AllWorking(threads[1..]); }
  }

  lemma PlacesKeptByCallers(s: System, a: Action, id: nat)
    requires a.Submit? || a.Enqueue? || a.Refuse?
    ensures Places(Step(s, a), id) == Places(s, id) + if a.Submit? && id == |s.budgets| then 1 else 0
  {
    var s' := Step(s, a);
    match a
    case Submit(maxAttempts) =>
      SumAppend(s.callers, Pushing(Task(|s.budgets|, maxAttempts, 0)), CallerWeight(id));
    case Enqueue(k, accepted) =>
      if s' != s {
        SumUpdate(s.callers, k, s'.callers[k], CallerWeight(id));
        SumAppend(s.queue, s.callers[k].task, TaskWeight(id));
      }
    case Refuse(k) =>
      if s' != s {
        SumUpdate(s.callers, k, s'.callers[k], CallerWeight(id));
        SumAppend(s.fired, Callback(s.callers[k].task.id, REJECTION), CallbackWeight(id));
      }
  }

  lemma PlacesKeptByLoop(s: System, a: Action, id: nat)
    requires a.Pop? || a.Start?
    ensures Places(Step(s, a), id) == Places(s, id)
  {
    match a
    case Pop(found) =>
      if s.queue != [] { SumAppend(s.snapshot, s.queue[0], TaskWeight(id)); }
    case Start(slots) =>
      if !s.draining && s.snapshot != [] {
        var task := s.snapshot[0];
        SumAppend(s.fired, Callback(task.id, REJECTION), CallbackWeight(id));
        if slots > 0 {
          var n := if slots > FAN_OUT then FAN_OUT else slots;
          NewRoundInv(task, n);
          SumAppend(s.rounds, NewRound(task, n), RoundWeightOf(id));
        }
      }
  }

  lemma PlacesKeptByThread(s: System, a: Action, id: nat)
    requires a.Advance? && a.round < |s.rounds| && a.thread < |s.rounds[a.round].threads|
    requires RoundInv(s.rounds[a.round])
    ensures Places(Step(s, a), id) == Places(s, id)
  {
    var i := a.round;
    var (r, e) := ThreadStep(s.rounds[i], a.thread, a.env);
    ThreadStepInv(s.rounds[i], a.thread, a.env);
    SumUpdate(s.rounds, i, r, RoundWeightOf(id));
    SumAppend(s.queue, r.task, TaskWeight(id));
    if e.Fire? { SumAppend(s.fired, Callback(r.task.id, e.answer), CallbackWeight(id)); }
  }

  /** A step moves a task from one place to another; only submit brings one in, and none is lost. */
  lemma PlacesKept(s: System, a: Action, id: nat)
    requires forall r :: 0 <= r < |s.rounds| ==> RoundInv(s.rounds[r])
    ensures Places(Step(s, a), id) == Places(s, id) + if a.Submit? && id == |s.budgets| then 1 else 0
  {
    if a.Submit? || a.Enqueue? || a.Refuse? {
      PlacesKeptByCallers(s, a, id);
    } else if a.Pop? || a.Start? {
      PlacesKeptByLoop(s, a, id);
    } else if a.round < |s.rounds| && a.thread < |s.rounds[a.round].threads| {
      PlacesKeptByThread(s, a, id);
    }
  }

  // ---- The invariant of the whole dispatcher -----------------------------------------------------------------

  predicate Fits(s: System, task: Task) {
    && task.id < |s.budgets| && task.maxAttempts == s.budgets[task.id]
    && task.attempts == RoundsOf(s, task.id)
    && (task.attempts == 0 || task.attempts < task.maxAttempts)
  }

  function Limit(maxAttempts: nat): nat {
    if maxAttempts == 0 then 1 else maxAttempts
  }

  predicate RoundFits(s: System, r: Round) {
    && r.task.id < |s.budgets| && r.task.maxAttempts == s.budgets[r.task.id]
    && (Open(r) ==> r.task.attempts == RoundsOf(s, r.task.id))
    && (r.outcome.Some? && Sum(r.threads, Reporting) == 0 ==> Callback(r.task.id, r.outcome.value) in s.fired)
  }

  predicate CallbackFits(s: System, c: Callback) {
    c.answer == REJECTION ||
    exists r :: 0 <= r < |s.rounds| && s.rounds[r].task.id == c.id && s.rounds[r].outcome == Some(c.answer)
  }

  ghost predicate PlacesInv(s: System) {
    && (forall id: nat :: Places(s, id) == if id < |s.budgets| then 1 else 0)
    && (forall id: nat :: RoundsOf(s, id) <= if id < |s.budgets| then Limit(s.budgets[id]) else 0)
  }

  ghost predicate RoundsInv(s: System) {
    forall r :: 0 <= r < |s.rounds| ==> RoundInv(s.rounds[r]) && RoundFits(s, s.rounds[r])
  }

  ghost predicate WaitingInv(s: System) {
    && (forall k :: 0 <= k < |s.callers| && !s.callers[k].Returned? ==> Fits(s, s.callers[k].task))
    && (forall k :: 0 <= k < |s.queue| ==> Fits(s, s.queue[k]))
    && (forall k :: 0 <= k < |s.snapshot| ==> Fits(s, s.snapshot[k]))
  }

  ghost predicate FiredInv(s: System) {
    forall c :: c in s.fired ==> CallbackFits(s, c)
  }

  ghost predicate Inv(s: System) {
    PlacesInv(s) && RoundsInv(s) && WaitingInv(s) && FiredInv(s)
  }

  /** More callbacks, more submitted tasks and the same rounds change nothing for the rounds themselves. */
  lemma RoundsStayFit(s: System, s': System)
    requires RoundsInv(s) && FiredInv(s)
    requires s'.rounds == s.rounds && s.budgets <= s'.budgets && s.fired <= s'.fired
    ensures RoundsInv(s')
    ensures forall c :: c in s.fired ==> CallbackFits(s', c)
  {
    forall r | 0 <= r < |s'.rounds| ensures RoundInv(s'.rounds[r]) && RoundFits(s', s'.rounds[r]) {
      assert RoundFits(s, s.rounds[r]);
    }
    forall c | c in s.fired ensures CallbackFits(s', c) {
      assert CallbackFits(s, c);
    }
  }

  lemma FitStays(s: System, s': System, task: Task)
    requires Fits(s, task) && s'.rounds == s.rounds && s.budgets <= s'.budgets
    ensures Fits(s', task)
  {
  }

  lemma WaitingCallersStay(s: System, a: Action, k: nat)
    requires WaitingInv(s) && PlacesInv(s) && Step(s, a).rounds == s.rounds && !a.Advance?
    requires k < |Step(s, a).callers| && !Step(s, a).callers[k].Returned?
    ensures Fits(Step(s, a), Step(s, a).callers[k].task)
  {
    hide Places;
    if k < |s.callers| { FitStays(s, Step(s, a), s.callers[k].task); } else { assert RoundsOf(s, |s.budgets|) == 0; }
  }

  lemma WaitingQueueStays(s: System, a: Action, k: nat)
    requires WaitingInv(s) && Step(s, a).rounds == s.rounds && !a.Advance? && k < |Step(s, a).queue|
    ensures Fits(Step(s, a), Step(s, a).queue[k])
  {
    var s' := Step(s, a);
    if a.Enqueue? && k == |s.queue| {
      FitStays(s, s', s.callers[a.caller].task);
    } else {
      FitStays(s, s', s.queue[if |s'.queue| < |s.queue| then k + 1 else k]);
    }
  }

  lemma SnapshotStays(s: System, a: Action, k: nat)
    requires WaitingInv(s) && Step(s, a).rounds == s.rounds && !a.Advance? && k < |Step(s, a).snapshot|
    ensures Fits(Step(s, a), Step(s, a).snapshot[k])
  {
    var s' := Step(s, a);
    if a.Pop? && k == |s.snapshot| {
      FitStays(s, s', s.queue[0]);
    } else {
      FitStays(s, s', s.snapshot[if |s'.snapshot| < |s.snapshot| then k + 1 else k]);
    }
  }

  lemma WaitingStays(s: System, a: Action)
    requires WaitingInv(s) && PlacesInv(s) && Step(s, a).rounds == s.rounds && !a.Advance?
    ensures WaitingInv(Step(s, a))
  {
    hide Step, Fits, Places;
    var s' := Step(s, a);
    forall k | 0 <= k < |s'.callers| && !s'.callers[k].Returned? ensures Fits(s', s'.callers[k].task) {
      WaitingCallersStay(s, a, k);
    }
    forall k | 0 <= k < |s'.queue| ensures Fits(s', s'.queue[k]) { WaitingQueueStays(s, a, k); }
    forall k | 0 <= k < |s'.snapshot| ensures Fits(s', s'.snapshot[k]) { SnapshotStays(s, a, k); }
  }

  lemma QuietPlaces(s: System, a: Action)
    requires Inv(s) && Step(s, a).rounds == s.rounds && !a.Advance?
    ensures PlacesInv(Step(s, a))
  {
    var s' := Step(s, a);
    forall id: nat
      ensures Places(s', id) == if id < |s'.budgets| then 1 else 0
      ensures RoundsOf(s', id) == RoundsOf(s, id)
    {
      PlacesKept(s, a, id);
    }
  }

  lemma QuietFired(s: System, a: Action)
    requires Inv(s) && Step(s, a).rounds == s.rounds && !a.Advance?
    ensures FiredInv(Step(s, a)) && RoundsInv(Step(s, a))
  {
    RoundsStayFit(s, Step(s, a));
  }

  /** Steps that leave the rounds alone. */
  lemma QuietStep(s: System, a: Action)
    requires Inv(s) && Step(s, a).rounds == s.rounds && !a.Advance?
    ensures Inv(Step(s, a))
  {
    QuietPlaces(s, a);
    WaitingStays(s, a);
    QuietFired(s, a);
  }

  /** The loop starts a round: no other copy of the task is anywhere. */
  lemma StartStep(s: System, slots: nat)
    requires Inv(s) && !s.draining && s.snapshot != [] && slots > 0
    ensures Inv(Step(s, Start(slots)))
  {
    var s' := Step(s, Start(slots));
    var task := s.snapshot[0];
    var n := if slots > FAN_OUT then FAN_OUT else slots;
    var added := NewRound(task, n);
    assert s'.rounds == s.rounds + [added];
    NewRoundInv(task, n);
    assert Fits(s, task);
    forall id: nat
      ensures Places(s', id) == if id < |s'.budgets| then 1 else 0
      ensures RoundsOf(s', id) == RoundsOf(s, id) + if id == task.id then 1 else 0
    {
      PlacesKept(s, Start(slots), id);
      SumAppend(s.rounds, added, IsRoundOf(id));
    }
    OnlyInHand(s);
    StartKeepsRounds(s, s', added);
  }

  lemma StartKeepsRounds(s: System, s': System, added: Round)
    requires RoundsInv(s) && FiredInv(s) && WaitingInv(s)
    requires RoundInv(added) && RoundWeight(added) == 1 && added.outcome.None?
    requires s' == s.(rounds := s.rounds + [added], snapshot := s'.snapshot, draining := s'.draining)
    requires s.snapshot != [] && s'.snapshot == s.snapshot[1..] && Fits(s, s.snapshot[0])
    requires added.task == s.snapshot[0].(attempts := s.snapshot[0].attempts + 1)
    requires forall id: nat :: RoundsOf(s', id) == RoundsOf(s, id) + if id == added.task.id then 1 else 0
    requires forall k :: 0 <= k < |s.callers| && !s.callers[k].Returned? ==> s.callers[k].task.id != added.task.id
    requires forall k :: 0 <= k < |s.queue| ==> s.queue[k].id != added.task.id
    requires forall k :: 0 < k < |s.snapshot| ==> s.snapshot[k].id != added.task.id
    requires forall r :: 0 <= r < |s.rounds| && s.rounds[r].task.id == added.task.id ==> RoundWeight(s.rounds[r]) == 0
    ensures RoundsInv(s') && WaitingInv(s') && FiredInv(s')
  {
    forall r | 0 <= r < |s'.rounds| ensures RoundInv(s'.rounds[r]) && RoundFits(s', s'.rounds[r]) {
      if r < |s.rounds| { assert RoundFits(s, s.rounds[r]); }
    }
    forall c | c in s'.fired ensures CallbackFits(s', c) {
      assert CallbackFits(s, c);
      if c.answer != REJECTION {
        var r :| 0 <= r < |s.rounds| && s.rounds[r].task.id == c.id && s.rounds[r].outcome == Some(c.answer);
        assert s'.rounds[r] == s.rounds[r];
      }
    }
  }

  /** While a task is first in the loop's hands it is nowhere else. */
  lemma OnlyInHand(s: System)
    requires s.snapshot != [] && Places(s, s.snapshot[0].id) == 1
    ensures
      var id := s.snapshot[0].id;
      && (forall k :: 0 <= k < |s.callers| && !s.callers[k].Returned? ==> s.callers[k].task.id != id)
      && (forall k :: 0 <= k < |s.queue| ==> s.queue[k].id != id)
      && (forall k :: 0 < k < |s.snapshot| ==> s.snapshot[k].id != id)
      && (forall r :: 0 <= r < |s.rounds| && s.rounds[r].task.id == id ==> RoundWeight(s.rounds[r]) == 0)
  {
    var id := s.snapshot[0].id;
    assert Sum(s.snapshot, TaskWeight(id)) == 1 + Sum(s.snapshot[1..], TaskWeight(id));
    SumZeroMeans(s.callers, CallerWeight(id));
    SumZeroMeans(s.queue, TaskWeight(id));
    SumZeroMeans(s.snapshot[1..], TaskWeight(id));
    SumZeroMeans(s.rounds, RoundWeightOf(id));
    forall k | 0 <= k < |s.callers| && !s.callers[k].Returned? ensures s.callers[k].task.id != id {
      assert CallerWeight(id)(s.callers[k]) == 0;
    }
    forall k | 0 <= k < |s.queue| ensures s.queue[k].id != id {
      assert TaskWeight(id)(s.queue[k]) == 0;
    }
    forall k | 0 < k < |s.snapshot| ensures s.snapshot[k].id != id {
      assert TaskWeight(id)(s.snapshot[1..][k - 1]) == 0;
    }
    forall r | 0 <= r < |s.rounds| && s.rounds[r].task.id == id ensures RoundWeight(s.rounds[r]) == 0 {
      assert RoundWeightOf(id)(s.rounds[r]) == 0;
    }
  }

  lemma AdvanceStep(s: System, i: nat, t: nat, env: Environment)
    requires Inv(s) && i < |s.rounds| && t < |s.rounds[i].threads|
    ensures Inv(Step(s, Advance(i, t, env)))
  {
    var a := Advance(i, t, env);
    var s' := Step(s, a);
    var r := s.rounds[i];
    var (r', e) := ThreadStep(r, t, env);
    ThreadStepInv(r, t, env);
    assert s'.rounds == s.rounds[i := r'];
    AdvanceKeepsPlaces(s, i, t, env);
    AdvanceKeepsRounds(s, s', i, r', e);
    AdvanceKeepsFired(s, s', i, r', e);
    AdvanceKeepsWaiting(s, s', i, e);
  }

  lemma AdvanceKeepsPlaces(s: System, i: nat, t: nat, env: Environment)
    requires PlacesInv(s) && RoundsInv(s) && i < |s.rounds| && t < |s.rounds[i].threads|
    ensures PlacesInv(Step(s, Advance(i, t, env)))
    ensures forall id: nat :: RoundsOf(Step(s, Advance(i, t, env)), id) == RoundsOf(s, id)
  {
    var a := Advance(i, t, env);
    var s' := Step(s, a);
    var r' := ThreadStep(s.rounds[i], t, env).0;
    ThreadStepInv(s.rounds[i], t, env);
    forall id: nat
      ensures Places(s', id) == if id < |s'.budgets| then 1 else 0
      ensures RoundsOf(s', id) == RoundsOf(s, id)
    {
      PlacesKept(s, a, id);
      SumUpdate(s.rounds, i, r', IsRoundOf(id));
    }
  }

  lemma AdvanceKeepsRounds(s: System, s': System, i: nat, r': Round, e: Effect)
    requires RoundsInv(s) && i < |s.rounds| && StepKeeps(s.rounds[i], r', e)
    requires s'.rounds == s.rounds[i := r'] && s'.budgets == s.budgets && s.fired <= s'.fired
    requires e.Fire? ==> Callback(r'.task.id, e.answer) in s'.fired
    requires forall id: nat :: RoundsOf(s', id) == RoundsOf(s, id)
    ensures RoundsInv(s')
  {
    forall j | 0 <= j < |s'.rounds| ensures RoundInv(s'.rounds[j]) && RoundFits(s', s'.rounds[j]) {
      assert RoundFits(s, s.rounds[j]);
    }
  }

  lemma AdvanceKeepsFired(s: System, s': System, i: nat, r': Round, e: Effect)
    requires FiredInv(s) && i < |s.rounds| && StepKeeps(s.rounds[i], r', e)
    requires s'.rounds == s.rounds[i := r']
    requires s'.fired == if e.Fire? then s.fired + [Callback(r'.task.id, e.answer)] else s.fired
    ensures FiredInv(s')
  {
    forall c | c in s'.fired ensures CallbackFits(s', c) {
      if c in s.fired && c.answer != REJECTION {
        assert CallbackFits(s, c);
        var j :| 0 <= j < |s.rounds| && s.rounds[j].task.id == c.id && s.rounds[j].outcome == Some(c.answer);
        assert s'.rounds[j].task.id == c.id && s'.rounds[j].outcome == Some(c.answer);
      } else if c !in s.fired {
        assert s'.rounds[i].task.id == c.id && s'.rounds[i].outcome == Some(c.answer);
      }
    }
  }

  lemma AdvanceKeepsWaiting(s: System, s': System, i: nat, e: Effect)
    requires WaitingInv(s) && RoundsInv(s) && i < |s.rounds|
    requires s'.callers == s.callers && s'.snapshot == s.snapshot && s'.budgets == s.budgets
    requires s'.queue == if e.Put? then s.queue + [s.rounds[i].task] else s.queue
    requires e.Put? ==> Open(s.rounds[i]) && s.rounds[i].task.attempts < s.rounds[i].task.maxAttempts
    requires forall id: nat :: RoundsOf(s', id) == RoundsOf(s, id)
    ensures WaitingInv(s')
  {
    assert RoundFits(s, s.rounds[i]);
    assert forall task: Task :: Fits(s, task) ==> Fits(s', task);
  }

  /** Every step of every thread keeps the invariant. */
  lemma StepInv(s: System, a: Action)
    requires Inv(s)
    ensures Inv(Step(s, a))
  {
    if a.Advance? {
      if a.round < |s.rounds| && a.thread < |s.rounds[a.round].threads| {
        AdvanceStep(s, a.round, a.thread, a.env);
      }
    } else if a.Start? && !s.draining && s.snapshot != [] && a.slots > 0 {
      StartStep(s, a.slots);
    } else {
      QuietStep(s, a);
    }
  }

  lemma {:induction false} RunInv(actions: seq<Action>)
    ensures Inv(Run(actions))
  {
    if actions != [] {
      RunInv(actions[..|actions| - 1]);
      StepInv(Run(actions[..|actions| - 1]), actions[|actions| - 1]);
    }
  }

  // ---- What callers may rely on ------------------------------------------------------------------------------

  /** In every run each submitted task is in exactly one place, so its callback fires at most once; and it is
      started in at most max(1, max_attempts) rounds. */
  lemma OnePlaceAndBoundedRounds(actions: seq<Action>, id: nat)
    ensures
      var s := Run(actions);
      && Places(s, id) == (if id < |s.budgets| then 1 else 0)
      && Sum(s.fired, CallbackWeight(id)) <= 1
      && (id < |s.budgets| ==> RoundsOf(s, id) <= Limit(s.budgets[id]))
  {
    RunInv(actions);
  }

  /** Nobody holds work: no call of submit in progress, nothing queued, every slot thread gone. */
  predicate Drained(s: System) {
    && (forall k :: 0 <= k < |s.callers| ==> s.callers[k].Returned?)
    && s.queue == [] && s.snapshot == []
    && (forall r, t :: 0 <= r < |s.rounds| && 0 <= t < |s.rounds[r].threads| ==> s.rounds[r].threads[t].Exited?)
  }

  lemma GoneRoundWeighsNothing(r: Round)
    requires RoundInv(r) && forall t :: 0 <= t < |r.threads| ==> r.threads[t].Exited?
    ensures RoundWeight(r) == 0
  {
    SumZero(r.threads, Working);
    SumZero(r.threads, Settling);
    SumZero(r.threads, Reporting);
  }

  /** Once queue and threads are drained, every submitted task's callback has fired exactly once. */
  lemma FiredOnceWhenDrained(actions: seq<Action>, id: nat)
    requires Drained(Run(actions)) && id < |Run(actions).budgets|
    ensures Sum(Run(actions).fired, CallbackWeight(id)) == 1
  {
    RunInv(actions);
    DrainedFires(Run(actions), id);
  }

  lemma DrainedFires(s: System, id: nat)
    requires PlacesInv(s) && RoundsInv(s) && Drained(s) && id < |s.budgets|
    ensures Sum(s.fired, CallbackWeight(id)) == 1
  {
    assert forall c: Caller :: c.Returned? ==> CallerWeight(id)(c) == 0;
    SumZero(s.callers, CallerWeight(id));
    forall r | 0 <= r < |s.rounds| ensures RoundWeightOf(id)(s.rounds[r]) == 0 {
      GoneRoundWeighsNothing(s.rounds[r]);
    }
    SumZero(s.rounds, RoundWeightOf(id));
    assert Places(s, id) == 1;
  }

  /** A round that has an outcome ended with OK exactly if some slot's recorded answer is OK, and then with
      such an answer. */
  lemma OkExactlyIfSomeSlotOk(actions: seq<Action>, i: nat)
    requires i < |Run(actions).rounds| && Run(actions).rounds[i].outcome.Some?
    ensures
      var r := Run(actions).rounds[i];
      && (r.outcome.value.status == RESULT_OK <==> AnyOk(r.partials))
      && (r.outcome.value in r.partials || r.partials == [])
  {
    RunInv(actions);
    assert RoundInv(Run(actions).rounds[i]);
  }

  /** And an OK answer never goes unreported: when the round's threads are gone, the task's callback has fired
      with an OK answer of this round. */
  lemma OkIsReported(actions: seq<Action>, i: nat)
    requires i < |Run(actions).rounds| && AnyOk(Run(actions).rounds[i].partials)
    requires forall t :: 0 <= t < |Run(actions).rounds[i].threads| ==> Run(actions).rounds[i].threads[t].Exited?
    ensures
      var s := Run(actions);
      exists a :: Callback(s.rounds[i].task.id, a) in s.fired && a.status == RESULT_OK && a in s.rounds[i].partials
  {
    var s := Run(actions);
    var r := s.rounds[i];
    RunInv(actions);
    assert RoundInv(r) && RoundFits(s, r);
    SumZero(r.threads, Reporting);
    assert Callback(r.task.id, r.outcome.value) in s.fired;
  }

  /** Every OK callback carries the answer of some slot. */
  lemma OkCallbackComesFromSlot(actions: seq<Action>, c: Callback)
    requires c in Run(actions).fired && c.answer.status == RESULT_OK
    ensures
      var s := Run(actions);
      exists r :: 0 <= r < |s.rounds| && s.rounds[r].task.id == c.id && c.answer in s.rounds[r].partials
  {
    var s := Run(actions);
    RunInv(actions);
    assert CallbackFits(s, c);
    var r :| 0 <= r < |s.rounds| && s.rounds[r].task.id == c.id && s.rounds[r].outcome == Some(c.answer);
    assert RoundInv(s.rounds[r]);
  }

  /** When the last thread of a round finds the task unfinished, no answer of the round is OK: the choice
      among several OK answers, by consensus or otherwise, is never made. */
  lemma ConsensusNeverReached(actions: seq<Action>, i: nat, t: nat, env: Environment)
    requires i < |Run(actions).rounds| && t < |Run(actions).rounds[i].threads|
    requires Run(actions).rounds[i].threads[t].Decide?
    ensures
      var r := Run(actions).rounds[i];
      && OkAnswers(r.partials) == []
      && ThreadStep(r, t, env).0.threads[t] ==
           (if r.partials != [] then LastClaim(r.partials[0])
            else if r.task.attempts < r.task.maxAttempts then Requeue
            else LastClaim(Reply(RESULT_TIMEOUT, [])))
  {
    RunInv(actions);
    var r := Run(actions).rounds[i];
    assert RoundInv(r);
    assert ThreadOk(r, r.threads[t]);
    NoOkAnswers(r.partials);
    DecideStep(r, t, env);
  }

  // ---- In place ----------------------------------------------------------------------------------------------

  lemma {:induction false} OkAnswersAppend(answers: seq<Reply>, a: Reply)
    ensures OkAnswers(answers + [a]) == OkAnswers(answers) + if a.status == RESULT_OK then [a] else []
  {
    if answers == [] {
      assert answers + [a] == [a];
    } else {
      OkAnswersAppend(answers[1..], a);
      assert (answers + [a])[1..] == answers[1..] + [a];
    }
  }

  /** The object the threads of one round share, with the accesses the threads make to it. */
  class SharedDispatchState {
    const task: Task
    var outcome: Option<Reply>
    var remaining: int
    var partials: seq<Reply>
    var threads: seq<Thread>
    var requeued: bool

    ghost function Value(): Round
      reads this
    {
      Round(task, outcome, remaining, partials, threads, requeued)
    }

    constructor (task: Task, slots: nat)
      ensures Value() == NewRound(task, slots)
    {
      this.task := task.(attempts := task.attempts + 1);
      outcome, remaining, partials, requeued := None, slots, [], false;
      threads := seq(slots, _ => Transport);
    }

    /** The compare-exchange on the done flag: only the first claim sets the outcome. */
    method CompleteIfFirst(a: Reply) returns (first: bool)
      modifies this`outcome
      ensures first == old(outcome).None?
      ensures outcome == if first then Some(a) else old(outcome)
    {
      first := outcome.None?;
      if first {
        outcome := Some(a);
      }
    }

    method Choose(pick: nat) returns (a: Reply)
      requires partials != []
      ensures a == Chosen(partials, pick)
    {
      var oks: seq<Reply> := [];
      for i := 0 to |partials|
        invariant oks == OkAnswers(partials[..i])
      {
        OkAnswersAppend(partials[..i], partials[i]);
        assert partials[..i + 1] == partials[..i] + [partials[i]];
        if partials[i].status == RESULT_OK {
          oks := oks + [partials[i]];
        }
      }
      assert partials[..|partials|] == partials;
      if |oks| >= 2 {
        a := oks[if pick < |oks| then pick else 0];
      } else if |oks| == 1 {
        a := oks[0];
      } else {
        a := partials[0];
      }
    }

    method Access(t: nat, env: Environment) returns (e: Effect)
      requires t < |threads|
      modifies this
      ensures (Value(), e) == ThreadStep(old(Value()), t, env)
    {
      e := Nothing;
      var next := threads[t];
      match threads[t] {
      case Transport => next := if env.answer.None? then Leave else Record(env.answer.value);
      case Record(a) =>
        partials := partials + [a];
        next := if a.status == RESULT_OK then Claim(a) else Leave;
      case Claim(a) =>
        var first := CompleteIfFirst(a);
        next := if first then Report(a) else Leave;
      case Report(a) =>
        e := Fire(a);
        next := Leave;
      case Leave =>
        remaining := remaining - 1;
        next := if remaining == 0 then Inspect else Exited;
      case Inspect => next := if outcome.Some? then Exited else Decide;
      case Decide =>
        if partials != [] {
          var a := Choose(env.pick);
          next := LastClaim(a);
        } else if task.attempts < task.maxAttempts {
          next := Requeue;
        } else {
          next := LastClaim(Reply(RESULT_TIMEOUT, []));
        }
      case Requeue =>
        if env.accepted {
          e, requeued := Put, true;
          next := Exited;
        } else {
          next := LastClaim(Reply(RESULT_REJECTED, []));
        }
      case LastClaim(a) =>
        var first := CompleteIfFirst(a);
        next := if first then LastReport(a) else Exited;
      case LastReport(a) =>
        e := Fire(a);
        next := Exited;
      case Exited =>
      }
      assert threads[t := threads[t]] == threads;
      threads := threads[t := next];
    }
  }
}
