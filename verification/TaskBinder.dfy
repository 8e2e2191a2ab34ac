/** The hand-off between the tasks that announce network work and the task that runs the post phase:
    an atomic pending flag, a one-element queue and the phase mutex, stepped at every point where the
    scheduler can switch. Any number of notifier threads run. `bindRuntime` has completed, so the queue,
    the mutex and the runtime pointer exist. */
module TaskBinder {

  datatype Phase = Idle | PreNetwork | PostNetwork

  datatype Consumer = AtReceive | GotEvent | WantsMutex | HasMutex | InPost | PostDone

  datatype Producer = Outside | Entered | InPre | PreDone

  datatype Holder = Nobody | ConsumerHolds | PreHolds

  /** `won` are the notifiers between their successful exchange and their queue write. `calls` counts
      the notify calls so far, `covered` those made before the latest post phase started. */
  datatype State = State(pending: bool, queue: bool, won: set<nat>, consumer: Consumer, pre: Producer,
                         mutex: Holder, phase: Phase, calls: nat, covered: nat)

  datatype Step =
    | Notify(thread: nat)       // compare_exchange_strong
    | Enqueue(thread: nat)      // xQueueOverwrite
    | Receive                   // xQueueReceive
    | Clear                     // pending.store(false)
    | TakePost | BeginPost | EndPost | GivePost
    | TakePre | BeginPre | EndPre | GivePre

  predicate Enabled(s: State, step: Step) {
    match step
    case Notify(t) => t !in s.won
    case Enqueue(t) => t in s.won
    case Receive => s.consumer.AtReceive? && s.queue
    case Clear => s.consumer.GotEvent?
    case TakePost => s.consumer.WantsMutex? && s.mutex.Nobody?
    case BeginPost => s.consumer.HasMutex?
    case EndPost => s.consumer.InPost?
    case GivePost => s.consumer.PostDone?
    case TakePre => s.pre.Outside? && s.mutex.Nobody?
    case BeginPre => s.pre.Entered?
    case EndPre => s.pre.InPre?
    case GivePre => s.pre.PreDone?
  }

  function Next(s: State, step: Step): State {
    match step
    case Notify(t) =>
      var s' := s.(calls := s.calls + 1);
      if s.pending then s' else s'.(pending := true, won := s.won + {t})
    case Enqueue(t) => s.(queue := true, won := s.won - {t})
    case Receive => s.(queue := false, consumer := GotEvent)
    case Clear => s.(pending := false, consumer := WantsMutex)
    case TakePost => s.(mutex := ConsumerHolds, consumer := HasMutex)
    case BeginPost => s.(phase := PostNetwork, consumer := InPost, covered := s.calls)
    case EndPost => s.(phase := Idle, consumer := PostDone)
    case GivePost => s.(mutex := Nobody, consumer := AtReceive)
    case TakePre => s.(mutex := PreHolds, pre := Entered)
    case BeginPre => s.(phase := PreNetwork, pre := InPre)
    case EndPre => s.(phase := Idle, pre := PreDone)
    case GivePre => s.(mutex := Nobody, pre := Outside)
  }

  const START := State(false, false, {}, AtReceive, Outside, Nobody, Idle, 0, 0)

  // ----- the invariant

  function Bit(b: bool): nat { if b then 1 else 0 }

  /** Where the announcement travels: a notifier about to enqueue, the queue, or the consumer about to
      clear the flag. */
  function Tokens(s: State): nat { |s.won| + Bit(s.queue) + Bit(s.consumer.GotEvent?) }

  predicate OneToken(s: State) { Tokens(s) == Bit(s.pending) }

  /** The two phases exclude each other, and the published phase is the one being run. */
  predicate PhasesApart(s: State) {
    && (s.mutex.ConsumerHolds? <==> s.consumer.HasMutex? || s.consumer.InPost? || s.consumer.PostDone?)
    && (s.mutex.PreHolds? <==> !s.pre.Outside?)
    && (s.phase.PostNetwork? <==> s.consumer.InPost?)
    && (s.phase.PreNetwork? <==> s.pre.InPre?)
  }

  predicate PostIsComing(s: State) {
    s.pending || s.consumer.WantsMutex? || s.consumer.HasMutex?
  }

  predicate Inv(s: State) {
    && OneToken(s) && PhasesApart(s)
    && s.covered <= s.calls
    && (s.covered < s.calls ==> PostIsComing(s))
  }

  lemma {:induction false} StepKeepsInv(s: State, step: Step)
    requires Inv(s) && Enabled(s, step)
    ensures Inv(Next(s, step))
    ensures step.Enqueue? ==> !s.queue
  {
    match step
    case Notify(t) => assert |s.won + {t}| == |s.won| + 1;
    case Enqueue(t) =>
      assert |s.won - {t}| == |s.won| - 1;
    case _ =>
  }

  // ----- runs

  ghost predicate StepAt(states: seq<State>, steps: seq<Step>, k: nat)
    requires k < |steps| && |states| == |steps| + 1
  {
    Enabled(states[k], steps[k]) && states[k + 1] == Next(states[k], steps[k])
  }

  ghost predicate IsRun(states: seq<State>, steps: seq<Step>) {
    && |states| == |steps| + 1 && states[0] == START
    && forall k :: 0 <= k < |steps| ==> StepAt(states, steps, k)
  }

  lemma RunKeepsInv(states: seq<State>, steps: seq<Step>, k: nat)
    requires IsRun(states, steps) && k <= |steps|
    ensures Inv(states[k])
  {
    if k == 0 {
    } else {
      RunKeepsInv(states, steps, k - 1);
      assert StepAt(states, steps, k - 1);
      StepKeepsInv(states[k - 1], steps[k - 1]);
    }
  }

  /** In every reachable state, under any interleaving of any number of notifiers: the flag is set
      exactly while one announcement is on its way, and the two phases never overlap. */
  lemma {:induction false} ReachableStates(states: seq<State>, steps: seq<Step>, k: nat)
    requires IsRun(states, steps) && k <= |steps|
    ensures Tokens(states[k]) == Bit(states[k].pending)
    ensures !(states[k].consumer.InPost? && states[k].pre.InPre?)
    ensures states[k].phase == if states[k].consumer.InPost? then PostNetwork
                               else if states[k].pre.InPre? then PreNetwork else Idle
  {
    RunKeepsInv(states, steps, k);
  }

  /** Overwriting the queue never destroys an announcement that has not been read. */
  lemma {:induction false} OverwriteFindsQueueEmpty(states: seq<State>, steps: seq<Step>, k: nat)
    requires IsRun(states, steps) && k < |steps| && steps[k].Enqueue?
    ensures !states[k].queue
  {
    RunKeepsInv(states, steps, k);
    assert StepAt(states, steps, k);
    StepKeepsInv(states[k], steps[k]);
  }

  /** Nothing is left to do for the announcement. */
  predicate Quiet(s: State) {
    s.won == {} && !s.queue && (s.consumer.AtReceive? || s.consumer.InPost? || s.consumer.PostDone?)
  }

  /** No lost wake-up: whenever nothing is under way any more, every notify call ever made was followed
      by the start of a post phase. */
  lemma {:induction false} NoLostWakeUp(states: seq<State>, steps: seq<Step>, k: nat)
    requires IsRun(states, steps) && k <= |steps| && Quiet(states[k])
    ensures states[k].covered == states[k].calls
  {
    RunKeepsInv(states, steps, k);
  }

  /** A call is covered exactly when a post phase has started after it. */
  lemma {:induction false} CoveredMeansPostStarted(states: seq<State>, steps: seq<Step>, call: nat, k: nat)
    requires IsRun(states, steps) && call < k <= |steps| && steps[call].Notify?
    ensures states[call].calls < states[k].covered <==> exists j :: call < j < k && steps[j].BeginPost?
    decreases k
  {
    CallsGrow(states, steps, call + 1, k - 1);
    assert StepAt(states, steps, call);
    assert StepAt(states, steps, k - 1);
    if k == call + 1 {
      RunKeepsInv(states, steps, call);
    } else {
      CoveredMeansPostStarted(states, steps, call, k - 1);
      if steps[k - 1].BeginPost? {
        assert call < k - 1 < k && steps[k - 1].BeginPost?;
      } else {
        assert states[k].covered == states[k - 1].covered;
      }
    }
  }

  lemma CallsGrow(states: seq<State>, steps: seq<Step>, i: nat, k: nat)
    requires IsRun(states, steps) && i <= |steps| && k <= |steps|
    ensures i <= k ==> states[i].calls <= states[k].calls
    decreases k
  {
    if i >= k {
    } else {
      CallsGrow(states, steps, i, k - 1);
      assert StepAt(states, steps, k - 1);
    }
  }

  // ----- progress

  /** How far the next post phase is, counted in steps of the threads it waits for. */
  function Distance(s: State): nat {
    match s.consumer
    case HasMutex => 1
    case WantsMutex => 2 + match s.pre { case Outside => 0 case PreDone => 1 case InPre => 2 case Entered => 3 }
    case GotEvent => 6
    case AtReceive => if s.queue then 7 else 8
    case PostDone => if s.queue then 8 else 9
    case InPost => if s.queue then 9 else 10
  }

  /** The steps the announcement is waiting for. */
  predicate Awaited(s: State, step: Step) {
    match s.consumer
    case HasMutex => step.BeginPost?
    case WantsMutex =>
      (match s.pre
       case Outside => step.TakePost?
       case PreDone => step.GivePre?
       case InPre => step.EndPre?
       case Entered => step.BeginPre?)
    case GotEvent => step.Clear?
    case AtReceive => if s.queue then step.Receive? else step.Enqueue?
    case PostDone => step.GivePost?
    case InPost => step.EndPost?
  }

  /** While a post phase is due, some awaited step can be taken: the protocol never blocks. */
  lemma {:induction false} NeverStuck(s: State) returns (step: Step)
    requires Inv(s) && PostIsComing(s)
    ensures Enabled(s, step) && Awaited(s, step)
  {
    match s.consumer
    case HasMutex => step := BeginPost;
    case WantsMutex =>
      step := (match s.pre case Outside => TakePost case PreDone => GivePre
              case InPre => EndPre case Entered => BeginPre);
    case GotEvent => step := Clear;
    case AtReceive =>
      if s.queue {
        step := Receive;
      } else {
        assert s.won != {};
        var t :| t in s.won;
        step := Enqueue(t);
      }
    case PostDone => step := GivePost;
    case InPost => step := EndPost;
  }

  /** The pre phase taking the free mutex ahead of a consumer that waits for it. */
  predicate Overtakes(s: State, step: Step) {
    step.TakePre? && s.consumer.WantsMutex?
  }

  /** Awaited steps bring the post phase nearer; no other step moves it away, short of overtaking. */
  lemma {:induction false} StepApproaches(s: State, step: Step)
    requires Inv(s) && Enabled(s, step) && PostIsComing(s) && !step.BeginPost? && !Overtakes(s, step)
    ensures PostIsComing(Next(s, step))
    ensures Distance(Next(s, step)) + (if Awaited(s, step) then 1 else 0) <= Distance(s) <= 10
  {
    if step.Enqueue? { assert |s.won - {step.thread}| == |s.won| - 1; }
  }

  ghost function AwaitedCount(states: seq<State>, steps: seq<Step>, i: nat, k: nat): nat
    requires IsRun(states, steps) && i <= k <= |steps|
    decreases k
  {
    if i == k then 0
    else AwaitedCount(states, steps, i, k - 1) + if Awaited(states[k - 1], steps[k - 1]) then 1 else 0
  }

  /** Once a call is waiting, the next post phase starts before ten awaited steps have been taken, whatever
      else runs in between. */
  lemma {:induction false} PostStartsSoon(states: seq<State>, steps: seq<Step>, i: nat, k: nat)
    requires IsRun(states, steps) && i <= k <= |steps| && states[i].covered < states[i].calls
    requires forall j :: i <= j < k ==> !steps[j].BeginPost? && !Overtakes(states[j], steps[j])
    ensures PostIsComing(states[k])
    ensures AwaitedCount(states, steps, i, k) + Distance(states[k]) <= Distance(states[i])
    ensures AwaitedCount(states, steps, i, k) < 10
    decreases k
  {
    RunKeepsInv(states, steps, i);
    if i >= k {
    } else {
      PostStartsSoon(states, steps, i, k - 1);
      RunKeepsInv(states, steps, k - 1);
      assert StepAt(states, steps, k - 1);
      assert !steps[k - 1].BeginPost? && !Overtakes(states[k - 1], steps[k - 1]);
      StepApproaches(states[k - 1], steps[k - 1]);
    }
  }
}
