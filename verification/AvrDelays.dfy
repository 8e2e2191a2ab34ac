/** What the delays of the transfer switch guarantee over whole runs: no transfer outlives its timeout, and in
    automatic mode no source is left on a flicker of the main input. */
module AvrDelays {
  import opened Clock
  import opened Avr
  import opened AvrSafety
  import opened AvrConvergence

  /** `states[k]` is the state before tick `k`. */
  predicate StepAt(c: Config, states: seq<State>, ticks: seq<Tick>, k: nat)
    requires k < |ticks| && |states| == |ticks| + 1
  {
    states[k + 1] == Ticked(c, states[k], ticks[k])
  }

  ghost predicate IsRun(c: Config, states: seq<State>, ticks: seq<Tick>) {
    |states| == |ticks| + 1 && forall k :: 0 <= k < |ticks| ==> StepAt(c, states, ticks, k)
  }

  predicate Ordered(ticks: seq<Tick>, from: nat) {
    forall k :: 0 <= k < |ticks| ==>
      (if k == 0 then from else ticks[k - 1].now) <= ticks[k].sampled <= ticks[k].now
  }

  function TimeOf(ticks: seq<Tick>, from: nat, k: nat): nat
    requires k <= |ticks|
  {
    if k == 0 then from else ticks[k - 1].now
  }

  lemma RunIsSafeAt(c: Config, states: seq<State>, ticks: seq<Tick>, from: nat, k: nat)
    requires IsRun(c, states, ticks) && Safe(c, states[0], from) && Ordered(ticks, from) && k <= |ticks|
    ensures Safe(c, states[k], TimeOf(ticks, from, k))
  {
    if k == 0 {
    } else {
      RunIsSafeAt(c, states, ticks, from, k - 1);
      SafeLater(c, states[k - 1], TimeOf(ticks, from, k - 1), ticks[k - 1].sampled);
      assert StepAt(c, states, ticks, k - 1);
      TaskIsSafe(c, states[k - 1], ticks[k - 1].sample, ticks[k - 1].sampled, ticks[k - 1].now);
    }
  }

  // ----- bounded transfers

  predicate WithinTimeout(c: Config, s: State, now: nat) {
    s.in_progress ==> s.start <= now <= s.start + c.transfer_timeout_ms
  }

  lemma ProcessedInTime(c: Config, s: State, now: nat)
    requires s.in_progress && !s.phase.Idle? && s.start <= now < s.start + WORD
    ensures WithinTimeout(c, ProcessTransfer(c, s, now), now)
  {
    ElapsedNeverOverstates(s.start, now);
  }

  predicate Keeps(t: State, t': State, now: nat) {
    && t'.inputs.main_ok == t.inputs.main_ok && t'.inputs.reserve_ok == t.inputs.reserve_ok
    && (t'.in_progress ==> t.in_progress || t'.start == now)
  }

  lemma StartKeeps(c: Config, t: State, target: Source, now: nat)
    ensures Keeps(t, StartTransfer(c, t, target, now), now)
  {
  }

  /** While idle a tick changes no input, and a transfer it starts starts now. */
  lemma IdleKeeps(c: Config, t: State, now: nat)
    requires !t.in_progress
    ensures Keeps(t, WhileIdle(c, t, now), now)
  {
    if t.fault == NoFault {
      if !c.auto_mode {
        StartKeeps(c, t, t.manual, now);
      } else {
        var (desired, t') := DecideAuto(c, t, now);
        DecisionOnlyDecides(c, t, now);
        StartKeeps(c, t', desired, now);
      }
    }
  }

  /** If ticks are never further apart than the clock's range leaves after the timeout, a transfer still under
      way after a tick has not passed its timeout: it is idle again at the first tick beyond. */
  lemma {:induction false} TransfersEndByTheirTimeout(
      c: Config, states: seq<State>, ticks: seq<Tick>, from: nat, k: nat)
    requires IsRun(c, states, ticks) && Ordered(ticks, from) && k <= |ticks|
    requires c.enabled && Safe(c, states[0], from) && WithinTimeout(c, states[0], from)
    requires forall j :: 0 <= j < |ticks| ==> KeepsUp(c, TimeOf(ticks, from, j), ticks[j])
    ensures WithinTimeout(c, states[k], TimeOf(ticks, from, k))
  {
    if k == 0 {
    } else {
      var j := k - 1;
      TransfersEndByTheirTimeout(c, states, ticks, from, j);
      RunIsSafeAt(c, states, ticks, from, j);
      TickEndsInTime(c, states, ticks, from, j);
    }
  }

  lemma TickEndsInTime(c: Config, states: seq<State>, ticks: seq<Tick>, from: nat, j: nat)
    requires IsRun(c, states, ticks) && Ordered(ticks, from) && j < |ticks| && c.enabled
    requires Safe(c, states[j], TimeOf(ticks, from, j)) && WithinTimeout(c, states[j], TimeOf(ticks, from, j))
    requires forall i :: 0 <= i < |ticks| ==> KeepsUp(c, TimeOf(ticks, from, i), ticks[i])
    ensures WithinTimeout(c, states[j + 1], TimeOf(ticks, from, j + 1))
  {
    KeepsOrder(ticks, from, j);
    assert KeepsUp(c, TimeOf(ticks, from, j), ticks[j]);
    StepInTime(c, states, ticks, j, TimeOf(ticks, from, j));
  }

  lemma KeepsOrder(ticks: seq<Tick>, from: nat, j: nat)
    requires Ordered(ticks, from) && j < |ticks|
    ensures TimeOf(ticks, from, j) <= ticks[j].now == TimeOf(ticks, from, j + 1)
  {
  }

  lemma StepInTime(c: Config, states: seq<State>, ticks: seq<Tick>, j: nat, before: nat)
    requires IsRun(c, states, ticks) && j < |ticks| && c.enabled
    requires Safe(c, states[j], before) && WithinTimeout(c, states[j], before)
    requires before <= ticks[j].now && KeepsUp(c, before, ticks[j])
    ensures WithinTimeout(c, states[j + 1], ticks[j].now)
  {
    assert StepAt(c, states, ticks, j);
    TickInTime(c, states[j], before, ticks[j]);
  }

  predicate KeepsUp(c: Config, before: nat, tick: Tick) {
    tick.now < before + WORD - c.transfer_timeout_ms
  }

  lemma TickInTime(c: Config, s: State, from: nat, tick: Tick)
    requires c.enabled && Safe(c, s, from) && WithinTimeout(c, s, from) && from <= tick.now
    requires KeepsUp(c, from, tick)
    ensures WithinTimeout(c, Ticked(c, s, tick), tick.now)
  {
    var s1 := ApplySample(c, s, tick.sample, tick.sampled);
    if s1.in_progress { ProcessedInTime(c, s1, tick.now); } else { IdleKeeps(c, s1, tick.now); }
  }

  // ----- no flapping

  /** From the tick at time `since` up to tick `k`, every tick saw the main input as `ok`. */
  ghost predicate Seen(states: seq<State>, ticks: seq<Tick>, k: nat, since: nat, ok: bool)
    requires k <= |ticks| < |states|
  {
    exists j :: 0 <= j < k && ticks[j].now == since &&
      forall i :: j < i <= k ==> states[i].inputs.main_ok == ok
  }

  ghost predicate TimersMean(states: seq<State>, ticks: seq<Tick>, k: nat)
    requires k <= |ticks| < |states|
  {
    var t := states[k];
    && (t.in_progress && t.fault != NoFault ==> t.target.Off?)
    && (!t.in_progress && !t.active.Off? ==> t.fault == NoFault)
    && (!t.in_progress && t.active.Main? && !IsUnset(t.main_lost_since) ==>
      Seen(states, ticks, k, t.main_lost_since, false))
    && (!t.in_progress && t.active.Reserve? && !IsUnset(t.main_ok_since) ==>
      Seen(states, ticks, k, t.main_ok_since, true))
  }

  lemma SeenLonger(states: seq<State>, ticks: seq<Tick>, k: nat, since: nat, ok: bool)
    requires k < |ticks| < |states| && states[k + 1].inputs.main_ok == ok
    requires since == ticks[k].now || Seen(states, ticks, k, since, ok)
    ensures Seen(states, ticks, k + 1, since, ok)
  {
    if since == ticks[k].now {
      assert ticks[k].now == since && forall i :: k < i <= k + 1 ==> states[i].inputs.main_ok == ok;
    } else {
      var j :| 0 <= j < k && ticks[j].now == since && forall i :: j < i <= k ==> states[i].inputs.main_ok == ok;
      assert forall i :: j < i <= k + 1 ==> states[i].inputs.main_ok == ok;
    }
  }

  /** How one tick leaves the timers, as far as the history needs to know. */
  ghost predicate TimersMove(t: State, t': State, now: nat) {
    && (t'.in_progress && t'.fault != NoFault ==> t'.target.Off?)
    && (!t'.in_progress && !t'.active.Off? ==> t'.fault == NoFault)
    && (!t'.in_progress && t'.active.Main? && !IsUnset(t'.main_lost_since) ==>
          !t'.inputs.main_ok && (t'.main_lost_since == now ||
                          (!t.in_progress && t.active.Main? && t.main_lost_since == t'.main_lost_since)))
    && (!t'.in_progress && t'.active.Reserve? && !IsUnset(t'.main_ok_since) ==>
          t'.inputs.main_ok && (t'.main_ok_since == now ||
                         (!t.in_progress && t.active.Reserve? && t.main_ok_since == t'.main_ok_since)))
  }

  predicate FaultMeansOff(t: State) {
    && (t.in_progress && t.fault != NoFault ==> t.target.Off?)
    && (!t.in_progress && !t.active.Off? ==> t.fault == NoFault)
  }

  lemma ApplyMoves(c: Config, t: State, now: nat)
    requires t.in_progress && FaultMeansOff(t)
    requires c.feedback_main_port == INVALID_PORT && c.feedback_reserve_port == INVALID_PORT
    ensures TimersMove(t, ApplyTarget(c, t, now), now)
  {
  }

  lemma AdvanceMoves(c: Config, t: State, now: nat, lasted: uint32)
    requires t.in_progress && FaultMeansOff(t) && (t.phase.Break? || t.phase.Warmup?)
    ensures TimersMove(t, Advance(c, t, now, lasted), now)
  {
  }

  lemma TimeoutMoves(c: Config, t: State, now: nat)
    ensures TimersMove(t, TimedOut(c, t, now), now)
  {
  }

  lemma ProcessMoves(c: Config, t: State, now: nat)
    requires t.in_progress && !t.phase.Idle? && FaultMeansOff(t)
    requires c.feedback_main_port == INVALID_PORT && c.feedback_reserve_port == INVALID_PORT
    ensures TimersMove(t, ProcessTransfer(c, t, now), now)
  {
    if Elapsed(now, t.start) > c.transfer_timeout_ms { TimeoutMoves(c, t, now); }
    else if t.phase.Apply? { ApplyMoves(c, t, now); }
    else { AdvanceMoves(c, t, now, Elapsed(now, t.step)); }
  }

  lemma IdleMoves(c: Config, t: State, now: nat)
    requires !t.in_progress && FaultMeansOff(t) && c.auto_mode
    ensures TimersMove(t, WhileIdle(c, t, now), now)
  {
    if t.fault == NoFault {
      match t.active
      case Main => MainMoves(c, t, now);
      case Reserve => ReserveMoves(c, t, now);
      case Off =>
        var (choice, t') := FromOff(c, t, now);
        if choice != Off { StartMoves(c, t, t', choice, now); }
    }
  }

  lemma StartMoves(c: Config, t: State, t': State, target: Source, now: nat)
    requires target != t'.active && (t'.fault != NoFault ==> target.Off?)
    ensures TimersMove(t, StartTransfer(c, t', target, now), now)
  {
  }

  lemma MainMoves(c: Config, t: State, now: nat)
    requires !t.in_progress && t.fault == NoFault && c.auto_mode && t.active.Main?
    ensures TimersMove(t, WhileIdle(c, t, now), now)
  {
    var lost := if IsUnset(t.main_lost_since) then now else t.main_lost_since;
    if t.inputs.main_ok {
      assert TimersMove(t, t.(main_lost_since := 0), now);
    } else {
      var (choice, t') := MainLost(c, t.(main_lost_since := lost), Elapsed(now, lost));
      if choice != Main { StartMoves(c, t, t', choice, now); } else { assert TimersMove(t, t', now); }
    }
  }

  lemma ReserveMoves(c: Config, t: State, now: nat)
    requires !t.in_progress && t.fault == NoFault && c.auto_mode && t.active.Reserve?
    ensures TimersMove(t, WhileIdle(c, t, now), now)
  {
    var back := c.auto_return_main && t.inputs.main_ok;
    var since := if !back then 0 else if IsUnset(t.main_ok_since) then now else t.main_ok_since;
    var (choice, t') := MainBack(c, t.(main_ok_since := since), back, Elapsed(now, since));
    if choice != Reserve { StartMoves(c, t, t', choice, now); } else { assert TimersMove(t, t', now); }
  }

  /** Automatic mode, starting idle on no source, without feedback ports. */
  ghost predicate AutoOnly(c: Config, s: State, from: nat) {
    && c.enabled && c.auto_mode
    && c.feedback_main_port == INVALID_PORT && c.feedback_reserve_port == INVALID_PORT
    && Safe(c, s, from) && !s.in_progress && s.active.Off?
  }

  lemma TickMoves(c: Config, states: seq<State>, ticks: seq<Tick>, from: nat, k: nat)
    requires IsRun(c, states, ticks) && AutoOnly(c, states[0], from) && Ordered(ticks, from) && k < |ticks|
    requires TimersMean(states, ticks, k)
    ensures TimersMove(ApplySample(c, states[k], ticks[k].sample, ticks[k].sampled),
                       states[k + 1], ticks[k].now)
  {
    RunIsSafeAt(c, states, ticks, from, k);
    assert StepAt(c, states, ticks, k);
    var t := ApplySample(c, states[k], ticks[k].sample, ticks[k].sampled);
    if t.in_progress { ProcessMoves(c, t, ticks[k].now); } else { IdleMoves(c, t, ticks[k].now); }
  }

  lemma {:induction false} TimersAlwaysMean(c: Config, states: seq<State>, ticks: seq<Tick>, from: nat, k: nat)
    requires IsRun(c, states, ticks) && AutoOnly(c, states[0], from) && Ordered(ticks, from) && k <= |ticks|
    ensures TimersMean(states, ticks, k)
  {
    if k == 0 {
    } else {
      TimersAlwaysMean(c, states, ticks, from, k - 1);
      TimersStillMean(c, states, ticks, from, k - 1);
    }
  }

  lemma TimersStillMean(c: Config, states: seq<State>, ticks: seq<Tick>, from: nat, k: nat)
    requires IsRun(c, states, ticks) && AutoOnly(c, states[0], from) && Ordered(ticks, from) && k < |ticks|
    requires TimersMean(states, ticks, k)
    ensures TimersMean(states, ticks, k + 1)
  {
    TickMoves(c, states, ticks, from, k);
    MovesMean(c, states, ticks, k);
  }

  lemma MovesMean(c: Config, states: seq<State>, ticks: seq<Tick>, k: nat)
    requires k < |ticks| < |states| && TimersMean(states, ticks, k)
    requires TimersMove(ApplySample(c, states[k], ticks[k].sample, ticks[k].sampled),
                        states[k + 1], ticks[k].now)
    ensures TimersMean(states, ticks, k + 1)
  {
    var t' := states[k + 1];
    if !t'.in_progress && t'.active.Main? && !IsUnset(t'.main_lost_since) {
      SeenLonger(states, ticks, k, t'.main_lost_since, false);
    }
    if !t'.in_progress && t'.active.Reserve? && !IsUnset(t'.main_ok_since) {
      SeenLonger(states, ticks, k, t'.main_ok_since, true);
    }
  }

  /** Every tick from some tick `j`, at least `delay` before tick `k`, up to tick `k` saw the main input as `ok`. */
  ghost predicate SeenFor(states: seq<State>, ticks: seq<Tick>, k: nat, delay: nat, ok: bool)
    requires k < |ticks| < |states|
  {
    exists j :: 0 <= j <= k && ticks[j].now + delay <= ticks[k].now &&
      forall i :: j < i <= k + 1 ==> states[i].inputs.main_ok == ok
  }

  lemma SeenSpan(states: seq<State>, ticks: seq<Tick>, k: nat, since: nat, delay: nat, ok: bool)
    requires k < |ticks| < |states| && Seen(states, ticks, k + 1, since, ok) && since + delay <= ticks[k].now
    ensures SeenFor(states, ticks, k, delay, ok)
  {
    var j :| 0 <= j < k + 1 && ticks[j].now == since && forall i :: j < i <= k + 1 ==> states[i].inputs.main_ok == ok;
    assert ticks[j].now + delay <= ticks[k].now;
  }

  lemma SeenAtMost(ticks: seq<Tick>, from: nat, j: nat, k: nat)
    requires Ordered(ticks, from) && j <= k < |ticks|
    ensures ticks[j].now <= ticks[k].now
    decreases k
  {
    if j >= k {
    } else {
      SeenAtMost(ticks, from, j, k - 1);
    }
  }

  lemma LeavingMain(c: Config, t: State, now: nat)
    requires !t.in_progress && t.fault == NoFault && c.auto_mode && t.active.Main? && WhileIdle(c, t, now).in_progress
    ensures var lost := if IsUnset(t.main_lost_since) then now else t.main_lost_since;
      !t.inputs.main_ok && Elapsed(now, lost) >= c.loss_delay_ms
  {
  }

  lemma LeavingReserve(c: Config, t: State, now: nat)
    requires !t.in_progress && t.fault == NoFault && c.auto_mode && t.active.Reserve? && t.inputs.reserve_ok
    requires WhileIdle(c, t, now).in_progress
    ensures var since := if IsUnset(t.main_ok_since) then now else t.main_ok_since;
      t.inputs.main_ok && Elapsed(now, since) >= c.return_delay_ms && WhileIdle(c, t, now).target.Main?
  {
  }

  /** Main is left only after every tick for the loss delay saw it lost, also across clock wraps. */
  lemma {:induction false} MainIsNotLeftEarly(c: Config, states: seq<State>, ticks: seq<Tick>, from: nat, k: nat)
    requires IsRun(c, states, ticks) && AutoOnly(c, states[0], from) && Ordered(ticks, from) && k < |ticks|
    requires !states[k].in_progress && states[k].active.Main?
    requires states[k + 1].in_progress
    ensures SeenFor(states, ticks, k, c.loss_delay_ms, false)
  {
    TimersAlwaysMean(c, states, ticks, from, k);
    RunIsSafeAt(c, states, ticks, from, k);
    assert StepAt(c, states, ticks, k);
    var t := ApplySample(c, states[k], ticks[k].sample, ticks[k].sampled);
    LeavingMain(c, t, ticks[k].now);
    IdleKeeps(c, t, ticks[k].now);
    var lost := if IsUnset(t.main_lost_since) then ticks[k].now else t.main_lost_since;
    SeenLonger(states, ticks, k, lost, false);
    StartedBefore(states, ticks, from, k, lost, false);
    ElapsedNeverOverstates(lost, ticks[k].now);
    SeenSpan(states, ticks, k, lost, c.loss_delay_ms, false);
  }

  lemma StartedBefore(states: seq<State>, ticks: seq<Tick>, from: nat, k: nat, since: nat, ok: bool)
    requires Ordered(ticks, from) && k < |ticks| < |states| && Seen(states, ticks, k + 1, since, ok)
    ensures since <= ticks[k].now
  {
    var j :| 0 <= j < k + 1 && ticks[j].now == since && forall i :: j < i <= k + 1 ==> states[i].inputs.main_ok == ok;
    SeenAtMost(ticks, from, j, k);
  }

  /** A working reserve is left only for Main, and only after every tick for the return delay saw Main
      present. */
  lemma {:induction false} ReserveIsNotLeftEarly(c: Config, states: seq<State>, ticks: seq<Tick>, from: nat, k: nat)
    requires IsRun(c, states, ticks) && AutoOnly(c, states[0], from) && Ordered(ticks, from) && k < |ticks|
    requires !states[k].in_progress && states[k].active.Reserve?
    requires states[k + 1].in_progress && states[k + 1].inputs.reserve_ok
    ensures states[k + 1].target.Main?
    ensures SeenFor(states, ticks, k, c.return_delay_ms, true)
  {
    TimersAlwaysMean(c, states, ticks, from, k);
    RunIsSafeAt(c, states, ticks, from, k);
    assert StepAt(c, states, ticks, k);
    var t := ApplySample(c, states[k], ticks[k].sample, ticks[k].sampled);
    IdleKeeps(c, t, ticks[k].now);
    LeavingReserve(c, t, ticks[k].now);
    var since := if IsUnset(t.main_ok_since) then ticks[k].now else t.main_ok_since;
    SeenLonger(states, ticks, k, since, true);
    StartedBefore(states, ticks, from, k, since, true);
    ElapsedNeverOverstates(since, ticks[k].now);
    SeenSpan(states, ticks, k, since, c.return_delay_ms, true);
  }

}
