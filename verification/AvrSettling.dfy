/** How soon automatic mode settles, and where: with constant inputs and ticks that come often enough, the switch is
    idle on the best source there is within a bounded time, and stays there. */
module AvrSettling {
  import opened Clock
  import opened Options
  import opened Avr
  import opened AvrSafety
  import opened AvrConvergence
  import opened AvrDelays

  /** Idle on a source that no decision leaves. */
  predicate Settled(c: Config, s: State, m: bool, r: bool) {
    !s.in_progress && IdleRank(c, s.active, m, r) == 0
  }

  /** The delays leave room for the gap on the clock. */
  predicate Roomy(c: Config, g: nat) {
    c.loss_delay_ms + 2 * g < WORD && c.return_delay_ms + 2 * g < WORD
  }

  // ----- a budget of time

  /** How long a delay of `d` can still last when it has been measured at `e`. */
  function Wait(d: nat, e: nat, g: nat): nat { if e < d then d - e else d + g }

  function Longest(c: Config): nat {
    if c.loss_delay_ms > c.return_delay_ms then c.loss_delay_ms else c.return_delay_ms
  }

  /** A delay and a transfer after it. */
  function Leg(c: Config, g: nat): nat { Longest(c) + 4 * g + Transfer(c, g) }

  function Transfer(c: Config, g: nat): nat { c.break_ms + c.warmup_ms + 6 * g }

  function Legs(n: nat, leg: nat): nat
    requires n <= 2
  {
    if n == 0 then 0 else if n == 1 then leg else leg + leg
  }

  function TransferLeft(c: Config, phase: Phase, e: nat, g: nat): nat {
    match phase
    case Break => Wait(c.break_ms, e, g) + c.warmup_ms + 5 * g
    case Warmup => Wait(c.warmup_ms, e, g) + 3 * g
    case _ => 2 * g
  }

  /** A timer that is set, or that the next tick sets; a reading of zero counts as unset once more. */
  function TimerLeft(delay: nat, since: nat, now: nat, g: nat): nat {
    if !IsUnset(since) then Wait(delay, Elapsed(now, since), g) + g
    else delay + if Low(now) == 0 then 3 * g else 4 * g
  }

  function DelayLeft(c: Config, s: State, now: nat, g: nat, m: bool, r: bool): nat {
    if s.active.Main? then TimerLeft(c.loss_delay_ms, s.main_lost_since, now, g)
    else if s.active.Reserve? && c.auto_return_main && m && r then TimerLeft(c.return_delay_ms, s.main_ok_since, now, g)
    else g
  }

  /** An upper bound on the time to settling. */
  function Budget(c: Config, s: State, now: nat, g: nat, m: bool, r: bool): nat {
    var leg := Leg(c, g);
    if s.in_progress then
      TransferLeft(c, s.phase, Elapsed(now, s.step), g)
      + if Fresh(c, s, now, g) then Legs(IdleRank(c, s.target, m, r), leg) else g + leg + leg
    else if IdleRank(c, s.active, m, r) == 0 then 0
    else if s.fault != NoFault then g + Legs(IdleRank(c, s.active, m, r), leg)
    else DelayLeft(c, s, now, g, m, r) + Transfer(c, g) + Legs(IdleRank(c, s.active, m, r) - 1, leg)
  }

  /** The whole way from the worst state. */
  function Worst(c: Config, g: nat): nat { Transfer(c, g) + g + Leg(c, g) + Leg(c, g) }

  lemma BudgetBounded(c: Config, s: State, now: nat, g: nat, m: bool, r: bool)
    ensures Budget(c, s, now, g, m, r) <= Worst(c, g)
    ensures !s.in_progress ==> Budget(c, s, now, g, m, r) <= g + Legs(IdleRank(c, s.active, m, r), Leg(c, g))
  {
    if s.in_progress {
      TransferBounded(c, s.phase, Elapsed(now, s.step), g);
    } else {
      DelayBounded(c, s, now, g, m, r);
    }
  }

  lemma TransferBounded(c: Config, phase: Phase, e: nat, g: nat)
    ensures TransferLeft(c, phase, e, g) <= Transfer(c, g)
  {
  }

  lemma DelayBounded(c: Config, s: State, now: nat, g: nat, m: bool, r: bool)
    ensures DelayLeft(c, s, now, g, m, r) + Transfer(c, g) <= Leg(c, g)
  {
  }

  // ----- one tick

  /** The measured time grows with the real one, or has wrapped. */
  lemma MeasureGrows(since: nat, last: nat, now: nat)
    requires last <= now < last + WORD
    ensures var e, e' := Elapsed(last, since), Elapsed(now, since);
      e' == e + (now - last) || (e + (now - last) >= WORD && e' == e + (now - last) - WORD)
  {
    SubOfLows(last, since);
    SubOfLows(now, since);
    var q := (last - since) / WORD;
    assert now - since == q * WORD + (last - since) % WORD + (now - last);
    WrapOnce((last - since) % WORD + (now - last), q);
  }

  lemma WrapOnce(x: nat, q: int)
    requires x < 2 * WORD
    ensures (q * WORD + x) % WORD == if x < WORD then x else x - WORD
  {
    ModOfMultiple(x, q);
  }

  /** A delay still running has been paid for by the time that passed. */
  lemma WaitFalls(d: nat, since: nat, last: nat, now: nat, g: nat)
    requires last <= now <= last + g && d + g < WORD
    ensures var e, e' := Elapsed(last, since), Elapsed(now, since);
      e' < d ==> Wait(d, e', g) + (now - last) <= Wait(d, e, g)
  {
    MeasureGrows(since, last, now);
  }

  predicate Falls(c: Config, s: State, last: nat, s': State, now: nat, g: nat, m: bool, r: bool) {
    Settled(c, s', m, r) || Budget(c, s', now, g, m, r) + (now - last) <= Budget(c, s, last, g, m, r)
  }

  /** With no source there, a fault must belong to a switch that is off or on its way there. */
  predicate Curable(s: State, m: bool, r: bool) { m || r || FaultMeansOff(s) }

  lemma StartFalls(c: Config, s: State, s': State, target: Source, last: nat, now: nat, g: nat, m: bool, r: bool)
    requires !s.in_progress && s.fault == NoFault && s'.active == s.active && target != s.active
    requires last <= now <= last + g
    requires 1 + IdleRank(c, target, m, r) == IdleRank(c, s.active, m, r)
    ensures Falls(c, s, last, StartTransfer(c, s', target, now), now, g, m, r)
  {
    StartIsFresh(c, s', target, now, g);
    ElapsedNeverOverstates(now, now);
  }

  lemma MainFalls(c: Config, s: State, last: nat, now: nat, g: nat)
    requires Suitable(c, g) && Roomy(c, g) && !s.in_progress && s.fault == NoFault && s.active.Main? &&
      !s.inputs.main_ok
    requires last <= now <= last + g
    ensures Falls(c, s, last, WhileIdle(c, s, now), now, g, s.inputs.main_ok, s.inputs.reserve_ok)
  {
    var (choice, s') := DecideAuto(c, s, now);
    DecisionOnlyDecides(c, s, now);
    DecisionDescends(c, s, now);
    if choice != s.active {
      StartFalls(c, s, s', choice, last, now, g, s.inputs.main_ok, s.inputs.reserve_ok);
    } else {
      TimerFalls(c.loss_delay_ms, s.main_lost_since, s'.main_lost_since, last, now, g);
    }
  }

  /** A timer that is kept waiting comes nearer to its end. */
  lemma TimerFalls(delay: uint32, since: nat, since': nat, last: nat, now: nat, g: nat)
    requires last <= now <= last + g && delay + 2 * g < WORD
    requires since' == (if IsUnset(since) then now else since) && Elapsed(now, since') < delay
    ensures TimerLeft(delay, since', now, g) + (now - last) <= TimerLeft(delay, since, last, g)
  {
    if !IsUnset(since) {
      WaitFalls(delay, since, last, now, g);
    } else {
      ElapsedNeverOverstates(now, now);
      if Low(now) == 0 && Low(last) == 0 { ElapsedNeverOverstates(last, now); }
    }
  }

  lemma ReserveFalls(c: Config, s: State, last: nat, now: nat, g: nat)
    requires Suitable(c, g) && Roomy(c, g) && !s.in_progress && s.fault == NoFault && s.active.Reserve?
    requires IdleRank(c, Reserve, s.inputs.main_ok, s.inputs.reserve_ok) > 0 && last <= now <= last + g
    ensures Falls(c, s, last, WhileIdle(c, s, now), now, g, s.inputs.main_ok, s.inputs.reserve_ok)
  {
    var (choice, s') := DecideAuto(c, s, now);
    DecisionOnlyDecides(c, s, now);
    DecisionDescends(c, s, now);
    if choice != s.active {
      StartFalls(c, s, s', choice, last, now, g, s.inputs.main_ok, s.inputs.reserve_ok);
    } else {
      TimerFalls(c.return_delay_ms, s.main_ok_since, s'.main_ok_since, last, now, g);
    }
  }

  lemma OffFalls(c: Config, s: State, last: nat, now: nat, g: nat)
    requires Suitable(c, g) && !s.in_progress && s.fault == NoFault && s.active.Off?
    requires IdleRank(c, Off, s.inputs.main_ok, s.inputs.reserve_ok) > 0 && last <= now <= last + g
    ensures Falls(c, s, last, WhileIdle(c, s, now), now, g, s.inputs.main_ok, s.inputs.reserve_ok)
  {
    var (choice, s') := DecideAuto(c, s, now);
    DecisionOnlyDecides(c, s, now);
    DecisionDescends(c, s, now);
    StartFalls(c, s, s', choice, last, now, g, s.inputs.main_ok, s.inputs.reserve_ok);
  }

  lemma IdleFalls(c: Config, s: State, last: nat, now: nat, g: nat)
    requires Suitable(c, g) && Roomy(c, g) && !s.in_progress && last <= now <= last + g
    requires Curable(s, s.inputs.main_ok, s.inputs.reserve_ok)
    ensures Falls(c, s, last, WhileIdle(c, s, now), now, g, s.inputs.main_ok, s.inputs.reserve_ok)
  {
    var m, r := s.inputs.main_ok, s.inputs.reserve_ok;
    if Settled(c, s, m, r) {
      StaysSettled(c, s, now);
    } else if s.fault != NoFault {
      BudgetBounded(c, SetFault(s, NoFault), now, g, m, r);
      ClearedBudget(c, s, now, g, m, r);
    } else {
      match s.active
      case Main => MainFalls(c, s, last, now, g);
      case Reserve => ReserveFalls(c, s, last, now, g);
      case Off => OffFalls(c, s, last, now, g);
    }
  }

  /** Without a fault an idle switch is at most its legs from settling. */
  lemma ClearedBudget(c: Config, s: State, now: nat, g: nat, m: bool, r: bool)
    requires !s.in_progress
    ensures Budget(c, SetFault(s, NoFault), now, g, m, r) <= Legs(IdleRank(c, s.active, m, r), Leg(c, g))
  {
  }

  lemma StaysSettled(c: Config, s: State, now: nat)
    requires c.auto_mode && Settled(c, s, s.inputs.main_ok, s.inputs.reserve_ok)
    ensures Settled(c, WhileIdle(c, s, now), s.inputs.main_ok, s.inputs.reserve_ok)
  {
    if s.fault == NoFault {
      DecisionOnlyDecides(c, s, now);
      DecisionDescends(c, s, now);
    }
  }

  // ----- one tick of a transfer

  /** The time a phase under way, or one just entered, still needs. */
  lemma PhaseFalls(c: Config, s: State, last: nat, now: nat, g: nat)
    requires Suitable(c, g) && (s.phase.Break? || s.phase.Warmup?) && last <= now <= last + g
    ensures var s' := Advance(c, s, now, Elapsed(now, s.step));
      TransferLeft(c, s'.phase, Elapsed(now, s'.step), g) + (now - last)
      <= TransferLeft(c, s.phase, Elapsed(last, s.step), g)
  {
    WaitFalls(if s.phase.Break? then c.break_ms else c.warmup_ms, s.step, last, now, g);
    ElapsedNeverOverstates(now, now);
  }

  lemma AdvanceFalls(c: Config, s: State, last: nat, now: nat, g: nat, m: bool, r: bool)
    requires Suitable(c, g) && s.in_progress && (s.phase.Break? || s.phase.Warmup?) && last <= now <= last + g
    requires s.start <= s.step <= last
    ensures Falls(c, s, last, Advance(c, s, now, Elapsed(now, s.step)), now, g, m, r)
  {
    PhaseFalls(c, s, last, now, g);
    if Fresh(c, s, last, g) {
      FreshInTime(c, s, last, now, g);
      FreshAdvances(c, s, last, now, g, Elapsed(now, s.step));
    } else {
      AdvanceUnderWay(c, s, now, Elapsed(now, s.step));
    }
  }

  lemma AdvanceUnderWay(c: Config, s: State, now: nat, lasted: uint32)
    requires s.in_progress && (s.phase.Break? || s.phase.Warmup?)
    ensures var s' := Advance(c, s, now, lasted); s'.in_progress && s'.target == s.target
  {
  }

  lemma ApplyFalls(c: Config, s: State, last: nat, now: nat, g: nat)
    requires Suitable(c, g) && s.in_progress && s.phase.Apply? && last <= now <= last + g
    requires Curable(s, s.inputs.main_ok, s.inputs.reserve_ok)
    ensures Falls(c, s, last, ApplyTarget(c, s, now), now, g, s.inputs.main_ok, s.inputs.reserve_ok)
  {
    ApplySwitches(c, s, now);
    BudgetBounded(c, ApplyTarget(c, s, now), now, g, s.inputs.main_ok, s.inputs.reserve_ok);
  }

  lemma TimeoutFalls(c: Config, s: State, last: nat, now: nat, g: nat, m: bool, r: bool)
    requires Suitable(c, g) && s.in_progress && !s.phase.Idle? && !Fresh(c, s, last, g) && last <= now <= last + g
    ensures Falls(c, s, last, TimedOut(c, s, now), now, g, m, r)
  {
    BudgetBounded(c, TimedOut(c, s, now), now, g, m, r);
  }

  lemma ProcessFalls(c: Config, s: State, last: nat, now: nat, g: nat)
    requires Suitable(c, g) && s.in_progress && !s.phase.Idle? && s.start <= s.step <= last <= now <= last + g
    requires Curable(s, s.inputs.main_ok, s.inputs.reserve_ok)
    ensures Falls(c, s, last, ProcessTransfer(c, s, now), now, g, s.inputs.main_ok, s.inputs.reserve_ok)
  {
    if Elapsed(now, s.start) > c.transfer_timeout_ms {
      if Fresh(c, s, last, g) {
        FreshInTime(c, s, last, now, g);
      } else {
        TimeoutFalls(c, s, last, now, g, s.inputs.main_ok, s.inputs.reserve_ok);
      }
    } else if s.phase.Apply? {
      ApplyFalls(c, s, last, now, g);
    } else {
      AdvanceFalls(c, s, last, now, g, s.inputs.main_ok, s.inputs.reserve_ok);
    }
  }

  /** Every calm tick pays for its time, or settles the switch. */
  lemma {:induction false} TickFalls(c: Config, s: State, k: Tick, last: nat, g: nat, m: bool, r: bool)
    requires Suitable(c, g) && Roomy(c, g) && Safe(c, s, last) && Curable(s, m, r)
    requires TickSees(c, s, k, last, m, r) && k.now <= last + g
    ensures Falls(c, s, last, Ticked(c, s, k), k.now, g, m, r)
  {
    var s1 := ApplySample(c, s, k.sample, k.sampled);
    EnabledFalls(c, s1, last, k.now, g);
    InputsCostNothing(c, s, s1.inputs, last, g, m, r);
  }

  lemma EnabledFalls(c: Config, s: State, last: nat, now: nat, g: nat)
    requires Suitable(c, g) && Roomy(c, g) && last <= now <= last + g && !BothAsked(s.relays)
    requires (s.in_progress ==> !s.phase.Idle? && s.start <= s.step <= last) &&
      Curable(s, s.inputs.main_ok, s.inputs.reserve_ok)
    ensures Falls(c, s, last, WhileEnabled(c, s, now), now, g, s.inputs.main_ok, s.inputs.reserve_ok)
  {
    if s.in_progress { ProcessFalls(c, s, last, now, g); } else { IdleFalls(c, s, last, now, g); }
  }

  lemma InputsCostNothing(c: Config, s: State, n: Inputs, now: nat, g: nat, m: bool, r: bool)
    ensures Budget(c, s.(inputs := n), now, g, m, r) == Budget(c, s, now, g, m, r)
  {
  }

  lemma StaysCurable(c: Config, s: State, k: Tick, last: nat, m: bool, r: bool)
    requires c.enabled && c.auto_mode && Safe(c, s, last) && Curable(s, m, r)
    requires c.feedback_main_port == INVALID_PORT && c.feedback_reserve_port == INVALID_PORT
    ensures Curable(Ticked(c, s, k), m, r)
  {
    if !m && !r {
      var s1 := ApplySample(c, s, k.sample, k.sampled);
      if s.in_progress { ProcessMoves(c, s1, k.now); } else { IdleMoves(c, s1, k.now); }
    }
  }

  // ----- runs

  function EndOfTicks(ticks: seq<Tick>, from: nat): nat {
    if ticks == [] then from else ticks[|ticks| - 1].now
  }

  lemma {:induction false} SettledForEver(c: Config, s: State, ticks: seq<Tick>, last: nat, g: nat, m: bool, r: bool)
    requires Suitable(c, g) && Calm(c, s, ticks, last, g, m, r) && Settled(c, s, m, r) && Safe(c, s, last)
    ensures Settled(c, Run(c, s, ticks), m, r)
    decreases |ticks|
  {
    if ticks == [] {
    } else {
      var k := ticks[0];
      StaysSettled(c, ApplySample(c, s, k.sample, k.sampled), k.now);
      SafeLater(c, s, last, k.sampled);
      TaskIsSafe(c, s, k.sample, k.sampled, k.now);
      SettledForEver(c, Ticked(c, s, k), ticks[1..], k.now, g, m, r);
    }
  }

  /** A calm run that outlasts the budget ends settled. */
  lemma {:induction false} SettlesInBudget(c: Config, s: State, ticks: seq<Tick>, last: nat, g: nat, m: bool, r: bool)
    requires Suitable(c, g) && Roomy(c, g) && Safe(c, s, last) && Curable(s, m, r) && Calm(c, s, ticks, last, g, m, r)
    ensures Settled(c, Run(c, s, ticks), m, r) || EndOfTicks(ticks, last) <= last + Budget(c, s, last, g, m, r)
    decreases |ticks|
  {
    if ticks == [] {
    } else {
      var k := ticks[0];
      var s' := Ticked(c, s, k);
      TickFalls(c, s, k, last, g, m, r);
      StaysCurable(c, s, k, last, m, r);
      SafeLater(c, s, last, k.sampled);
      TaskIsSafe(c, s, k.sample, k.sampled, k.now);
      if Settled(c, s', m, r) {
        SettledForEver(c, s', ticks[1..], k.now, g, m, r);
      } else {
        SettlesInBudget(c, s', ticks[1..], k.now, g, m, r);
        assert EndOfTicks(ticks, last) == EndOfTicks(ticks[1..], k.now);
      }
    }
  }

  /** From any state the switch can be in, also in the middle of a late transfer, and after a first tick however
      late: once calm ticks have gone on for longer than the worst case, the switch is idle on a source that no
      decision leaves. */
  lemma {:induction false} AlwaysSettles(c: Config, s: State, now: nat, ticks: seq<Tick>, g: nat, m: bool, r: bool)
    requires Suitable(c, g) && Roomy(c, g) && Safe(c, s, now) && Curable(s, m, r) && ticks != []
    requires TickSees(c, s, ticks[0], now, m, r)
    requires Calm(c, Ticked(c, s, ticks[0]), ticks[1..], ticks[0].now, g, m, r)
    requires EndOfTicks(ticks, now) > ticks[0].now + Worst(c, g)
    ensures Settled(c, Run(c, s, ticks), m, r)
  {
    var k := ticks[0];
    StaysCurable(c, s, k, now, m, r);
    SafeLater(c, s, now, k.sampled);
    TaskIsSafe(c, s, k.sample, k.sampled, k.now);
    SettlesInBudget(c, Ticked(c, s, k), ticks[1..], k.now, g, m, r);
    BudgetBounded(c, Ticked(c, s, k), k.now, g, m, r);
    assert EndOfTicks(ticks, now) == EndOfTicks(ticks[1..], k.now);
  }

  /** With neither source there, a faulted idle switch is left as it is. */
  lemma {:induction false} FaultFreezes(c: Config, s: State, ticks: seq<Tick>, last: nat, g: nat)
    requires Suitable(c, g) && Safe(c, s, last) && !s.in_progress && s.fault != NoFault
    requires Calm(c, s, ticks, last, g, false, false)
    ensures Run(c, s, ticks).active == s.active && Run(c, s, ticks).fault == s.fault && !Run(c, s, ticks).in_progress
    decreases |ticks|
  {
    if ticks == [] {
    } else {
      var k := ticks[0];
      SafeLater(c, s, last, k.sampled);
      TaskIsSafe(c, s, k.sample, k.sampled, k.now);
      FaultFreezes(c, Ticked(c, s, k), ticks[1..], k.now, g);
    }
  }

  /** So an idle switch settles, over calm ticks that last long enough, if and only if a source is there, or it has
      no fault, or it is off already. */
  lemma {:induction false} IdleSettlesIff(c: Config, s: State, ticks: seq<Tick>, last: nat, g: nat, m: bool, r: bool)
    requires Suitable(c, g) && Roomy(c, g) && Safe(c, s, last) && !s.in_progress && Calm(c, s, ticks, last, g, m, r)
    requires EndOfTicks(ticks, last) > last + Worst(c, g)
    ensures Settled(c, Run(c, s, ticks), m, r) <==> m || r || s.fault == NoFault || s.active.Off?
  {
    if Curable(s, m, r) {
      SettlesInBudget(c, s, ticks, last, g, m, r);
      BudgetBounded(c, s, last, g, m, r);
    } else {
      FaultFreezes(c, s, ticks, last, g);
    }
  }

  /** With neither source there: a fault, and a source that the switch is on, or is bound to get to. */
  predicate Freezing(c: Config, s: State, last: nat, g: nat) {
    s.fault != NoFault && if s.in_progress then Fresh(c, s, last, g) && !s.target.Off? else !s.active.Off?
  }

  lemma FreezingGoesOn(c: Config, s: State, k: Tick, last: nat, g: nat)
    requires Suitable(c, g) && Safe(c, s, last) && Freezing(c, s, last, g)
    requires TickSees(c, s, k, last, false, false) && k.now <= last + g
    ensures Freezing(c, Ticked(c, s, k), k.now, g)
  {
    var s1 := ApplySample(c, s, k.sample, k.sampled);
    if s.in_progress {
      FreshInTime(c, s1, last, k.now, g);
      if s1.phase.Apply? {
        ApplySwitches(c, s1, k.now);
        ApplyKeepsFault(c, s1, k.now);
      } else {
        FreshAdvances(c, s1, last, k.now, g, Elapsed(k.now, s1.step));
      }
    }
  }

  lemma ApplyKeepsFault(c: Config, s: State, now: nat)
    requires c.feedback_main_port == INVALID_PORT && c.feedback_reserve_port == INVALID_PORT
    ensures ApplyTarget(c, s, now).fault == s.fault || ApplyTarget(c, s, now).fault == Interlock
  {
  }

  lemma {:induction false} FrozenForEver(c: Config, s: State, ticks: seq<Tick>, last: nat, g: nat)
    requires Suitable(c, g) && Safe(c, s, last) && Freezing(c, s, last, g) && Calm(c, s, ticks, last, g, false, false)
    ensures !Settled(c, Run(c, s, ticks), false, false)
    decreases |ticks|
  {
    if ticks == [] {
    } else {
      var k := ticks[0];
      FreezingGoesOn(c, s, k, last, g);
      SafeLater(c, s, last, k.sampled);
      TaskIsSafe(c, s, k.sample, k.sampled, k.now);
      FrozenForEver(c, Ticked(c, s, k), ticks[1..], k.now, g);
    }
  }

  /** A switch that is idle, or in a transfer that keeps up with its ticks, settles over calm ticks that last long
      enough if and only if a source is there, or its fault, if any, goes with no source. */
  lemma {:induction false} SettlesIff(c: Config, s: State, ticks: seq<Tick>, last: nat, g: nat, m: bool, r: bool)
    requires Suitable(c, g) && Roomy(c, g) && Safe(c, s, last) && Calm(c, s, ticks, last, g, m, r)
    requires s.in_progress ==> Fresh(c, s, last, g)
    requires EndOfTicks(ticks, last) > last + Worst(c, g)
    ensures Settled(c, Run(c, s, ticks), m, r) <==> Curable(s, m, r)
  {
    if Curable(s, m, r) {
      SettlesInBudget(c, s, ticks, last, g, m, r);
      BudgetBounded(c, s, last, g, m, r);
    } else {
      FrozenForEver(c, s, ticks, last, g);
    }
  }

  /** The two results of automatic mode from power-up on, after whatever ticks and commands. */
  lemma {:induction false} AutomaticFromPowerUp(
      c0: Config, s0: State, boot: nat, run: seq<Timed>, ticks: seq<Tick>, g: nat, m: bool, r: bool)
    requires PoweredUp(c0, s0) && AvrSafety.InOrder(run, boot) && (c0.enabled || !InvertedRelay(c0))
    requires var (c, s) := After(c0, Booted(c0, s0, boot), run);
      && Suitable(c, g) && Roomy(c, g) && ticks != [] && TickSees(c, s, ticks[0], EndOf(run, boot), m, r)
      && Calm(c, Ticked(c, s, ticks[0]), ticks[1..], ticks[0].now, g, m, r)
    ensures var (c, s) := After(c0, Booted(c0, s0, boot), run);
      && ChangeCount(c, s, ticks) <= 3
      && (Curable(s, m, r) && EndOfTicks(ticks, boot) > ticks[0].now + Worst(c, g) ==>
        Settled(c, Run(c, s, ticks), m, r))
  {
    AlwaysBreaksBeforeMaking(c0, s0, boot, run);
    var (c, s) := After(c0, Booted(c0, s0, boot), run);
    var now := EndOf(run, boot);
    AtMostThreeMoreChanges(c, s, now, ticks, g, m, r);
    if Curable(s, m, r) && EndOfTicks(ticks, boot) > ticks[0].now + Worst(c, g) {
      AlwaysSettles(c, s, now, ticks, g, m, r);
    }
  }

  // ----- how a switch gets to be faulted on a source

  /** One more command at the end of a run. */
  lemma {:induction false} Prolonged(c: Config, s: State, from: nat, run: seq<Timed>, cmd: Command, now: nat)
    requires AvrSafety.InOrder(run, from) && EndOf(run, from) <= now
    requires cmd.Tick? ==> EndOf(run, from) <= cmd.sampled <= now
    ensures var run' := run + [Timed(cmd, now)];
      && AvrSafety.InOrder(run', from) && EndOf(run', from) == now
      && After(c, s, run') == Do(After(c, s, run).0, After(c, s, run).1, cmd, now)
    decreases |run|
  {
    var run' := run + [Timed(cmd, now)];
    if run == [] {
      assert run'[1..] == [];
    } else {
      var (c1, s1) := Do(c, s, run[0].cmd, run[0].now);
      assert run'[1..] == run[1..] + [Timed(cmd, now)] && run'[0] == run[0];
      assert EndOf(run, from) == EndOf(run[1..], run[0].now);
      Prolonged(c1, s1, run[0].now, run[1..], cmd, now);
    }
  }

  /** No delays, a long timeout, automatic mode. */
  const HASTY := Config(true, true, true, true, 1, 2, INVALID_PORT, INVALID_PORT, false, false, 0, 0, 0, 0, 0, 1000)

  function Sees(m: bool): Sample { Sample(Some(m), Some(false), None, None) }

  /** Main as debounced, and as last read at time `since`; the reserve has always read lost. */
  predicate MainReads(n: Inputs, stable: bool, raw: bool, since: nat) {
    && n.main_ok == stable && n.main_db == Debounce(stable, raw, since, true)
    && !n.reserve_ok && n.reserve_db.initialized && !n.reserve_db.stable && !n.reserve_db.raw
  }

  predicate Stands(s: State, active: Source, manual: Source, fault: Fault) {
    s.active == active && s.manual == manual && s.fault == fault && !BothAsked(s.relays)
  }

  predicate Goes(s: State, phase: Phase, target: Source, start: nat) {
    s.in_progress && s.phase == phase && s.target == target && s.start == start && s.step <= start + 1
  }

  predicate Rests(s: State) { !s.in_progress && s.phase.Idle? }

  /** Main comes, and the switch goes to it. */
  lemma ComesOn() returns (s: State)
    ensures s == Task(HASTY, Task(HASTY, Task(HASTY, Booted(HASTY, RAW, 1),
                                              Sees(true), 2, 2), Sees(true), 3, 3), Sees(true), 4, 4)
    ensures Stands(s, Main, Off, NoFault) && Rests(s) && MainReads(s.inputs, true, true, 2)
  {
    var s1 := Task(HASTY, Booted(HASTY, RAW, 1), Sees(true), 2, 2);
    assert Stands(s1, Off, Off, NoFault) && Goes(s1, Break, Main, 2) && MainReads(s1.inputs, true, true, 2);
    var s2 := Task(HASTY, s1, Sees(true), 3, 3);
    assert Stands(s2, Off, Off, NoFault) && Goes(s2, Phase.Apply, Main, 2) && MainReads(s2.inputs, true, true, 2);
    s := Task(HASTY, s2, Sees(true), 4, 4);
  }

  /** Main goes, there is no reserve, and a transfer to no source starts with a fault. */
  lemma LosesMain(s: State)
    requires Stands(s, Main, Off, NoFault) && Rests(s) && MainReads(s.inputs, true, true, 2)
    ensures var s' := Task(HASTY, Task(HASTY, s, Sees(false), 5, 5), Sees(false), 6, 6);
      Stands(s', Main, Off, NoSource) && Goes(s', Break, Off, 6) && MainReads(s'.inputs, false, false, 5)
  {
    var s1 := Task(HASTY, s, Sees(false), 5, 5);
    assert Stands(s1, Main, Off, NoFault) && Rests(s1) && MainReads(s1.inputs, true, false, 5);
  }

  /** Taken over by hand, it goes to the reserve, fault and all. */
  lemma TakenOver(s: State)
    requires Stands(s, Main, Off, NoSource) && Goes(s, Break, Off, 6) && MainReads(s.inputs, false, false, 5)
    ensures var c, s1 := HASTY.(auto_mode := false), SetManual(HASTY.(auto_mode := false), s, Reserve, 8);
      var s' := Task(c, Task(c, s1, Sees(false), 9, 9), Sees(false), 10, 10);
      Stands(s', Reserve, Reserve, NoSource) && Rests(s') && MainReads(s'.inputs, false, false, 5)
  {
    var c, s1 := HASTY.(auto_mode := false), SetManual(HASTY.(auto_mode := false), s, Reserve, 8);
    assert Stands(s1, Main, Reserve, NoSource) && Goes(s1, Break, Reserve, 8) && MainReads(s1.inputs, false, false, 5);
    var s2 := Task(c, s1, Sees(false), 9, 9);
    assert Stands(s2, Main, Reserve, NoSource) && Goes(s2, Phase.Apply, Reserve, 8) &&
      MainReads(s2.inputs, false, false, 5);
  }

  /** The switch and its configuration after a run from power-up. */
  function From(run: seq<Timed>): (Config, State) { After(HASTY, Booted(HASTY, RAW, 1), run) }

  ghost predicate EndsAt(run: seq<Timed>, now: nat) { AvrSafety.InOrder(run, 1) && EndOf(run, 1) == now }

  lemma Then(run: seq<Timed>, before: nat, cmd: Command, now: nat)
    requires EndsAt(run, before) && before <= now && (cmd.Tick? ==> cmd.sampled == now)
    ensures EndsAt(run + [Timed(cmd, now)], now)
    ensures From(run + [Timed(cmd, now)]) == Do(From(run).0, From(run).1, cmd, now)
  {
    Prolonged(HASTY, Booted(HASTY, RAW, 1), 1, run, cmd, now);
  }

  function SeenAt(m: bool, t: nat): Timed { Timed(Command.Tick(Sees(m), t), t) }

  lemma OnMain() returns (run: seq<Timed>)
    ensures EndsAt(run, 4) && From(run).0 == HASTY
    ensures var s := From(run).1; Stands(s, Main, Off, NoFault) && Rests(s) && MainReads(s.inputs, true, true, 2)
  {
    var _ := ComesOn();
    Then([], 1, SeenAt(true, 2).cmd, 2);
    var r1 := [] + [SeenAt(true, 2)];
    Then(r1, 2, SeenAt(true, 3).cmd, 3);
    var r2 := r1 + [SeenAt(true, 3)];
    Then(r2, 3, SeenAt(true, 4).cmd, 4);
    run := r2 + [SeenAt(true, 4)];
  }

  lemma OffMain() returns (run: seq<Timed>)
    ensures EndsAt(run, 6) && From(run).0 == HASTY
    ensures var s := From(run).1;
      Stands(s, Main, Off, NoSource) && Goes(s, Break, Off, 6) && MainReads(s.inputs, false, false, 5)
  {
    var r0 := OnMain();
    LosesMain(From(r0).1);
    Then(r0, 4, SeenAt(false, 5).cmd, 5);
    var r1 := r0 + [SeenAt(false, 5)];
    Then(r1, 5, SeenAt(false, 6).cmd, 6);
    run := r1 + [SeenAt(false, 6)];
  }

  lemma ByHand() returns (run: seq<Timed>)
    ensures EndsAt(run, 10) && From(run).0 == HASTY.(auto_mode := false)
    ensures var s := From(run).1;
      Stands(s, Reserve, Reserve, NoSource) && Rests(s) && MainReads(s.inputs, false, false, 5)
  {
    var r0 := OffMain();
    TakenOver(From(r0).1);
    Then(r0, 6, AutoMode(false), 7);
    var r1 := r0 + [Timed(AutoMode(false), 7)];
    Then(r1, 7, Manual(Reserve), 8);
    var r2 := r1 + [Timed(Manual(Reserve), 8)];
    Then(r2, 8, SeenAt(false, 9).cmd, 9);
    var r3 := r2 + [SeenAt(false, 9)];
    Then(r3, 9, SeenAt(false, 10).cmd, 10);
    run := r3 + [SeenAt(false, 10)];
  }

  /** A run from power-up that ends in automatic mode, idle on the reserve, with a fault and neither source there:
      the fault of a transfer to no source outlives a manual one. No calm run settles the switch from there. */
  lemma {:induction false} FaultOnReserve() returns (run: seq<Timed>)
    ensures PoweredUp(HASTY, RAW) && AvrSafety.InOrder(run, 1)
    ensures var (c, s) := After(HASTY, Booted(HASTY, RAW, 1), run);
      && c == HASTY && !s.in_progress && s.active == Reserve && s.fault == NoSource && !s.inputs.main_ok &&
        !s.inputs.reserve_ok
      && !Curable(s, false, false)
      && forall g: nat, ticks :: Suitable(HASTY, g) && Calm(HASTY, s, ticks, 11, g, false, false) ==>
           !Settled(HASTY, Run(HASTY, s, ticks), false, false)
  {
    var r0 := ByHand();
    Then(r0, 10, AutoMode(true), 11);
    run := r0 + [Timed(AutoMode(true), 11)];
    var s := From(run).1;
    AlwaysBreaksBeforeMaking(HASTY, RAW, 1, run);
    forall g: nat, ticks | Suitable(HASTY, g) && Calm(HASTY, s, ticks, 11, g, false, false)
      ensures !Settled(HASTY, Run(HASTY, s, ticks), false, false)
    {
      FrozenForEver(HASTY, s, ticks, 11, g);
    }
  }
}
