/** Automatic mode settles: with constant debounced inputs and ticks that come often enough, the switch
    changes its source at most three more times, from any reachable state. */
module AvrConvergence {
  import opened Clock
  import opened Avr
  import opened AvrSafety

  datatype Tick = Tick(sample: Sample, sampled: nat, now: nat)

  function Run(c: Config, s: State, ticks: seq<Tick>): State
    decreases |ticks|
  {
    if ticks == [] then s else Run(c, Ticked(c, s, ticks[0]), ticks[1..])
  }

  function Ticked(c: Config, s: State, k: Tick): State { Task(c, s, k.sample, k.sampled, k.now) }

  /** Automatic mode without feedback ports, and a timeout that leaves room for the slowest transfer. */
  predicate Suitable(c: Config, g: nat) {
    && c.enabled && c.auto_mode
    && c.feedback_main_port == INVALID_PORT && c.feedback_reserve_port == INVALID_PORT
    && c.transfer_timeout_ms >= c.break_ms + c.warmup_ms + 3 * g
  }

  /** A tick in order whose debounced inputs come out as `m` and `r`. */
  predicate TickSees(c: Config, s: State, k: Tick, last: nat, m: bool, r: bool) {
    var s1 := ApplySample(c, s, k.sample, k.sampled);
    last <= k.sampled <= k.now && s1.inputs.main_ok == m && s1.inputs.reserve_ok == r
  }

  /** Ticks in order, at most `g` apart, whose debounced inputs stay `m` and `r`. */
  predicate Calm(c: Config, s: State, ticks: seq<Tick>, last: nat, g: nat, m: bool, r: bool)
    decreases |ticks|
  {
    ticks != [] ==>
      && TickSees(c, s, ticks[0], last, m, r) && ticks[0].now <= last + g
      && Calm(c, Ticked(c, s, ticks[0]), ticks[1..], ticks[0].now, g, m, r)
  }

  predicate Changes(s: State, s': State) {
    s.active != s'.active || s.switch_count != s'.switch_count
  }

  /** How many ticks complete a transfer or change the active source. */
  function ChangeCount(c: Config, s: State, ticks: seq<Tick>): nat
    decreases |ticks|
  {
    if ticks == [] then 0
    else (if Changes(s, Ticked(c, s, ticks[0])) then 1 else 0) + ChangeCount(c, Ticked(c, s, ticks[0]), ticks[1..])
  }

  // ----- the rank

  /** How many changes are still to come once the switch is idle on `active`. */
  function IdleRank(c: Config, active: Source, m: bool, r: bool): (n: nat)
    ensures n <= 2
  {
    match active
    case Main => if m then 0 else 1
    case Reserve => if (c.auto_return_main && m) || !r then 1 else 0
    case Off =>
      if m && (c.prefer_main || !r) then 1
      else if r then 1 + if c.auto_return_main && m then 1 else 0
      else 0
  }

  /** A transfer that keeps up: with the next tick no later than `last + g`, it cannot time out. */
  predicate Fresh(c: Config, s: State, last: nat, g: nat) {
    match s.phase
    case Break => s.step <= s.start && last <= s.step + c.break_ms
    case Warmup => s.step <= s.start + c.break_ms + g && last <= s.step + c.warmup_ms
    case Apply => s.step <= s.start + c.break_ms + c.warmup_ms + 2 * g && last <= s.step
    case Idle => false
  }

  /** A transfer that may still time out counts as three. */
  function Rank(c: Config, s: State, last: nat, g: nat, m: bool, r: bool): (n: nat)
    ensures n <= 3
  {
    if !s.in_progress then IdleRank(c, s.active, m, r)
    else if Fresh(c, s, last, g) then 1 + IdleRank(c, s.target, m, r)
    else 3
  }

  lemma {:induction false} DecisionDescends(c: Config, s: State, now: nat)
    ensures var choice := DecideAuto(c, s, now).0;
      choice != s.active ==>
        1 + IdleRank(c, choice, s.inputs.main_ok, s.inputs.reserve_ok)
        == IdleRank(c, s.active, s.inputs.main_ok, s.inputs.reserve_ok)
  {
  }

  /** A fresh transfer does not time out. */
  lemma FreshInTime(c: Config, s: State, last: nat, now: nat, g: nat)
    requires Suitable(c, g) && Fresh(c, s, last, g) && s.start <= s.step <= last <= now <= last + g
    ensures Elapsed(now, s.start) <= c.transfer_timeout_ms
    ensures Elapsed(now, s.step) == now - s.step
  {
    ElapsedNeverOverstates(s.start, now);
    ElapsedNeverOverstates(s.step, now);
  }

  /** A phase that is entered in time is entered fresh. */
  lemma EntersFresh(c: Config, s: State, phase: Phase, last: nat, now: nat, g: nat)
    requires Fresh(c, s, last, g) && s.step <= last <= now <= last + g
    requires (s.phase.Break? && (phase.Warmup? || phase.Apply?)) || (s.phase.Warmup? && phase.Apply?)
    ensures var s' := s.(phase := phase, step := now); Fresh(c, s', now, g) && !Changes(s, s')
  {
  }

  lemma FreshAdvances(c: Config, s: State, last: nat, now: nat, g: nat, lasted: uint32)
    requires Fresh(c, s, last, g) && s.step <= last <= now <= last + g && lasted == now - s.step
    requires s.phase.Break? || s.phase.Warmup?
    requires s.in_progress
    ensures var s' := Advance(c, s, now, lasted);
      s'.in_progress && Fresh(c, s', now, g) && !Changes(s, s') && s'.target == s.target
  {
    var delay := if s.phase.Break? then c.break_ms else c.warmup_ms;
    if lasted >= delay {
      EntersFresh(c, s, if s.phase.Break? && s.target.Reserve? && c.warmup_ms > 0 then Warmup else Apply, last, now, g);
    }
  }

  lemma ApplySwitches(c: Config, s: State, now: nat)
    requires c.feedback_main_port == INVALID_PORT && c.feedback_reserve_port == INVALID_PORT
    ensures var s' := ApplyTarget(c, s, now); !s'.in_progress && s'.active == s.target
  {
  }

  /** One tick of a transfer under way. */
  lemma TransferDescends(c: Config, s: State, last: nat, now: nat, g: nat, m: bool, r: bool)
    requires Suitable(c, g) && s.in_progress && !s.phase.Idle? && s.start <= s.step <= last <= now
    requires Fresh(c, s, last, g) ==> now <= last + g
    ensures Descends(c, s, last, ProcessTransfer(c, s, now), now, g, m, r)
  {
    if Fresh(c, s, last, g) {
      FreshInTime(c, s, last, now, g);
      if s.phase.Apply? { ApplySwitches(c, s, now); } else { FreshAdvances(c, s, last, now, g, Elapsed(now, s.step)); }
    } else {
      StaleEnds(c, s, now);
    }
  }

  lemma StaleEnds(c: Config, s: State, now: nat)
    requires c.feedback_main_port == INVALID_PORT && c.feedback_reserve_port == INVALID_PORT
    requires s.in_progress && !s.phase.Idle?
    ensures var s' := ProcessTransfer(c, s, now); s'.in_progress ==> !Changes(s, s')
  {
    if s.phase.Apply? { ApplySwitches(c, s, now); } else { AdvanceWaits(c, s, now, Elapsed(now, s.step)); }
  }

  lemma AdvanceWaits(c: Config, s: State, now: nat, lasted: uint32)
    requires s.phase.Break? || s.phase.Warmup?
    ensures !Changes(s, Advance(c, s, now, lasted))
  {
  }

  predicate Descends(c: Config, s: State, last: nat, s': State, now: nat, g: nat, m: bool, r: bool) {
    Rank(c, s', now, g, m, r) + (if Changes(s, s') then 1 else 0) <= Rank(c, s, last, g, m, r)
  }

  lemma IdleDescends(c: Config, s: State, last: nat, now: nat, g: nat)
    requires Suitable(c, g) && !s.in_progress
    ensures Descends(c, s, last, WhileIdle(c, s, now), now, g, s.inputs.main_ok, s.inputs.reserve_ok)
  {
    if s.fault == NoFault {
      var (choice, s') := DecideAuto(c, s, now);
      DecisionOnlyDecides(c, s, now);
      DecisionDescends(c, s, now);
      if choice != s.active { StartIsFresh(c, s', choice, now, g); }
    }
  }

  lemma StartIsFresh(c: Config, s: State, target: Source, now: nat, g: nat)
    requires target != s.active
    ensures var s' := StartTransfer(c, s, target, now);
      s'.in_progress && Fresh(c, s', now, g) && s'.target == target && !Changes(s, s')
  {
  }

  /** No tick raises the rank, and a tick that changes the source lowers it. The first tick of a run may
      come arbitrarily late. */
  lemma {:induction false} TickDescends(c: Config, s: State, k: Tick, last: nat, g: nat, m: bool, r: bool)
    requires Suitable(c, g) && Safe(c, s, last) && TickSees(c, s, k, last, m, r)
    requires s.in_progress && Fresh(c, s, last, g) ==> k.now <= last + g
    ensures Descends(c, s, last, Ticked(c, s, k), k.now, g, m, r)
  {
    var s1 := ApplySample(c, s, k.sample, k.sampled);
    if s.in_progress {
      TransferDescends(c, s1, last, k.now, g, m, r);
    } else {
      IdleDescends(c, s1, last, k.now, g);
    }
  }

  lemma {:induction false} CalmRunSettles(c: Config, s: State, ticks: seq<Tick>, last: nat, g: nat, m: bool, r: bool)
    requires Suitable(c, g) && Safe(c, s, last) && Calm(c, s, ticks, last, g, m, r)
    ensures ChangeCount(c, s, ticks) <= Rank(c, s, last, g, m, r)
    decreases |ticks|
  {
    if ticks == [] {
    } else {
      var k := ticks[0];
      TickDescends(c, s, k, last, g, m, r);
      SafeLater(c, s, last, k.sampled);
      TaskIsSafe(c, s, k.sample, k.sampled, k.now);
      CalmRunSettles(c, Ticked(c, s, k), ticks[1..], k.now, g, m, r);
    }
  }

  /** From any reachable state, also one caught in the middle of a late transfer, any run of calm ticks
      completes at most three more transfers or source changes, however long it is. */
  lemma {:induction false} AtMostThreeMoreChanges(
      c: Config, s: State, now: nat, ticks: seq<Tick>, g: nat, m: bool, r: bool)
    requires Suitable(c, g) && Safe(c, s, now) && ticks != []
    requires TickSees(c, s, ticks[0], now, m, r)
    requires Calm(c, Ticked(c, s, ticks[0]), ticks[1..], ticks[0].now, g, m, r)
    ensures ChangeCount(c, s, ticks) <= 3
  {
    var k := ticks[0];
    SafeLater(c, s, now, k.sampled);
    TaskIsSafe(c, s, k.sample, k.sampled, k.now);
    CalmRunSettles(c, Ticked(c, s, k), ticks[1..], k.now, g, m, r);
    FirstTick(c, s, k, now, g, m, r);
  }

  lemma FirstTick(c: Config, s: State, k: Tick, last: nat, g: nat, m: bool, r: bool)
    requires Suitable(c, g) && Safe(c, s, last) && TickSees(c, s, k, last, m, r)
    ensures var s' := Ticked(c, s, k);
      Rank(c, s', k.now, g, m, r) + (if Changes(s, s') then 1 else 0) <= 3
  {
    var s1 := ApplySample(c, s, k.sample, k.sampled);
    if s.in_progress {
      StaleEnds(c, s1, k.now);
    } else {
      IdleDescends(c, s1, last, k.now, g);
    }
  }
}
