/** Where the switch ends, in terms of its configuration and its inputs alone, and what it then asks of its
    contactors. */
module AvrOutcome {
  import opened Clock
  import opened Avr
  import opened AvrSafety
  import opened AvrConvergence
  import opened AvrSettling

  /** The source the switch is on, or on its way to. */
  function Heading(s: State): Source { if s.in_progress then s.target else s.active }

  // ----- automatic mode

  /** Where automatic mode ends when it starts from `from`, main being there or not (`m`), and reserve (`r`). */
  function EndSource(c: Config, from: Source, m: bool, r: bool): Source {
    if m && (from.Main? || c.auto_return_main || !r || (from.Off? && c.prefer_main)) then Main
    else if r then Reserve
    else Off
  }

  lemma DecisionKeepsEnd(c: Config, s: State, now: nat)
    ensures EndSource(c, DecideAuto(c, s, now).0, s.inputs.main_ok, s.inputs.reserve_ok)
      == EndSource(c, s.active, s.inputs.main_ok, s.inputs.reserve_ok)
  {
  }

  predicate KeepsEnd(c: Config, s: State, s': State, now: nat, g: nat, m: bool, r: bool) {
    && (s'.in_progress ==> Fresh(c, s', now, g))
    && EndSource(c, Heading(s'), m, r) == EndSource(c, Heading(s), m, r)
  }

  lemma IdleKeepsEnd(c: Config, s: State, now: nat, g: nat)
    requires Suitable(c, g) && !s.in_progress
    ensures KeepsEnd(c, s, WhileIdle(c, s, now), now, g, s.inputs.main_ok, s.inputs.reserve_ok)
  {
    if s.fault == NoFault {
      var (choice, s') := DecideAuto(c, s, now);
      DecisionOnlyDecides(c, s, now);
      DecisionKeepsEnd(c, s, now);
      if choice != s.active { StartIsFresh(c, s', choice, now, g); }
    }
  }

  lemma TransferKeepsEnd(c: Config, s: State, last: nat, now: nat, g: nat, m: bool, r: bool)
    requires Suitable(c, g) && s.in_progress && !s.phase.Idle? && s.start <= s.step <= last <= now <= last + g
    requires Fresh(c, s, last, g)
    ensures KeepsEnd(c, s, ProcessTransfer(c, s, now), now, g, m, r)
  {
    FreshInTime(c, s, last, now, g);
    if s.phase.Apply? { ApplySwitches(c, s, now); } else { FreshAdvances(c, s, last, now, g, Elapsed(now, s.step)); }
  }

  lemma TickKeepsEnd(c: Config, s: State, k: Tick, last: nat, g: nat, m: bool, r: bool)
    requires Suitable(c, g) && Safe(c, s, last) && TickSees(c, s, k, last, m, r) && k.now <= last + g
    requires s.in_progress ==> Fresh(c, s, last, g)
    ensures KeepsEnd(c, s, Ticked(c, s, k), k.now, g, m, r)
  {
    var s1 := ApplySample(c, s, k.sample, k.sampled);
    if s.in_progress { TransferKeepsEnd(c, s1, last, k.now, g, m, r); } else { IdleKeepsEnd(c, s1, k.now, g); }
  }

  lemma {:induction false} RunKeepsEnd(c: Config, s: State, ticks: seq<Tick>, last: nat, g: nat, m: bool, r: bool)
    requires Suitable(c, g) && Safe(c, s, last) && Calm(c, s, ticks, last, g, m, r)
    requires s.in_progress ==> Fresh(c, s, last, g)
    ensures EndSource(c, Heading(Run(c, s, ticks)), m, r) == EndSource(c, Heading(s), m, r)
    decreases |ticks|
  {
    if ticks == [] {
    } else {
      var k := ticks[0];
      TickKeepsEnd(c, s, k, last, g, m, r);
      SafeLater(c, s, last, k.sampled);
      TaskIsSafe(c, s, k.sample, k.sampled, k.now);
      RunKeepsEnd(c, Ticked(c, s, k), ticks[1..], k.now, g, m, r);
    }
  }

  /** The end of a calm run that lasts long enough. The switch is idle on main, if main is there and it started there,
      or returns to main, or prefers main and started from neither, or there is no reserve; else on the reserve, if
      that is there; else on neither. A transfer under way counts as started from where it goes. */
  lemma {:induction false} EndsOn(c: Config, s: State, ticks: seq<Tick>, last: nat, g: nat, m: bool, r: bool)
    requires Suitable(c, g) && Roomy(c, g) && Safe(c, s, last) && Calm(c, s, ticks, last, g, m, r)
    requires s.in_progress ==> Fresh(c, s, last, g)
    requires Curable(s, m, r) && EndOfTicks(ticks, last) > last + Worst(c, g)
    ensures var s' := Run(c, s, ticks);
      && !s'.in_progress
      && (s'.active.Main? <==>
            m && (Heading(s).Main? || c.auto_return_main || !r || (Heading(s).Off? && c.prefer_main)))
      && (s'.active.Off? <==> !m && !r)
  {
    SettlesInBudget(c, s, ticks, last, g, m, r);
    BudgetBounded(c, s, last, g, m, r);
    RunKeepsEnd(c, s, ticks, last, g, m, r);
  }

  /** From idle on neither source, with both there, the first transfer goes to main if and only if main is preferred. */
  lemma {:induction false} FirstChoice(c: Config, s: State, k: Tick, last: nat)
    requires c.enabled && c.auto_mode && TickSees(c, s, k, last, true, true) && !BothAsked(s.relays)
    requires !s.in_progress && s.active.Off? && s.fault == NoFault
    ensures var s' := Ticked(c, s, k); s'.in_progress && s'.target == if c.prefer_main then Main else Reserve
  {
  }

  // ----- manual mode

  /** Manual mode without feedback ports, and a timeout that leaves room for the slowest transfer. */
  predicate HandSuitable(c: Config, g: nat) { !c.auto_mode && Suitable(c.(auto_mode := true), g) }

  /** Ticks in order, at most `g` apart, whatever they sample. */
  predicate Paced(ticks: seq<Tick>, last: nat, g: nat)
    decreases |ticks|
  {
    ticks != [] ==>
      last <= ticks[0].sampled <= ticks[0].now <= last + g && Paced(ticks[1..], ticks[0].now, g)
  }

  /** Where manual mode ends: a fault is never cleared by a tick, and keeps new transfers from starting. */
  function HandEnd(s: State): Source { if s.fault == NoFault then s.manual else Heading(s) }

  function HandLeft(c: Config, s: State, now: nat, g: nat): nat {
    (if s.in_progress then TransferLeft(c, s.phase, Elapsed(now, s.step), g) else 0)
    + if Heading(s) == HandEnd(s) then 0 else g + Transfer(c, g)
  }

  predicate AtHandEnd(s: State) { !s.in_progress && s.active == HandEnd(s) }

  predicate HandFalls(c: Config, s: State, last: nat, s': State, now: nat, g: nat) {
    && HandEnd(s') == HandEnd(s) && (s'.in_progress ==> Fresh(c, s', now, g))
    && (AtHandEnd(s') || HandLeft(c, s', now, g) + (now - last) <= HandLeft(c, s, last, g))
    && (AtHandEnd(s) ==> AtHandEnd(s'))
  }

  lemma HandIdleFalls(c: Config, s: State, last: nat, now: nat, g: nat)
    requires HandSuitable(c, g) && !s.in_progress && last <= now <= last + g
    ensures HandFalls(c, s, last, WhileIdle(c, s, now), now, g)
  {
    if s.fault == NoFault && s.manual != s.active {
      StartIsFresh(c, s, s.manual, now, g);
      ElapsedNeverOverstates(now, now);
    }
  }

  lemma HandTransferFalls(c: Config, s: State, last: nat, now: nat, g: nat)
    requires HandSuitable(c, g) && s.in_progress && !s.phase.Idle? && s.start <= s.step <= last <= now <= last + g
    requires Fresh(c, s, last, g)
    ensures HandFalls(c, s, last, ProcessTransfer(c, s, now), now, g)
  {
    var auto := c.(auto_mode := true);
    FreshInTime(auto, s, last, now, g);
    if s.phase.Apply? {
      ApplySwitches(c, s, now);
    } else {
      FreshAdvances(c, s, last, now, g, Elapsed(now, s.step));
      PhaseFalls(auto, s, last, now, g);
    }
  }

  lemma HandTickFalls(c: Config, s: State, k: Tick, last: nat, g: nat)
    requires HandSuitable(c, g) && Safe(c, s, last) && last <= k.sampled <= k.now <= last + g
    requires s.in_progress ==> Fresh(c, s, last, g)
    ensures HandFalls(c, s, last, Ticked(c, s, k), k.now, g)
  {
    var s1 := ApplySample(c, s, k.sample, k.sampled);
    if s.in_progress { HandTransferFalls(c, s1, last, k.now, g); } else { HandIdleFalls(c, s1, last, k.now, g); }
  }

  lemma {:induction false} HandRunFalls(c: Config, s: State, ticks: seq<Tick>, last: nat, g: nat)
    requires HandSuitable(c, g) && Safe(c, s, last) && Paced(ticks, last, g)
    requires s.in_progress ==> Fresh(c, s, last, g)
    ensures var s' := Run(c, s, ticks);
      && HandEnd(s') == HandEnd(s)
      && (AtHandEnd(s) ==> AtHandEnd(s'))
      && (AtHandEnd(s') || EndOfTicks(ticks, last) <= last + HandLeft(c, s, last, g))
    decreases |ticks|
  {
    if ticks == [] {
    } else {
      var k := ticks[0];
      HandTickFalls(c, s, k, last, g);
      SafeLater(c, s, last, k.sampled);
      TaskIsSafe(c, s, k.sample, k.sampled, k.now);
      HandRunFalls(c, Ticked(c, s, k), ticks[1..], k.now, g);
      assert EndOfTicks(ticks, last) == EndOfTicks(ticks[1..], k.now);
    }
  }

  /** In manual mode the switch ends on the manual source, or, if it has a fault, stays where it is or is going. */
  lemma {:induction false} HandEndsOn(c: Config, s: State, ticks: seq<Tick>, last: nat, g: nat)
    requires HandSuitable(c, g) && Safe(c, s, last) && Paced(ticks, last, g)
    requires s.in_progress ==> Fresh(c, s, last, g)
    requires EndOfTicks(ticks, last) > last + Transfer(c, g) + g + Transfer(c, g)
    ensures var s' := Run(c, s, ticks);
      !s'.in_progress && s'.active == if s.fault == NoFault then s.manual else Heading(s)
  {
    HandRunFalls(c, s, ticks, last, g);
    if s.in_progress { TransferBounded(c, s.phase, Elapsed(last, s.step), g); }
  }

  // ----- what the contactors are asked

  /** The relay of the source the switch is on is on, and no other; none is during a transfer. */
  predicate Connected(s: State) {
    && s.relays.main_on == (!s.in_progress && s.active.Main?)
    && s.relays.reserve_on == (!s.in_progress && s.active.Reserve?)
  }

  lemma ProcessConnects(c: Config, s: State, now: nat)
    requires Connected(s) && s.in_progress && !s.phase.Idle?
    ensures Connected(ProcessTransfer(c, s, now))
  {
  }

  lemma IdleConnects(c: Config, s: State, now: nat)
    requires Connected(s) && !s.in_progress
    ensures Connected(WhileIdle(c, s, now))
  {
    if s.fault == NoFault && c.auto_mode { DecisionOnlyDecides(c, s, now); }
  }

  lemma CommandConnects(c: Config, s: State, cmd: Command, now: nat)
    requires Connected(s) && (s.in_progress ==> !s.phase.Idle?)
    ensures Connected(Do(c, s, cmd, now).1)
  {
    if cmd.Tick? && c.enabled {
      var s1 := ApplySample(c, s, cmd.sample, cmd.sampled);
      if s.in_progress { ProcessConnects(c, s1, now); } else { IdleConnects(c, s1, now); }
    }
  }

  lemma {:induction false} RunConnects(c: Config, s: State, before: nat, run: seq<Timed>)
    requires Safe(c, s, before) && InOrder(run, before) && Connected(s)
    ensures Connected(After(c, s, run).1)
    decreases |run|
  {
    if run == [] {
    } else {
      StepIsSafe(c, s, run[0].cmd, before, run[0].now);
      CommandConnects(c, s, run[0].cmd, run[0].now);
      var (c', s') := Do(c, s, run[0].cmd, run[0].now);
      RunConnects(c', s', run[0].now, run[1..]);
    }
  }

  /** From power-up, whatever ticks and commands come, the output image asks a contactor closed exactly if the switch is
      idle on its source. */
  lemma {:induction false} ContactorsFollow(c0: Config, s0: State, boot: nat, run: seq<Timed>)
    requires PoweredUp(c0, s0) && s0.active.Off? && InOrder(run, boot) && (c0.enabled || !InvertedRelay(c0))
    ensures var (c, s) := After(c0, Booted(c0, s0, boot), run);
      && (Asked(s.relays.image, c.relay_main_port, c.relay_main_invert) <==>
            c.relay_main_port != INVALID_PORT && !s.in_progress && s.active.Main?)
      && (Asked(s.relays.image, c.relay_reserve_port, c.relay_reserve_invert) <==>
            c.relay_reserve_port != INVALID_PORT && !s.in_progress && s.active.Reserve?)
  {
    BootIsOpen(c0, s0, boot);
    RunIsSafe(c0, Booted(c0, s0, boot), boot, run);
    RunConnects(c0, Booted(c0, s0, boot), boot, run);
  }

  lemma {:induction false} TicksConnect(c: Config, s: State, ticks: seq<Tick>, last: nat, g: nat, m: bool, r: bool)
    requires Suitable(c, g) && Safe(c, s, last) && Calm(c, s, ticks, last, g, m, r) && Connected(s)
    ensures Connected(Run(c, s, ticks))
    decreases |ticks|
  {
    if ticks == [] {
    } else {
      var k := ticks[0];
      SafeLater(c, s, last, k.sampled);
      TaskIsSafe(c, s, k.sample, k.sampled, k.now);
      CommandConnects(c, s, Command.Tick(k.sample, k.sampled), k.now);
      TicksConnect(c, Ticked(c, s, k), ticks[1..], k.now, g, m, r);
    }
  }

  /** From power-up: after any ticks and commands that leave the switch in automatic mode, idle or in a transfer that
      keeps up, a calm run that lasts long enough ends idle on the source that configuration and inputs call for, with
      its relay on and the other off. */
  lemma {:induction false} EndsOnFromPowerUp(
      c0: Config, s0: State, boot: nat, run: seq<Timed>, ticks: seq<Tick>, g: nat, m: bool, r: bool)
    requires PoweredUp(c0, s0) && s0.active.Off? && InOrder(run, boot) && (c0.enabled || !InvertedRelay(c0))
    requires var (c, s) := After(c0, Booted(c0, s0, boot), run);
      && Suitable(c, g) && Roomy(c, g) && Calm(c, s, ticks, EndOf(run, boot), g, m, r) && Curable(s, m, r)
      && (s.in_progress ==> Fresh(c, s, EndOf(run, boot), g))
      && EndOfTicks(ticks, EndOf(run, boot)) > EndOf(run, boot) + Worst(c, g)
    ensures var (c, s) := After(c0, Booted(c0, s0, boot), run);
      var s' := Run(c, s, ticks);
      var end := EndSource(c, Heading(s), m, r);
      s'.active == end && !s'.in_progress && s'.relays.main_on == end.Main? && s'.relays.reserve_on == end.Reserve?
  {
    var (c, s) := After(c0, Booted(c0, s0, boot), run);
    AlwaysBreaksBeforeMaking(c0, s0, boot, run);
    BootIsOpen(c0, s0, boot);
    RunConnects(c0, Booted(c0, s0, boot), boot, run);
    EndsOn(c, s, ticks, EndOf(run, boot), g, m, r);
    TicksConnect(c, s, ticks, EndOf(run, boot), g, m, r);
  }

  // ----- how a transfer ends

  lemma IdleStays(c: Config, s: State, now: nat)
    requires !s.in_progress
    ensures WhileIdle(c, s, now).active == s.active
  {
    if s.fault == NoFault && c.auto_mode { DecisionOnlyDecides(c, s, now); }
  }

  /** A source is taken over only by a transfer to it, and with a feedback port only if the feedback shows it on. */
  lemma {:induction false} TakenOverIsConfirmed(c: Config, s: State, i: Sample, t: nat, now: nat)
    requires Safe(c, s, t)
    ensures var s' := Task(c, s, i, t, now);
      s'.active != s.active && !s'.active.Off? ==>
        && s.in_progress && s.phase.Apply? && s'.active == s.target && s'.fault == s.fault
        && (s'.active.Main? ==> s'.inputs.fb_main_on || c.feedback_main_port == INVALID_PORT)
        && (s'.active.Reserve? ==> s'.inputs.fb_reserve_on || c.feedback_reserve_port == INVALID_PORT)
        && s'.switch_count == (s.switch_count + 1) % 0x1_0000_0000
  {
    var s1 := ApplySample(c, s, i, t);
    if c.enabled && !s.in_progress { IdleStays(c, s1, now); }
  }

  /** A transfer that is due to be applied ends on its target, unless its time is up, or the target's feedback port does
      not show it on; then it ends on neither source, with the fault that says why. */
  lemma {:induction false} ApplyEnds(c: Config, s: State, i: Sample, t: nat, now: nat)
    requires c.enabled && Safe(c, s, t) && s.in_progress && s.phase.Apply? && s.start <= now < s.start + WORD
    ensures var s' := Task(c, s, i, t, now);
      var unconfirmed := (s.target.Main? && c.feedback_main_port != INVALID_PORT && !s'.inputs.fb_main_on)
        || (s.target.Reserve? && c.feedback_reserve_port != INVALID_PORT && !s'.inputs.fb_reserve_on);
      && !s'.in_progress
      && if now - s.start > c.transfer_timeout_ms
         then s'.active.Off? && s'.fault == TransferTimeout && s'.target == s.target
         else
           && s'.target == s'.active
           && if unconfirmed then s'.active.Off? && s'.fault == FeedbackMismatch
              else s'.active == s.target && s'.fault == s.fault
  {
    ElapsedNeverOverstates(s.start, now);
  }

  /** A disabled controller asks both contactors open and is on neither source. */
  lemma {:induction false} DisabledIsOff(c: Config, s: State, i: Sample, t: nat, now: nat)
    requires !c.enabled
    ensures var s' := Task(c, s, i, t, now); NoneAsked(s'.relays) && s'.active.Off?
  {
  }

  /** A tick of automatic mode raises the no-source fault if and only if it starts a transfer to neither source. */
  lemma {:induction false} NoSourceRaised(c: Config, s: State, i: Sample, t: nat, now: nat)
    requires c.enabled && c.auto_mode && Safe(c, s, t) && !s.in_progress && s.fault == NoFault
    ensures var s' := Task(c, s, i, t, now);
      && (s'.fault == NoSource <==> s'.in_progress && s'.target.Off?)
      && (s'.fault == NoSource ==> !s.active.Off? && !s'.inputs.main_ok && !s'.inputs.reserve_ok)
  {
  }

  // ----- commands

  /** A manual source that is new starts a transfer to it, unless the switch is on it already, and only in manual mode;
      otherwise nothing but the manual source changes. */
  lemma {:induction false} ManualTakes(c: Config, s: State, src: Source, now: nat)
    ensures var s' := SetManual(c, s, src, now);
      && s'.manual == src && s'.active == s.active && s'.fault == s.fault
      && if !c.auto_mode && src != s.manual && src != s.active
         then s'.in_progress && s'.target == src && s'.phase.Break? && s'.start == now && NoneAsked(s'.relays)
         else s' == s.(manual := src)
  {
  }

  /** Switching the controller on or off ends a transfer, opens both contactors, and leaves it on neither source;
      switching it off clears the fault. */
  lemma {:induction false} EnableTakes(c: Config, s: State, on: bool, now: nat)
    ensures var (c', s') := Do(c, s, Enable(on), now);
      && c' == c.(enabled := on)
      && if on == c.enabled then s' == s
         else !s'.in_progress && s'.active.Off? && s'.target.Off? && NoneAsked(s'.relays) && s'.manual == s.manual
              && s'.fault == if on then s.fault else NoFault
  {
  }

  /** Switching automatic mode on forgets the manual source, and changes nothing else; nor does switching it off. */
  lemma {:induction false} AutoModeTakes(c: Config, s: State, on: bool, now: nat)
    ensures var (c', s') := Do(c, s, AutoMode(on), now);
      && c' == c.(auto_mode := on)
      && s' == s.(manual := if on && !c.auto_mode then Off else s.manual)
  {
  }

  lemma TickKeepsManual(c: Config, s: State, i: Sample, t: nat, now: nat)
    ensures Task(c, s, i, t, now).manual == s.manual
  {
    var s1 := ApplySample(c, s, i, t);
    if !s.in_progress && s.fault == NoFault && c.auto_mode { DecisionOnlyDecides(c, s1, now); }
  }

  /** So without a new manual source none is left to go to when automatic mode is switched off again, whatever ticks and
      other commands come in between. */
  lemma {:induction false} ManualForgotten(c: Config, s: State, run: seq<Timed>)
    requires s.manual.Off? && forall k :: 0 <= k < |run| ==> !run[k].cmd.Manual?
    ensures After(c, s, run).1.manual.Off?
    decreases |run|
  {
    if run == [] {
    } else {
      if run[0].cmd.Tick? { TickKeepsManual(c, s, run[0].cmd.sample, run[0].cmd.sampled, run[0].now); }
      var (c', s') := Do(c, s, run[0].cmd, run[0].now);
      ManualForgotten(c', s', run[1..]);
    }
  }

  /** On neither source the loss timer is unset, and the return timer runs exactly while main is there, since the first
      tick that found it, but for a tick at a time whose low word is zero. */
  lemma {:induction false} OffTimers(c: Config, s: State, i: Sample, t: nat, now: nat)
    requires c.enabled && c.auto_mode && Safe(c, s, t) && !s.in_progress && s.active.Off? && s.fault == NoFault
    ensures var s' := Task(c, s, i, t, now);
      && s'.main_lost_since == 0 && (!s'.inputs.main_ok ==> s'.main_ok_since == 0)
      && (s'.inputs.main_ok ==>
            s'.main_ok_since == if s.main_ok_since % 0x1_0000_0000 != 0 then s.main_ok_since else now)
  {
  }

  /** Both relays on, which no run reaches, would open both and stop the switch with the interlock fault. */
  lemma InterlockTrips(c: Config, s: State, i: Sample, t: nat, now: nat)
    requires c.enabled && BothAsked(s.relays)
    ensures var s' := Task(c, s, i, t, now);
      NoneAsked(s'.relays) && s'.active.Off? && !s'.in_progress && s'.fault == Interlock
  {
  }
}
