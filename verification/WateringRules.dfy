/** What the watering scheduler does to a rule, in the terms of its settings, its tank and the calendar: when it stops,
    starts and resumes, and when no valve is open. */
module WateringRules {
  import opened Clock
  import opened Options
  import opened StartKey
  import opened Calendar
  import opened Watering
  import opened WateringRuns
  import opened WateringController

  /** The tank cannot be relied on: it is unknown, its levels cannot be read, or no sensor sees water. */
  predicate Dry(tank: Option<Tank>) {
    match tank
    case None => true
    case Some(t) => t.levels_ok ==> !t.low && !t.mid && !t.full
  }

  /** The rule's own port is asked low, or it has none. */
  predicate Shut(c: RuleConfig, s: RuleState) { c.port == 0xFF || !s.valve }

  // ----- rules that must not run

  /** A rule that is disabled, or switched off and not forced, is stopped by its next turn for good: it neither runs nor
      waits for a refill, and its valve is shut. The stop is announced exactly if it was running. */
  lemma {:induction false} StoppedByTurn(
      c: RuleConfig, s: RuleState, tank: Option<Tank>, clock: Option<DateTime>, now: nat)
    requires ValveFollows(c, s) && (!c.enabled || (!s.status && !s.force))
    ensures var p := PassRule(c, s, tank, clock, now);
      && !p.st.active && !p.st.paused && p.st.remaining_ms == 0 && !p.st.force && Shut(c, p.st)
      && (s.active ==> p.st.finish == 0)
      && !p.aborted && p.events == if s.active then [Stop] else []
  {
  }

  /** A dry tank stops every rule that draws from it, forced or not. */
  lemma {:induction false} DryTankStops(
      c: RuleConfig, s: RuleState, tank: Option<Tank>, clock: Option<DateTime>, now: nat)
    requires ValveFollows(c, s) && c.tank_id != 0 && Dry(tank)
    ensures var p := PassRule(c, s, tank, clock, now);
      && !p.st.active && !p.st.force && Shut(c, p.st) && !p.aborted
      && (s.active ==> p.st.finish == 0) && (s.force ==> p.st.remaining_ms == 0)
      && (c.enabled && s.active ==> p.events == [PauseEmpty] || p.events == [StopEmpty] || p.events == [Stop])
  {
  }

  ghost predicate AllValvesFollow(cfg: seq<RuleConfig>, st: seq<RuleState>)
    requires |cfg| == RULES && |st| == RULES
  {
    forall i :: 0 <= i < RULES ==> ValveFollows(cfg[i], st[i])
  }

  /** Rules that must not run after a pass: they are disabled, switched off, or draw from a dry tank. */
  predicate MustStop(cfg: seq<RuleConfig>, st: seq<RuleState>, o: Outside, i: nat)
    requires Fits(o) && i < RULES && |cfg| == RULES && |st| == RULES
  {
    !cfg[i].enabled || (!st[i].status && !st[i].force) || (cfg[i].tank_id != 0 && Dry(o.tanks[i]))
  }

  lemma {:induction false} LaterTurnsLeave(cfg: seq<RuleConfig>, st: seq<RuleState>, o: Outside, from: nat, i: nat)
    requires Fits(o) && |cfg| == RULES && |st| == RULES && i < from <= RULES
    ensures StatesFrom(cfg, st, o, from)[i] == st[i]
    decreases RULES - from
  {
    if from == RULES {
    } else {
      LaterTurnsLeave(cfg, st[from := PassAt(cfg, st, o, from).st], o, from + 1, i);
    }
  }

  /** The pass comes to rule `i`: it can read the clock, or no rule before needs it. */
  ghost predicate ComesTo(cfg: seq<RuleConfig>, st: seq<RuleState>, o: Outside, from: nat, i: nat)
    requires Fits(o) && |cfg| == RULES && |st| == RULES && from <= i < RULES
  {
    o.clock.Some? || forall k :: from <= k < i ==> !RuleNeedsClock(cfg, st, o, k)
  }

  lemma {:induction false} HasItsTurn(cfg: seq<RuleConfig>, st: seq<RuleState>, o: Outside, from: nat, i: nat)
    requires Fits(o) && |cfg| == RULES && |st| == RULES && from <= i < RULES && ComesTo(cfg, st, o, from, i)
    ensures StatesFrom(cfg, st, o, from)[i]
      == if PassAt(cfg, st, o, i).aborted then st[i] else PassAt(cfg, st, o, i).st
    decreases i - from
  {
    var p := PassAt(cfg, st, o, from);
    AbortsIff(cfg[from], st[from], o.tanks[from], o.clock, o.times[from]);
    if from == i {
      LaterTurnsLeave(cfg, st[i := p.st], o, i + 1, i);
    } else {
      assert p.aborted <==> o.clock.None? && RuleNeedsClock(cfg, st, o, from);
      var st' := st[from := p.st];
      forall k | from + 1 <= k < i && o.clock.None? ensures !RuleNeedsClock(cfg, st', o, k) {
        assert !RuleNeedsClock(cfg, st, o, k);
      }
      HasItsTurn(cfg, st', o, from + 1, i);
    }
  }

  /** After a pass of the task, the valve of every such rule it came to is shut. */
  lemma {:induction false} PassShuts(cfg: seq<RuleConfig>, st: seq<RuleState>, o: Outside, i: nat)
    requires Fits(o) && |cfg| == RULES && |st| == RULES && AllValvesFollow(cfg, st)
    requires i < RULES && MustStop(cfg, st, o, i) && ComesTo(cfg, st, o, 0, i)
    ensures var s := StatesFrom(cfg, st, o, 0)[i]; !s.active && Shut(cfg[i], s)
  {
    HasItsTurn(cfg, st, o, 0, i);
    assert ValveFollows(cfg[i], st[i]);
    if cfg[i].enabled && cfg[i].tank_id != 0 && Dry(o.tanks[i]) {
      DryTankStops(cfg[i], st[i], o.tanks[i], o.clock, o.times[i]);
    } else {
      StoppedByTurn(cfg[i], st[i], o.tanks[i], o.clock, o.times[i]);
    }
  }

  /** As long as a rule stays disabled its valve stays shut, from its first turn on, whatever turns, overrides and
      restores follow. */
  lemma {:induction false} DisabledStaysShut(
      c: RuleConfig, states: seq<RuleState>, story: seq<Happening>, i: nat, k: nat)
    requires !c.enabled && History(c, states, story) && i < k <= |story|
    requires story[i].Visit? && ValveFollows(c, states[i])
    ensures !states[k].active && !states[k].force && Shut(c, states[k]) && ValveFollows(c, states[k])
  {
    assert HappensAt(c, states, story, k - 1);
    if k == i + 1 {
      StoppedByTurn(c, states[i], story[i].tank, Seen(story[i].read, story[i].clock), story[i].now);
    } else {
      DisabledStaysShut(c, states, story, i, k - 1);
      match story[k - 1]
      case Visit(tank, clock, read, now) => StoppedByTurn(c, states[k - 1], tank, Seen(read, clock), now);
      case Override(_, _, _, _) =>
      case Restore(_, _, _, _) =>
    }
  }

  // ----- manual runs

  /** A forced rule waters for as long as it has a port and water, and then is no longer forced. */
  lemma {:induction false} ForcedTurn(
      c: RuleConfig, s: RuleState, tank: Option<Tank>, clock: Option<DateTime>, now: nat)
    requires ValveFollows(c, s) && c.enabled && s.force
    ensures var p := PassRule(c, s, tank, clock, now);
      var dry := c.tank_id != 0 && Dry(tank);
      && (p.st.force <==> c.port != 0xFF && !dry) && p.st.active == p.st.force && !p.st.paused
      && p.st.valve == p.st.force && !p.aborted
      && p.st.remaining_ms == (if p.st.force then 0xFFFF_FFFF else 0)
      && (p.st.force || s.active ==> p.st.finish == 0)
      && p.events == if s.active == p.st.active then [] else if p.st.active then [Start]
                     else if dry then [StopEmpty] else [Stop]
  {
  }

  /** An override is refused for a rule that is disabled or has no port, and one that would newly force a rule whose
      tank is dry; a refused one changes nothing. Otherwise the rule waters exactly if it is forced on, without end. */
  lemma {:induction false} OverrideTakes(
      c: RuleConfig, s: RuleState, on: bool, tank: Option<Tank>, clock: Option<DateTime>)
    ensures var (s', ok) := SetForce(c, s, on, tank, clock);
      && (ok <==> c.enabled && c.port != 0xFF && !(on && !s.force && c.tank_id != 0 && Dry(tank)))
      && (!ok ==> s' == s)
      && (ok ==> s'.force == on && s'.active == on && !s'.paused && s'.status == s.status)
      && (ok ==> s'.finish == 0 && s'.remaining_ms == if on then 0xFFFF_FFFF else 0)
      && (ok && ValveFollows(c, s) ==> s'.valve == on)
  {
  }

  function KeyNow(clock: DateTime, slot: nat): uint32 {
    MakeStartKey(Minute(clock.year, clock.month, clock.day, clock.hour, clock.minute), slot)
  }

  /** Ending a forced run on one of the rule's weekdays puts the first slot that calls for this minute on record, so
      that it does not start; no other override touches the record. */
  lemma {:induction false} OverrideRecords(
      c: RuleConfig, s: RuleState, on: bool, tank: Option<Tank>, clock: Option<DateTime>)
    ensures var (s', ok) := SetForce(c, s, on, tank, clock);
      if ok && s.force && !on && clock.Some? && clock.value.day_of_week in c.weekdays &&
        1 <= clock.value.day_of_week <= 7
      then s'.last_start_key ==
        if Calls(c.slot1, clock.value) then KeyNow(clock.value, 0)
        else if Calls(c.slot2, clock.value) then KeyNow(clock.value, 1)
        else if Calls(c.slot3, clock.value) then KeyNow(clock.value, 2) else s.last_start_key
      else s'.last_start_key == s.last_start_key
  {
    if clock.Some? {
      assert CancelKey(c, s.last_start_key, clock.value, 3) == s.last_start_key;
      assert forall i :: 0 <= i < 3 ==> (SlotMatches(c, i, clock.value) <==> Calls(SlotOf(c, i), clock.value));
    }
  }

  // ----- starts

  /** The slot may start at this time. */
  predicate Calls(s: Slot, clock: DateTime) {
    && s.enabled && s.duration_sec > 0
    && s.hour <= 23 && s.minute <= 59 && clock.hour == s.hour && clock.minute == s.minute
  }

  predicate CallsNow(c: RuleConfig, s: RuleState, clock: DateTime, i: nat) {
    && (i == 0 ==> Calls(c.slot1, clock)) && (i == 1 ==> Calls(c.slot2, clock)) && (i == 2 ==> Calls(c.slot3, clock))
    && s.last_start_key != KeyNow(clock, i)
  }

  lemma SlotCalls(c: RuleConfig, s: RuleState, clock: DateTime, i: nat)
    requires i < 3
    ensures CallsNow(c, s, clock, i) <==>
      SlotMatches(c, i, clock) && s.last_start_key != MakeStartKey(MinuteOf(clock), i)
  {
  }

  /** A rule starts by its schedule if and only if it is enabled, switched on, neither running, paused nor forced, has a
      port and water, today is one of its weekdays, and one of its slots calls for this minute and has not been started
      in it. Then its valve is open for the slot's time. */
  lemma {:induction false} StartsIff(
      c: RuleConfig, s: RuleState, tank: Option<Tank>, clock: DateTime, now: nat)
    requires ValveFollows(c, s)
    ensures var p := PassRule(c, s, tank, Some(clock), now);
      (!s.force && p.events == [Start]) <==>
        && c.enabled && s.status && !s.active && !s.paused && !s.force && c.port != 0xFF
        && !(c.tank_id != 0 && Dry(tank))
        && clock.day_of_week in c.weekdays && 1 <= clock.day_of_week <= 7
        && (CallsNow(c, s, clock, 0) || CallsNow(c, s, clock, 1) || CallsNow(c, s, clock, 2))
    ensures var p := PassRule(c, s, tank, Some(clock), now);
      !s.force && p.events == [Start] ==> p.st.active && p.st.valve && !p.st.paused
  {
    SlotCalls(c, s, clock, 0);
    SlotCalls(c, s, clock, 1);
    SlotCalls(c, s, clock, 2);
    if !s.force && PassRule(c, s, tank, Some(clock), now).events == [Start] {
      var slot := StartIsScheduled(c, s, tank, Some(clock), now);
      SlotCalls(c, s, clock, slot);
    } else if CallsNow(c, s, clock, 0) {
      SomeSlotStarts(c, s, clock, now, 0, 0);
    } else if CallsNow(c, s, clock, 1) {
      SomeSlotStarts(c, s, clock, now, 1, 0);
    } else if CallsNow(c, s, clock, 2) {
      SomeSlotStarts(c, s, clock, now, 2, 0);
    }
  }

  // ----- pauses

  /** The tank is filled to the rule's level: 1 for the middle sensor, 2 for the upper, else the lower. A higher sensor
      will do for a lower level. */
  predicate FilledTo(level: nat, t: Tank) {
    t.levels_ok && (t.full || (level != 2 && t.mid) || (level != 1 && level != 2 && t.low))
  }

  /** The tank lets the rule go on. */
  predicate Refilled(c: RuleConfig, tank: Option<Tank>) {
    c.resume_after_refill && (c.tank_id == 0 || (tank.Some? && FilledTo(c.resume_level, tank.value)))
  }

  /** A paused rule goes on exactly if it resumes after a refill, its tank is filled to its level, and it has time left.
      That it goes on is announced even if it has none. */
  lemma {:induction false} ResumesIff(
      c: RuleConfig, s: RuleState, tank: Option<Tank>, clock: Option<DateTime>, now: nat)
    requires c.enabled && s.status && !s.force && s.paused && !s.active
    ensures var p := PassRule(c, s, tank, clock, now);
      && (p.st.active <==> Refilled(c, tank) && s.remaining_ms != 0)
      && (if p.st.active then !p.st.paused && p.st.finish == now + s.remaining_ms else p.st == s)
      && p.events == if Refilled(c, tank) then [Resume] else []
  {
  }

  /** So a rule that was paused at the instant of its end announces a resume in every turn that finds the tank filled,
      and never resumes. */
  lemma {:induction false} StuckResumes(c: RuleConfig, s: RuleState, turns: seq<Turn>, turn: Turn)
    requires Undisturbed(c, s) && Stuck(s)
    ensures var p := PassRule(c, AfterTurns(c, s, turns), turn.tank, turn.clock, turn.now);
      p.st == s && p.events == if Refilled(c, turn.tank) then [Resume] else []
  {
    StuckForEver(c, s, turns);
    ResumesIff(c, s, turn.tank, turn.clock, turn.now);
  }

  /** Which stop is announced: a running rule that its turn leaves not running announces exactly one, a pause if it is
      to go on later, that the tank is empty if it draws from a dry one, that it is done if its time is up. */
  lemma {:induction false} StopsAreTold(
      c: RuleConfig, s: RuleState, tank: Option<Tank>, clock: Option<DateTime>, now: nat)
    requires c.enabled && s.active && !s.paused && (s.status || s.force)
    requires !s.force ==> s.finish <= now + HALF - 1 && now <= s.finish + HALF - 1
    ensures var p := PassRule(c, s, tank, clock, now);
      var dry := c.tank_id != 0 && Dry(tank);
      p.events ==
        if s.force then (if dry then [StopEmpty] else if c.port == 0xFF then [Stop] else [])
        else if dry then (if c.resume_after_refill && now <= s.finish then [PauseEmpty] else [StopEmpty])
        else if now >= s.finish then [StopDone] else []
    ensures var p := PassRule(c, s, tank, clock, now);
      && (p.st.active <==> p.events == []) && (p.st.paused <==> p.events == [PauseEmpty])
      && (!p.st.active ==> p.st.finish == 0)
      && (!p.st.active ==> p.st.remaining_ms == if p.st.paused then s.finish - now else 0)
  {
    if !s.force {
      NotBeforeIsOrder(s.finish, now);
      NotBeforeIsOrder(now, s.finish);
      SubOfLows(s.finish, now);
    }
  }

  // ----- the clock

  predicate CanCall(s: Slot) { s.enabled && s.duration_sec > 0 && s.hour <= 23 && s.minute <= 59 }

  /** A turn gives up, and with it the pass, exactly if the clock cannot be read and the rule is one that could start
      now for all it knows: enabled, switched on, neither running, paused nor forced, with a port, water, some weekday,
      and some slot that can ever call. */
  lemma {:induction false} GivesUpIff(
      c: RuleConfig, s: RuleState, tank: Option<Tank>, clock: Option<DateTime>, now: nat)
    ensures var p := PassRule(c, s, tank, clock, now);
      && (p.aborted <==>
            && clock.None? && c.enabled && s.status && !s.active && !s.paused && !s.force && c.port != 0xFF
            && !(c.tank_id != 0 && Dry(tank)) && c.weekdays != {}
            && (CanCall(c.slot1) || CanCall(c.slot2) || CanCall(c.slot3)))
      && (p.aborted ==> p.st == s && p.events == [])
  {
  }

  // ----- what a pass announces

  lemma {:induction false} EventsAre(
      cfg: seq<RuleConfig>, st: seq<RuleState>, o: Outside, from: nat, i: nat, e: Event)
    requires Fits(o) && |cfg| == RULES && |st| == RULES && from <= RULES && Completes(cfg, st, o, from)
    ensures (e, i) in EventsFrom(cfg, st, o, from) <==> from <= i < RULES && e in PassAt(cfg, st, o, i).events
    decreases RULES - from
  {
    if from == RULES {
    } else {
      var events := PassAt(cfg, st, o, from).events;
      EventsAre(cfg, st, o, from + 1, i, e);
      TaggedAre(events, from, e, i);
      assert EventsFrom(cfg, st, o, from) == Tagged(events, from) + EventsFrom(cfg, st, o, from + 1);
    }
  }

  lemma TaggedAre(events: seq<Event>, from: nat, e: Event, i: nat)
    ensures (e, i) in Tagged(events, from) <==> i == from && e in events
  {
    if e in events {
      var k :| 0 <= k < |events| && events[k] == e;
      assert Tagged(events, from)[k] == (e, from);
    }
  }

  /** A pass that can read the clock, or needs none, announces each rule's event, and no other; one that needs the clock
      and cannot read it announces nothing. */
  lemma {:induction false} AnnouncedIff(cfg: seq<RuleConfig>, st: seq<RuleState>, o: Outside, i: nat, e: Event)
    requires Fits(o) && |cfg| == RULES && |st| == RULES && i < RULES
    ensures (e, i) in Announced(cfg, st, o) <==>
      && (o.clock.Some? || forall j :: 0 <= j < RULES ==> !RuleNeedsClock(cfg, st, o, j))
      && e in PassRule(cfg[i], st[i], o.tanks[i], o.clock, o.times[i]).events
  {
    CompletesIff(cfg, st, o, 0);
    if Completes(cfg, st, o, 0) { EventsAre(cfg, st, o, 0, i, e); }
  }

  // ----- snapshots

  /** What a snapshot keeps of a rule: that it runs or is paused, its time left, without end if it is forced, and its
      last start. */
  lemma {:induction false} SavedMeans(s: RuleState, now: nat)
    requires s.active && !s.force ==> now < s.finish + HALF && s.finish < now + HALF
    ensures var v := BuildSaved(s, now);
      && v.active == s.active && v.paused == (s.paused && !s.force) && v.last_start_key == s.last_start_key
      && v.remaining_ms == if s.force then 0xFFFF_FFFF
                           else if !s.active then s.remaining_ms
                           else if now < s.finish then s.finish - now else 0
  {
    if s.active && !s.force {
      NotBeforeIsOrder(s.finish, now);
      SubOfLows(s.finish, now);
    }
  }

  /** A restored rule runs exactly if it is enabled and its share of the snapshot says so: forced, or running with time
      left and switched on. */
  lemma {:induction false} RestoredRuns(c: RuleConfig, s: RuleState, v: Saved, now: nat)
    ensures var s' := ApplySaved(c, PoweredUp(s), v, now);
      var forced := c.enabled && v.remaining_ms == 0xFFFF_FFFF;
      && s'.force == forced
      && (s'.active <==> forced || (c.enabled && s.status && v.remaining_ms != 0 && v.active))
      && (s'.active && !forced ==> s'.finish == now + v.remaining_ms)
      && (s'.paused ==> c.enabled && s.status && v.paused && s'.remaining_ms == v.remaining_ms)
      && s'.valve == (s'.active && c.port != 0xFF) && s'.last_start_key == v.last_start_key
  {
  }
}
