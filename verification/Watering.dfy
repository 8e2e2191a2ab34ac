/** The watering scheduler, rule by rule: what one pass of the control task, a manual override, and a snapshot
    with restore do to a rule.

    `finish` is the real time at which a run ends; the code stores and compares its low 32 bits. `valve` is
    the level asked of the rule's own output port, which no other rule uses. */
module Watering {
  import opened Clock
  import opened StartKey
  import opened Calendar
  import opened Options

  const RULES := 30
  const INVALID_PORT := 0xFF
  const FORCED: uint32 := 0xFFFF_FFFF

  datatype Slot = Slot(enabled: bool, hour: nat, minute: nat, duration_sec: uint32)

  /** `weekdays` are the set bits of the mask, counted from 1 for Sunday; `resume_level` is 0 low, 1 mid, 2 full. */
  datatype RuleConfig = RuleConfig(enabled: bool, port: nat, tank_id: nat, weekdays: set<nat>,
                                   slot1: Slot, slot2: Slot, slot3: Slot,
                                   resume_level: nat, resume_after_refill: bool)

  datatype RuleState = RuleState(
    status: bool, force: bool, active: bool, paused: bool, finish: nat, remaining_ms: uint32, last_start_key: uint32,
    valve: bool)

  datatype Tank = Tank(levels_ok: bool, low: bool, mid: bool, full: bool)

  datatype Event = Start | PauseEmpty | Resume | Stop | StopEmpty | StopDone

  /** What the pass did to a rule, what it announces, and whether it gave up for want of the time. */
  datatype Pass = Pass(st: RuleState, events: seq<Event>, aborted: bool)

  predicate IsTankEmpty(c: RuleConfig, tank: Option<Tank>) {
    c.tank_id != 0 &&
    (tank.None? || !tank.value.levels_ok || !(tank.value.low || tank.value.mid || tank.value.full))
  }

  predicate IsResumeLevelReached(c: RuleConfig, tank: Option<Tank>) {
    c.tank_id == 0 ||
    (tank.Some? && tank.value.levels_ok &&
     if c.resume_level == 2 then tank.value.full
     else if c.resume_level == 1 then tank.value.mid || tank.value.full
     else tank.value.low || tank.value.mid || tank.value.full)
  }

  function SlotOf(c: RuleConfig, i: nat): Slot {
    if i == 0 then c.slot1 else if i == 1 then c.slot2 else c.slot3
  }

  predicate SlotConfigured(s: Slot) {
    s.enabled && s.duration_sec > 0 && s.hour <= 23 && s.minute <= 59
  }

  predicate IsStartValid(c: RuleConfig) {
    c.weekdays != {} && (SlotConfigured(c.slot1) || SlotConfigured(c.slot2) || SlotConfigured(c.slot3))
  }

  predicate IsWeekdayAllowed(c: RuleConfig, dow: nat) {
    1 <= dow <= 7 && dow in c.weekdays
  }

  predicate SlotMatches(c: RuleConfig, i: nat, now: DateTime) {
    SlotConfigured(SlotOf(c, i)) && now.hour == SlotOf(c, i).hour && now.minute == SlotOf(c, i).minute
  }

  function MinuteOf(t: DateTime): Minute { Minute(t.year, t.month, t.day, t.hour, t.minute) }

  function WriteValve(c: RuleConfig, s: RuleState, on: bool): RuleState {
    if c.port == INVALID_PORT then s else s.(valve := on)
  }

  function StopIfActive(c: RuleConfig, s: RuleState): RuleState {
    if !s.active then s else WriteValve(c, s.(active := false, finish := 0, remaining_ms := 0), false)
  }

  /** A run whose end has not passed pauses, if the rule resumes after a refill. */
  predicate MayPause(c: RuleConfig, s: RuleState, now: nat) {
    c.resume_after_refill && NotBefore(Low(s.finish), Low(now))
  }

  function StopForEmpty(c: RuleConfig, s: RuleState, now: nat): RuleState {
    if !s.active then s else
    var s' := if MayPause(c, s, now) then s.(remaining_ms := Sub(Low(s.finish), Low(now)), paused := true)
              else s.(remaining_ms := 0, paused := false);
    WriteValve(c, s'.(active := false, finish := 0), false)
  }

  function ResumeAfterRefill(c: RuleConfig, s: RuleState, now: nat): RuleState {
    if !s.paused || s.remaining_ms == 0 then s
    else WriteValve(c, s.(paused := false, active := true, finish := now + s.remaining_ms, remaining_ms := 0), true)
  }

  /** Slots `i`.. in order: the first that matches the time and has not been started for it. */
  function StartSlot(c: RuleConfig, s: RuleState, clock: DateTime, now: nat, i: nat): (RuleState, bool)
    requires i <= SLOTS
    decreases SLOTS - i
  {
    if i == SLOTS then (s, false)
    else
      var key := MakeStartKey(MinuteOf(clock), i);
      if !SlotMatches(c, i, clock) || s.last_start_key == key then StartSlot(c, s, clock, now, i + 1)
      else (WriteValve(c, s.(last_start_key := key, active := true, paused := false, remaining_ms := 0,
                             finish := now + Low(SlotOf(c, i).duration_sec * 1000)), true), true)
  }

  function Cleared(s: RuleState): RuleState { s.(paused := false, remaining_ms := 0) }

  function StopAndClear(c: RuleConfig, s: RuleState, ev: Event): Pass {
    Pass(Cleared(StopIfActive(c, s)), if s.active then [ev] else [], false)
  }

  function PassForced(c: RuleConfig, s: RuleState, empty: bool): Pass {
    if c.port == INVALID_PORT || empty then StopAndClear(c, s.(force := false), if empty then StopEmpty else Stop)
    else
      var s' := if s.active then s else WriteValve(c, s.(active := true), true);
      Pass(s'.(paused := false, finish := 0, remaining_ms := FORCED), if s.active then [] else [Start], false)
  }

  function PassWaiting(c: RuleConfig, s: RuleState, empty: bool, clock: Option<DateTime>, now: nat): Pass {
    if !IsStartValid(c) || c.port == INVALID_PORT || empty then Pass(s, [], false)
    else if clock.None? then Pass(s, [], true)
    else if !IsWeekdayAllowed(c, clock.value.day_of_week) then Pass(s, [], false)
    else
      var (s', started) := StartSlot(c, s, clock.value, now, 0);
      Pass(s', if started then [Start] else [], false)
  }

  /** What `task` does for one enabled controller's rule. */
  function PassRule(c: RuleConfig, s: RuleState, tank: Option<Tank>, clock: Option<DateTime>, now: nat): Pass {
    var empty := IsTankEmpty(c, tank);
    if !c.enabled then StopAndClear(c, s.(force := false), Stop)
    else if s.force then PassForced(c, s, empty)
    else if !s.status then StopAndClear(c, s, Stop)
    else if empty && s.active then
      Pass(StopForEmpty(c, s, now), [if MayPause(c, s, now) then PauseEmpty else StopEmpty], false)
    else if s.paused then
      if !empty && c.resume_after_refill && IsResumeLevelReached(c, tank)
      then Pass(ResumeAfterRefill(c, s, now), [Resume], false) else Pass(s, [], false)
    else if s.active then
      if NotBefore(Low(now), Low(s.finish)) then Pass(StopIfActive(c, s), [StopDone], false) else Pass(s, [], false)
    else PassWaiting(c, s, empty, clock, now)
  }

  /** The rule comes to the point where it reads the clock. */
  predicate NeedsClock(c: RuleConfig, s: RuleState, tank: Option<Tank>) {
    && c.enabled && !s.force && s.status && !s.paused && !s.active
    && IsStartValid(c) && c.port != INVALID_PORT && !IsTankEmpty(c, tank)
  }

  // ----- manual override

  /** The start key of the first slot that matches now, so that a cancelled run is not started again. */
  function CancelKey(c: RuleConfig, key: uint32, clock: DateTime, i: nat): uint32
    requires i <= SLOTS
    decreases SLOTS - i
  {
    if i == SLOTS then key
    else if SlotMatches(c, i, clock) then MakeStartKey(MinuteOf(clock), i)
    else CancelKey(c, key, clock, i + 1)
  }

  function ForcedOn(c: RuleConfig, s: RuleState): RuleState {
    WriteValve(c, s.(force := true, active := true, paused := false, finish := 0, remaining_ms := FORCED), true)
  }

  /** `setForce` of an existing rule. */
  function SetForce(
      c: RuleConfig, s: RuleState, on: bool, tank: Option<Tank>, clock: Option<DateTime>): (RuleState, bool) {
    if !c.enabled || c.port == INVALID_PORT then (s, false)
    else if s.force == on then
      if on then (ForcedOn(c, s), true)
      else (WriteValve(c, s.(active := false, paused := false, finish := 0, remaining_ms := 0), false), true)
    else if on then
      if IsTankEmpty(c, tank) then (s, false) else (ForcedOn(c, s), true)
    else
      var key := if clock.Some? && IsWeekdayAllowed(c, clock.value.day_of_week)
                 then CancelKey(c, s.last_start_key, clock.value, 0) else s.last_start_key;
      var s' := WriteValve(c,
        s.(last_start_key := key, force := false, paused := false, finish := 0, remaining_ms := 0), false);
      (StopIfActive(c, s'), true)
  }

  // ----- snapshots

  /** A rule's share of the runtime snapshot. */
  datatype Saved = Saved(active: bool, paused: bool, remaining_ms: uint32, last_start_key: uint32)

  function BuildSaved(s: RuleState, now: nat): Saved {
    Saved(s.active, s.paused && !s.force,
          if s.force then FORCED
          else if s.active then (if NotBefore(Low(s.finish), Low(now)) then Sub(Low(s.finish), Low(now)) else 0)
          else s.remaining_ms,
          s.last_start_key)
  }

  function ApplySaved(c: RuleConfig, s: RuleState, v: Saved, now: nat): RuleState {
    var force := v.remaining_ms == FORCED;
    var s1 := s.(last_start_key := v.last_start_key, force := force, remaining_ms := v.remaining_ms, active := v.active,
                 paused := !force && v.paused);
    if !c.enabled || (!s1.status && !force) || (!force && v.remaining_ms == 0) then
      s1.(force := false, active := false, paused := false, remaining_ms := 0)
    else if force then WriteValve(c, s1.(active := true, finish := 0), true)
    else if v.active then WriteValve(c, s1.(finish := now + v.remaining_ms), true)
    else s1
  }
}
