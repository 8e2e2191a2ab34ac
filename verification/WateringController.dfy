/** The controller object: loops over its thirty rules, each proved to do what `Watering` says of it. */
module WateringController {
  import opened Clock
  import opened Options
  import opened StartKey
  import opened Calendar
  import opened Watering

  /** What one pass finds outside the controller: the tank of each rule, the time of each rule's turn, and the
      clock, which is read at most once. */
  datatype Outside = Outside(tanks: seq<Option<Tank>>, times: seq<nat>, clock: Option<DateTime>)

  predicate Fits(o: Outside) { |o.tanks| == RULES && |o.times| == RULES }

  function PassAt(cfg: seq<RuleConfig>, st: seq<RuleState>, o: Outside, i: nat): Pass
    requires Fits(o) && i < RULES && |cfg| == RULES && |st| == RULES
  {
    PassRule(cfg[i], st[i], o.tanks[i], o.clock, o.times[i])
  }

  /** Rules `i`.. of one pass: a rule that needs the clock and cannot read it ends the pass. */
  function StatesFrom(cfg: seq<RuleConfig>, st: seq<RuleState>, o: Outside, i: nat): (r: seq<RuleState>)
    requires Fits(o) && i <= RULES && |cfg| == RULES && |st| == RULES
    ensures |r| == RULES
    decreases RULES - i
  {
    if i == RULES then st else
    var p := PassAt(cfg, st, o, i);
    if p.aborted then st else StatesFrom(cfg, st[i := p.st], o, i + 1)
  }

  function EventsFrom(cfg: seq<RuleConfig>, st: seq<RuleState>, o: Outside, i: nat): (r: seq<(Event, nat)>)
    requires Fits(o) && i <= RULES && |cfg| == RULES && |st| == RULES
    decreases RULES - i
  {
    if i == RULES then [] else
    var p := PassAt(cfg, st, o, i);
    if p.aborted then [] else Tagged(p.events, i) + EventsFrom(cfg, st, o, i + 1)
  }

  /** No rule of the pass gives up for want of the time. */
  predicate Completes(cfg: seq<RuleConfig>, st: seq<RuleState>, o: Outside, i: nat)
    requires Fits(o) && i <= RULES && |cfg| == RULES && |st| == RULES
    decreases RULES - i
  {
    i == RULES || (!PassAt(cfg, st, o, i).aborted && Completes(cfg, st, o, i + 1))
  }

  /** What a pass announces. The events wait for the end of the pass, so one that gives up loses them all. */
  function Announced(cfg: seq<RuleConfig>, st: seq<RuleState>, o: Outside): (r: seq<(Event, nat)>)
    requires Fits(o) && |cfg| == RULES && |st| == RULES
  {
    if Completes(cfg, st, o, 0) then EventsFrom(cfg, st, o, 0) else []
  }

  function Tagged(events: seq<Event>, i: nat): (r: seq<(Event, nat)>)
    ensures |r| == |events|
  {
    seq(|events|, k requires 0 <= k < |events| => (events[k], i))
  }

  /** With a working clock every rule gets its turn, on its own state alone. */
  lemma {:induction false} EveryRulePasses(cfg: seq<RuleConfig>, st: seq<RuleState>, o: Outside, i: nat, j: nat)
    requires Fits(o) && o.clock.Some? && i <= RULES && j < RULES && |cfg| == RULES && |st| == RULES
    ensures StatesFrom(cfg, st, o, i)[j] == if j < i then st[j] else PassAt(cfg, st, o, j).st
    ensures Completes(cfg, st, o, i)
    decreases RULES - i
  {
    if i == RULES {
    } else {
      var p := PassAt(cfg, st, o, i);
      AbortsIff(cfg[i], st[i], o.tanks[i], o.clock, o.times[i]);
      EveryRulePasses(cfg, st[i := p.st], o, i + 1, j);
      EventsOfRest(cfg, st, o, i, p.st, i + 1);
    }
  }

  lemma AbortsIff(c: RuleConfig, s: RuleState, tank: Option<Tank>, clock: Option<DateTime>, now: nat)
    ensures PassRule(c, s, tank, clock, now).aborted <==> clock.None? && NeedsClock(c, s, tank)
  {
  }

  predicate RuleNeedsClock(cfg: seq<RuleConfig>, st: seq<RuleState>, o: Outside, i: nat)
    requires Fits(o) && i < RULES && |cfg| == RULES && |st| == RULES
  {
    NeedsClock(cfg[i], st[i], o.tanks[i])
  }

  /** A pass completes, and announces its events, if and only if the clock can be read or no rule needs it. */
  lemma {:induction false} CompletesIff(cfg: seq<RuleConfig>, st: seq<RuleState>, o: Outside, i: nat)
    requires Fits(o) && i <= RULES && |cfg| == RULES && |st| == RULES
    ensures Completes(cfg, st, o, i) <==> o.clock.Some? || forall j :: i <= j < RULES ==> !RuleNeedsClock(cfg, st, o, j)
    decreases RULES - i
  {
    if i == RULES {
    } else {
      AbortsIff(cfg[i], st[i], o.tanks[i], o.clock, o.times[i]);
      assert PassAt(cfg, st, o, i).aborted <==> o.clock.None? && RuleNeedsClock(cfg, st, o, i);
      CompletesIff(cfg, st, o, i + 1);
    }
  }

  /** Without a clock the pass ends at the first rule that needs it: the rules before it have had their turn, valves
      and all, the others have not, and nothing is announced. */
  lemma {:induction false} PassWithoutClock(
      cfg: seq<RuleConfig>, st: seq<RuleState>, o: Outside, first: nat, i: nat, j: nat)
    requires Fits(o) && o.clock.None? && i <= first < RULES && j < RULES && |cfg| == RULES && |st| == RULES
    requires RuleNeedsClock(cfg, st, o, first) && forall k :: i <= k < first ==> !RuleNeedsClock(cfg, st, o, k)
    ensures StatesFrom(cfg, st, o, i)[j] == if i <= j < first then PassAt(cfg, st, o, j).st else st[j]
    ensures !Completes(cfg, st, o, i)
    decreases first - i
  {
    AbortsIff(cfg[i], st[i], o.tanks[i], o.clock, o.times[i]);
    assert PassAt(cfg, st, o, i).aborted <==> RuleNeedsClock(cfg, st, o, i);
    if i == first {
    } else {
      var p := PassAt(cfg, st, o, i);
      var st' := st[i := p.st];
      forall k | i + 1 <= k < first
        ensures !RuleNeedsClock(cfg, st', o, k)
      {
        assert !RuleNeedsClock(cfg, st, o, k);
      }
      assert RuleNeedsClock(cfg, st', o, first);
      PassWithoutClock(cfg, st', o, first, i + 1, j);
      EventsOfRest(cfg, st, o, i, p.st, i + 1);
    }
  }

  const NO_SLOT := Slot(false, 0, 0, 0)
  const UNUSED := RuleConfig(false, INVALID_PORT, 0, {}, NO_SLOT, NO_SLOT, NO_SLOT, 0, false)
  const SCHEDULED := UNUSED.(enabled := true, port := 1, weekdays := {1}, slot1 := Slot(true, 6, 0, 60))
  const STOPPED := RuleState(true, false, false, false, 0, 0, 0, false)

  /** Such a pass exists: the first rule has run its time and closes its valve, the second waits for its slot, the clock
      cannot be read, and the completion is never announced. */
  lemma {:induction false} CompletionLost() returns (cfg: seq<RuleConfig>, st: seq<RuleState>, o: Outside)
    ensures Fits(o) && |cfg| == RULES && |st| == RULES
    ensures st[0].valve && !StatesFrom(cfg, st, o, 0)[0].valve && PassAt(cfg, st, o, 0).events == [StopDone]
    ensures Announced(cfg, st, o) == []
  {
    cfg := seq(RULES, i => if i < 2 then SCHEDULED else UNUSED);
    st := seq(RULES, i => if i == 0 then STOPPED.(active := true, finish := 1000, valve := true) else STOPPED);
    o := Outside(seq(RULES, i => None), seq(RULES, i => 2000), None);
    NotBeforeIsOrder(2000, 1000);
    PassWithoutClock(cfg, st, o, 1, 0, 0);
  }

  /** A pass announces at most one event per rule, so the pending list of thirty never overflows. */
  lemma {:induction false} PendingFits(cfg: seq<RuleConfig>, st: seq<RuleState>, o: Outside, i: nat)
    requires Fits(o) && i <= RULES && |cfg| == RULES && |st| == RULES
    ensures |EventsFrom(cfg, st, o, i)| <= RULES - i
    decreases RULES - i
  {
    if i == RULES {
    } else {
      OneEventAtMost(cfg[i], st[i], o.tanks[i], o.clock, o.times[i]);
      PendingFits(cfg, st, o, i + 1);
    }
  }

  lemma OneEventAtMost(c: RuleConfig, s: RuleState, tank: Option<Tank>, clock: Option<DateTime>, now: nat)
    ensures |PassRule(c, s, tank, clock, now).events| <= 1
  {
  }

  lemma EventsOfRest(cfg: seq<RuleConfig>, st: seq<RuleState>, o: Outside, i: nat, s: RuleState, from: nat)
    requires Fits(o) && i < from <= RULES && |cfg| == RULES && |st| == RULES
    ensures EventsFrom(cfg, st[i := s], o, from) == EventsFrom(cfg, st, o, from)
    ensures Completes(cfg, st[i := s], o, from) == Completes(cfg, st, o, from)
    decreases RULES - from
  {
    if from == RULES {
    } else {
      EventsOfRest(cfg, st, o, i, s, from + 1);
    }
  }

  /** The pass has come to rule `i`, with these states and these events so far. */
  ghost predicate Reached(
      cfg: seq<RuleConfig>, before: seq<RuleState>, o: Outside, st: seq<RuleState>, pending: seq<(Event, nat)>,
      i: nat)
    requires Fits(o) && i <= RULES && |cfg| == RULES && |before| == RULES && |st| == RULES
  {
    && StatesFrom(cfg, before, o, 0) == StatesFrom(cfg, st, o, i)
    && EventsFrom(cfg, before, o, 0) == pending + EventsFrom(cfg, st, o, i)
    && Completes(cfg, before, o, 0) == Completes(cfg, st, o, i)
  }

  lemma TurnReaches(
      cfg: seq<RuleConfig>, before: seq<RuleState>, o: Outside, st: seq<RuleState>, pending: seq<(Event, nat)>,
      i: nat)
    requires Fits(o) && i < RULES && |cfg| == RULES && |before| == RULES && |st| == RULES
    requires Reached(cfg, before, o, st, pending, i)
    ensures var p := PassAt(cfg, st, o, i);
      if p.aborted then StatesFrom(cfg, before, o, 0) == st && !Completes(cfg, before, o, 0)
      else Reached(cfg, before, o, st[i := p.st], pending + Tagged(p.events, i), i + 1)
  {
    EventsOfRest(cfg, st, o, i, PassAt(cfg, st, o, i).st, i + 1);
  }

  class WateringController {
    const cfg: array<RuleConfig>
    const state: array<RuleState>
    var controller_enabled: bool

    constructor (cfg: array<RuleConfig>, state: array<RuleState>, enabled: bool)
      requires cfg.Length == RULES && state.Length == RULES
      ensures this.cfg == cfg && this.state == state && controller_enabled == enabled && Valid()
    {
      this.cfg, this.state, controller_enabled := cfg, state, enabled;
    }

    ghost predicate Valid()
    {
      cfg.Length == RULES && state.Length == RULES
    }

    /** `task`; the events are announced after the lock is released. */
    method Task(o: Outside) returns (announced: seq<(Event, nat)>)
      requires Valid() && Fits(o)
      modifies state
      ensures !controller_enabled ==> state[..] == old(state[..]) && announced == []
      ensures controller_enabled ==> state[..] == StatesFrom(cfg[..], old(state[..]), o, 0)
      ensures controller_enabled ==> announced == Announced(cfg[..], old(state[..]), o)
    {
      var pending := [];
      if !controller_enabled { return []; }
      ghost var before, c := state[..], cfg[..];
      var i := 0;
      while i < RULES
        invariant i <= RULES
        invariant cfg[..] == c
        invariant Reached(c, before, o, state[..], pending, i)
      {
        ghost var st := state[..];
        var events, aborted := PassRule_(i, o.tanks[i], o.clock, o.times[i]);
        TurnReaches(c, before, o, st, pending, i);
        if aborted { return []; }
        pending := pending + Tagged(events, i);
        i := i + 1;
      }
      return pending;
    }

    /** The body of the loop: one rule, updated in place. */
    method PassRule_(
        i: nat, tank: Option<Tank>, clock: Option<DateTime>, now: nat) returns (events: seq<Event>, aborted: bool)
      requires Valid() && i < RULES
      modifies state
      ensures var p := PassRule(cfg[i], old(state[i]), tank, clock, now);
        aborted == p.aborted && (!aborted ==> events == p.events && state[..] == old(state[..])[i := p.st])
      ensures aborted ==> state[..] == old(state[..])
    {
      events, aborted := [], false;
      var c := cfg[i];
      if !c.enabled {
        var was_active := state[i].active;
        state[i] := state[i].(force := false);
        StopIfActive_(i);
        if was_active { events := [Stop]; }
        state[i] := state[i].(paused := false, remaining_ms := 0);
        return;
      }
      var tank_empty := IsTankEmpty(c, tank);
      if state[i].force {
        if c.port == INVALID_PORT || tank_empty {
          state[i] := state[i].(force := false);
          var was_active := state[i].active;
          StopIfActive_(i);
          if was_active { events := [if tank_empty then StopEmpty else Stop]; }
          state[i] := state[i].(paused := false, remaining_ms := 0);
          return;
        }
        if !state[i].active {
          state[i] := WriteValve(c, state[i].(active := true), true);
          events := [Start];
        }
        state[i] := state[i].(paused := false, finish := 0, remaining_ms := FORCED);
        return;
      }
      if !state[i].status {
        var was_active := state[i].active;
        StopIfActive_(i);
        if was_active { events := [Stop]; }
        state[i] := state[i].(paused := false, remaining_ms := 0);
        return;
      }
      if tank_empty && state[i].active {
        var ev := if c.resume_after_refill && NotBefore(Low(state[i].finish), Low(now)) then PauseEmpty else StopEmpty;
        StopForEmpty_(i, now);
        events := [ev];
        return;
      }
      if state[i].paused {
        if !tank_empty && c.resume_after_refill && IsResumeLevelReached(c, tank) {
          ResumeAfterRefill_(i, now);
          events := [Resume];
        }
        return;
      }
      if state[i].active {
        if NotBefore(Low(now), Low(state[i].finish)) {
          StopIfActive_(i);
          events := [StopDone];
        }
        return;
      }
      if !IsStartValid(c) || c.port == INVALID_PORT { return; }
      if tank_empty { return; }
      if clock.None? { aborted := true; return; }
      if !IsWeekdayAllowed(c, clock.value.day_of_week) { return; }
      var started := StartSlot_(i, clock.value, now);
      if started { events := [Start]; }
    }

    /** The slot loop. */
    method StartSlot_(i: nat, clock: DateTime, now: nat) returns (started: bool)
      requires Valid() && i < RULES
      modifies state
      ensures var r := StartSlot(cfg[i], old(state[i]), clock, now, 0);
        state[..] == old(state[..])[i := r.0] && started == r.1
    {
      var c := cfg[i];
      var slot := 0;
      while slot < SLOTS
        invariant slot <= SLOTS && state[..] == old(state[..])
        invariant StartSlot(c, state[i], clock, now, 0) == StartSlot(c, state[i], clock, now, slot)
      {
        if SlotMatches(c, slot, clock) {
          var key := MakeStartKey(MinuteOf(clock), slot);
          if state[i].last_start_key != key {
            var s := state[i].(last_start_key := key, active := true, paused := false, remaining_ms := 0);
            s := s.(finish := now + Low(SlotOf(c, slot).duration_sec * 1000));
            state[i] := WriteValve(c, s, true);
            return true;
          }
        }
        slot := slot + 1;
      }
      return false;
    }

    method StopIfActive_(i: nat)
      requires Valid() && i < RULES
      modifies state
      ensures state[..] == old(state[..])[i := StopIfActive(cfg[i], old(state[i]))]
    {
      if !state[i].active { return; }
      var s := state[i].(active := false);
      s := s.(finish := 0);
      s := s.(remaining_ms := 0);
      state[i] := WriteValve(cfg[i], s, false);
    }

    method StopForEmpty_(i: nat, now: nat)
      requires Valid() && i < RULES
      modifies state
      ensures state[..] == old(state[..])[i := StopForEmpty(cfg[i], old(state[i]), now)]
    {
      var s := state[i];
      if !s.active { return; }
      if cfg[i].resume_after_refill && NotBefore(Low(s.finish), Low(now)) {
        s := s.(remaining_ms := Sub(Low(s.finish), Low(now)));
        s := s.(paused := true);
      } else {
        s := s.(remaining_ms := 0);
        s := s.(paused := false);
      }
      s := s.(active := false);
      s := s.(finish := 0);
      state[i] := WriteValve(cfg[i], s, false);
    }

    method ResumeAfterRefill_(i: nat, now: nat)
      requires Valid() && i < RULES
      modifies state
      ensures state[..] == old(state[..])[i := ResumeAfterRefill(cfg[i], old(state[i]), now)]
    {
      var s := state[i];
      if !s.paused || s.remaining_ms == 0 { return; }
      s := s.(paused := false, active := true);
      s := s.(finish := now + s.remaining_ms);
      s := s.(remaining_ms := 0);
      state[i] := WriteValve(cfg[i], s, true);
    }

    /** `setForce` for the rule at index `i`. */
    method SetForce_(i: nat, on: bool, tank: Option<Tank>, clock: Option<DateTime>) returns (ok: bool)
      requires Valid() && i < RULES
      modifies state
      ensures var r := SetForce(cfg[i], old(state[i]), on, tank, clock);
        state[..] == old(state[..])[i := r.0] && ok == r.1
    {
      var c, s := cfg[i], state[i];
      if !c.enabled { return false; }
      if c.port == INVALID_PORT { return false; }
      if s.force == on {
        if on {
          s := s.(active := true, paused := false, finish := 0, remaining_ms := FORCED);
          state[i] := WriteValve(c, s, true);
        } else {
          s := s.(active := false, paused := false, finish := 0, remaining_ms := 0);
          state[i] := WriteValve(c, s, false);
        }
        return true;
      }
      if on {
        if IsTankEmpty(c, tank) { return false; }
        s := s.(force := true, active := true, paused := false, finish := 0, remaining_ms := FORCED);
        state[i] := WriteValve(c, s, true);
        return true;
      }
      if clock.Some? && IsWeekdayAllowed(c, clock.value.day_of_week) {
        var key := CancelKey_(c, s.last_start_key, clock.value);
        s := s.(last_start_key := key);
      }
      s := s.(force := false, paused := false, finish := 0, remaining_ms := 0);
      state[i] := WriteValve(c, s, false);
      StopIfActive_(i);
      return true;
    }

    method CancelKey_(c: RuleConfig, key: uint32, clock: DateTime) returns (r: uint32)
      ensures r == CancelKey(c, key, clock, 0)
    {
      var slot := 0;
      while slot < SLOTS
        invariant slot <= SLOTS && CancelKey(c, key, clock, 0) == CancelKey(c, key, clock, slot)
      {
        if SlotMatches(c, slot, clock) { return MakeStartKey(MinuteOf(clock), slot); }
        slot := slot + 1;
      }
      return key;
    }

    method BuildRuntimeSnapshot(now: nat) returns (snap: seq<Saved>)
      requires Valid()
      ensures |snap| == RULES && forall i :: 0 <= i < RULES ==> snap[i] == BuildSaved(state[i], now)
    {
      snap := [];
      for i := 0 to RULES
        invariant |snap| == i && forall j :: 0 <= j < i ==> snap[j] == BuildSaved(state[j], now)
      {
        var s := state[i];
        var left := s.remaining_ms;
        if s.force {
          left := FORCED;
        } else if s.active {
          left := if NotBefore(Low(s.finish), Low(now)) then Sub(Low(s.finish), Low(now)) else 0;
        }
        snap := snap + [Saved(s.active, s.paused && !s.force, left, s.last_start_key)];
      }
    }

    method ApplyRuntimeSnapshot(snap: seq<Saved>, now: nat)
      requires Valid() && |snap| == RULES
      modifies state
      ensures forall i :: 0 <= i < RULES ==> state[i] == ApplySaved(cfg[i], old(state[i]), snap[i], now)
    {
      var i := 0;
      while i < RULES
        invariant i <= RULES
        invariant forall j :: 0 <= j < i ==> state[j] == ApplySaved(cfg[j], old(state[j]), snap[j], now)
        invariant forall j :: i <= j < RULES ==> state[j] == old(state[j])
      {
        var c, s, v := cfg[i], state[i], snap[i];
        s := s.(last_start_key := v.last_start_key, force := v.remaining_ms == FORCED);
        s := s.(remaining_ms := if s.force then FORCED else v.remaining_ms, active := v.active);
        s := s.(paused := if s.force then false else v.paused);
        if !c.enabled || (!s.status && !s.force) || (!s.force && s.remaining_ms == 0) {
          s := s.(force := false, active := false, paused := false, remaining_ms := 0);
        } else if s.force {
          s := s.(active := true, finish := 0);
          s := WriteValve(c, s, true);
        } else if s.active {
          s := s.(finish := now + s.remaining_ms);
          s := WriteValve(c, s, true);
        }
        state[i] := s;
        i := i + 1;
      }
    }
  }
}
