/** What debouncing gives the transfer switch: the inputs it decides on change only to a level that was really there,
    and follow one that stays. */
module AvrInputs {
  import opened Clock
  import opened Options
  import opened Readings
  import opened Avr
  import opened AvrSafety
  import opened AvrConvergence
  import opened AvrDelays

  // ----- one debounced input

  ghost predicate DebounceAt(c: Config, dbs: seq<Debounce>, readings: seq<Reading>, k: nat)
    requires k < |readings| && |dbs| == |readings| + 1
  {
    dbs[k + 1] == Debounced(c, dbs[k], readings[k].level, readings[k].now)
  }

  ghost predicate DebounceRun(c: Config, dbs: seq<Debounce>, readings: seq<Reading>) {
    && |dbs| == |readings| + 1 && !dbs[0].initialized && Chronological(readings)
    && forall k :: 0 <= k < |readings| ==> DebounceAt(c, dbs, readings, k)
  }

  /** The raw level is that of every successful sample since the time kept with it. */
  lemma {:induction false} RawMeans(c: Config, dbs: seq<Debounce>, readings: seq<Reading>, k: nat)
    requires DebounceRun(c, dbs, readings) && k < |readings| && dbs[k + 1].initialized
    ensures SteadySince(readings, k, dbs[k + 1].since, dbs[k + 1].raw)
  {
    assert DebounceAt(c, dbs, readings, k);
    if dbs[k].initialized && dbs[k + 1].raw == dbs[k].raw {
      assert k > 0;
      RawMeans(c, dbs, readings, k - 1);
      SteadyLonger(readings, k - 1, dbs[k].since, dbs[k].raw);
    } else {
      SteadyFromNow(readings, k, dbs[k + 1].raw);
    }
  }

  /** After the first successful sample the stable level changes only to one that every successful sample of the last
      `debounce_ms` of real time has shown, also across clock wraps. */
  lemma {:induction false} StableChangesOnlyWhenSteady(
      c: Config, dbs: seq<Debounce>, readings: seq<Reading>, k: nat) returns (j: nat)
    requires DebounceRun(c, dbs, readings) && k < |readings| && dbs[k].initialized && dbs[k + 1].stable != dbs[k].stable
    ensures j <= k && readings[j].now + c.debounce_ms <= readings[k].now
    ensures readings[j].level == Some(dbs[k + 1].stable) && Steady(readings, j, k, dbs[k + 1].stable)
  {
    assert DebounceAt(c, dbs, readings, k);
    RawMeans(c, dbs, readings, k);
    var level, since := dbs[k + 1].raw, dbs[k + 1].since;
    j :| 0 <= j <= k && readings[j].now == since && readings[j].level == Some(level) && Steady(readings, j, k, level);
    TimesOrdered(readings, j, k);
    ElapsedNeverOverstates(since, readings[k].now);
  }

  /** And it follows a level that stays: the first successful sample after `debounce_ms` takes it over. */
  lemma {:induction false} StableFollowsSteady(c: Config, db: Debounce, level: bool, now: nat)
    requires db.initialized && db.raw == level && db.since + c.debounce_ms <= now < db.since + WORD
    ensures UpdateDebounce(c, db, level, now).stable == level
  {
    ElapsedNeverOverstates(db.since, now);
  }

  /** The level is new at `i`: the successful sample there is the first, or follows one of the other level. */
  predicate NewAt(readings: seq<Reading>, i: nat, level: bool)
    requires i < |readings|
  {
    readings[i].level == Some(level) && (i == 0 || readings[i - 1].level == Some(!level))
  }

  lemma {:induction false} SinceStays(
      c: Config, dbs: seq<Debounce>, readings: seq<Reading>, i: nat, n: nat, level: bool)
    requires DebounceRun(c, dbs, readings) && i <= n < |readings| && NewAt(readings, i, level)
    requires Steady(readings, i, n, level)
    ensures dbs[n + 1].initialized && dbs[n + 1].raw == level && dbs[n + 1].since == readings[i].now
  {
    assert DebounceAt(c, dbs, readings, n);
    if n == i {
      if i > 0 {
        assert DebounceAt(c, dbs, readings, i - 1);
      }
    } else {
      assert readings[n].level == Some(level) || readings[n].level.None?;
      SinceStays(c, dbs, readings, i, n - 1, level);
    }
  }

  /** Over a run of samples, whatever their spacing, a level that all successful samples show from its change at `i` on
      is the stable one after any of them that lies `debounce_ms` after the change. */
  lemma {:induction false} StableFollowsRun(
      c: Config, dbs: seq<Debounce>, readings: seq<Reading>, i: nat, k: nat, level: bool)
    requires DebounceRun(c, dbs, readings) && i < k < |readings| && NewAt(readings, i, level)
    requires Steady(readings, i, k, level) && readings[k].level.Some?
    requires readings[i].now + c.debounce_ms <= readings[k].now < readings[i].now + WORD
    ensures dbs[k + 1].stable == level
  {
    SinceStays(c, dbs, readings, i, k - 1, level);
    assert DebounceAt(c, dbs, readings, k);
    assert readings[k].level == Some(level);
    StableFollowsSteady(c, dbs[k], level, readings[k].now);
  }

  lemma {:induction false} UninitializedTill(c: Config, dbs: seq<Debounce>, readings: seq<Reading>, k: nat)
    requires DebounceRun(c, dbs, readings) && k <= |readings| && forall j :: 0 <= j < k ==> readings[j].level.None?
    ensures !dbs[k].initialized
  {
    if k == 0 {
    } else {
      UninitializedTill(c, dbs, readings, k - 1);
      assert DebounceAt(c, dbs, readings, k - 1);
    }
  }

  /** The first successful sample is taken over at once. */
  lemma {:induction false} FirstSampleCounts(
      c: Config, dbs: seq<Debounce>, readings: seq<Reading>, k: nat, level: bool)
    requires DebounceRun(c, dbs, readings) && k < |readings| && readings[k].level == Some(level)
    requires forall j :: 0 <= j < k ==> readings[j].level.None?
    ensures dbs[k + 1].stable == level
  {
    UninitializedTill(c, dbs, readings, k);
    assert DebounceAt(c, dbs, readings, k);
  }

  // ----- the inputs of the switch

  datatype Which = MainOk | ReserveOk | MainFeedback | ReserveFeedback

  function DebounceOf(n: Inputs, which: Which): Debounce {
    match which
    case MainOk => n.main_db
    case ReserveOk => n.reserve_db
    case MainFeedback => n.fb_main_db
    case ReserveFeedback => n.fb_reserve_db
  }

  function LevelOf(n: Inputs, which: Which): bool {
    match which
    case MainOk => n.main_ok
    case ReserveOk => n.reserve_ok
    case MainFeedback => n.fb_main_on
    case ReserveFeedback => n.fb_reserve_on
  }

  function SampleOf(i: Sample, which: Which): Option<bool> {
    match which
    case MainOk => i.main_ok
    case ReserveOk => i.reserve_ok
    case MainFeedback => i.fb_main
    case ReserveFeedback => i.fb_reserve
  }

  lemma DecideSamples(c: Config, s: State, now: nat)
    ensures WhileIdle(c, s, now).inputs == s.inputs
  {
    if s.fault == NoFault && c.auto_mode { DecisionOnlyDecides(c, s, now); }
  }

  lemma ProcessSamples(c: Config, s: State, now: nat)
    ensures ProcessTransfer(c, s, now).inputs == s.inputs
  {
  }

  /** A tick changes the inputs by sampling them, and in no other way. */
  lemma TaskSamples(c: Config, s: State, i: Sample, t: nat, now: nat)
    ensures Task(c, s, i, t, now).inputs == Sampled(c, s.inputs, i, t)
  {
    var s1 := ApplySample(c, s, i, t);
    DecideSamples(c, s1, now);
    ProcessSamples(c, s1, now);
  }

  function ReadingsOf(ticks: seq<Tick>, which: Which): (r: seq<Reading>)
    ensures |r| == |ticks|
  {
    seq(|ticks|, k requires 0 <= k < |ticks| => Reading(SampleOf(ticks[k].sample, which), ticks[k].sampled))
  }

  function DebouncesOf(states: seq<State>, which: Which): (d: seq<Debounce>)
    ensures |d| == |states|
  {
    seq(|states|, k requires 0 <= k < |states| => DebounceOf(states[k].inputs, which))
  }

  ghost predicate InputsAgree(n: Inputs) { forall which :: LevelOf(n, which) == DebounceOf(n, which).stable }

  ghost predicate FreshInputs(n: Inputs) {
    InputsAgree(n) && forall which :: !DebounceOf(n, which).initialized
  }

  lemma RunDebounces(c: Config, states: seq<State>, ticks: seq<Tick>, from: nat, which: Which)
    requires IsRun(c, states, ticks) && Ordered(ticks, from) && FreshInputs(states[0].inputs)
    ensures DebounceRun(c, DebouncesOf(states, which), ReadingsOf(ticks, which))
    ensures forall k :: 0 <= k < |states| ==> InputsAgree(states[k].inputs)
  {
    var dbs, readings := DebouncesOf(states, which), ReadingsOf(ticks, which);
    forall k | 0 <= k < |ticks|
      ensures DebounceAt(c, dbs, readings, k) && InputsAgree(states[k + 1].inputs)
    {
      assert StepAt(c, states, ticks, k);
      TaskSamples(c, states[k], ticks[k].sample, ticks[k].sampled, ticks[k].now);
    }
    forall k | 0 <= k < |states| ensures InputsAgree(states[k].inputs) {
      if k > 0 { assert DebounceAt(c, dbs, readings, k - 1); }
    }
    forall k | 0 < k < |ticks| ensures Follows(readings, k) {
      assert ticks[k - 1].sampled <= ticks[k - 1].now <= ticks[k].sampled;
    }
  }

  /** `main_ok`, `reserve_ok` and the two feedbacks change, after their first successful sample, only to a level that
      every successful sample of the last `debounce_ms` has shown. */
  lemma {:induction false} InputsChangeOnlyWhenSteady(
      c: Config, states: seq<State>, ticks: seq<Tick>, from: nat, which: Which, k: nat) returns (j: nat)
    requires IsRun(c, states, ticks) && Ordered(ticks, from) && FreshInputs(states[0].inputs) && k < |ticks|
    requires LevelOf(states[k + 1].inputs, which) != LevelOf(states[k].inputs, which)
    requires exists i :: 0 <= i < k && SampleOf(ticks[i].sample, which).Some?
    ensures j <= k && ticks[j].sampled + c.debounce_ms <= ticks[k].sampled
    ensures SampleOf(ticks[j].sample, which) == Some(LevelOf(states[k + 1].inputs, which))
    ensures forall i :: j <= i <= k ==>
      SampleOf(ticks[i].sample, which).None? ||
        SampleOf(ticks[i].sample, which) == Some(LevelOf(states[k + 1].inputs, which))
  {
    var dbs, readings := DebouncesOf(states, which), ReadingsOf(ticks, which);
    RunDebounces(c, states, ticks, from, which);
    var i :| 0 <= i < k && SampleOf(ticks[i].sample, which).Some?;
    OnceInitialized(c, dbs, readings, i, k);
    assert InputsAgree(states[k].inputs) && InputsAgree(states[k + 1].inputs);
    j := StableChangesOnlyWhenSteady(c, dbs, readings, k);
    forall i | j <= i <= k
      ensures SampleOf(ticks[i].sample, which).None? || SampleOf(ticks[i].sample, which) == Some(dbs[k + 1].stable)
    {
      assert readings[i].level == SampleOf(ticks[i].sample, which);
    }
  }

  /** And they follow a level that stays: if every successful sample from the change at `i` on shows it, the input
      has it after any of them that lies `debounce_ms` after the change. */
  lemma {:induction false} InputsFollowSteady(
      c: Config, states: seq<State>, ticks: seq<Tick>, from: nat, which: Which, i: nat, k: nat, level: bool)
    requires IsRun(c, states, ticks) && Ordered(ticks, from) && FreshInputs(states[0].inputs) && i < k < |ticks|
    requires i > 0 ==> SampleOf(ticks[i - 1].sample, which) == Some(!level)
    requires SampleOf(ticks[i].sample, which) == SampleOf(ticks[k].sample, which) == Some(level)
    requires forall j :: i <= j <= k ==>
      SampleOf(ticks[j].sample, which).None? || SampleOf(ticks[j].sample, which) == Some(level)
    requires ticks[i].sampled + c.debounce_ms <= ticks[k].sampled < ticks[i].sampled + 0x1_0000_0000
    ensures LevelOf(states[k + 1].inputs, which) == level
  {
    var dbs, readings := DebouncesOf(states, which), ReadingsOf(ticks, which);
    RunDebounces(c, states, ticks, from, which);
    assert Steady(readings, i, k, level) && NewAt(readings, i, level);
    StableFollowsRun(c, dbs, readings, i, k, level);
    assert InputsAgree(states[k + 1].inputs);
  }

  lemma OnceInitialized(c: Config, dbs: seq<Debounce>, readings: seq<Reading>, i: nat, k: nat)
    requires DebounceRun(c, dbs, readings) && i < k <= |readings| && readings[i].level.Some?
    ensures dbs[k].initialized
    decreases k
  {
    assert DebounceAt(c, dbs, readings, k - 1);
    if i >= k - 1 {
    } else {
      OnceInitialized(c, dbs, readings, i, k - 1);
    }
  }
}
