/** Watering time is conserved over every history of pauses, resumes and reboots, and a slot starts at most once
    a minute. */
module WateringRuns {
  import opened Clock
  import opened Options
  import opened StartKey
  import opened Calendar
  import opened Watering

  // ----- one run of a rule

  /** The latest runtime snapshot of the rule, with the accounts of the time it was taken. */
  datatype Kept = Kept(snap: Saved, on: nat, again: nat)

  /** A rule after its last pass, at `now`, its valve having been asked open for `on` milliseconds in this run,
      `again` of them being the part that power cuts made it repeat. `seen` is the time of the latest snapshot, if
      that is later. */
  datatype World = World(st: RuleState, now: nat, on: nat, again: nat, kept: Kept, seen: nat)

  /** What can happen while a run is under way: a pass of the task, a snapshot, or a power cut, after which the latest
      snapshot is restored and the clock starts anew. */
  datatype Step =
    | Tick(tank: Option<Tank>, clock: Option<DateTime>, now: nat)
    | Snapshot(at: nat)
    | Reboot(cut: nat, now: nat)

  function OnUntil(w: World, t: nat): nat
    requires w.now <= t
  {
    w.on + if w.st.active then t - w.now else 0
  }

  /** After a reboot a rule has its saved status and nothing else. */
  function PoweredUp(s: RuleState): RuleState {
    RuleState(s.status, false, false, false, 0, 0, 0, false)
  }

  predicate StepOk(w: World, step: Step, gap: nat) {
    w.now <= w.seen <= TimeOf(step) <= w.now + gap && w.kept.on <= OnUntil(w, w.seen)
  }

  function TimeOf(step: Step): nat {
    match step
    case Tick(_, _, now) => now
    case Snapshot(at) => at
    case Reboot(cut, _) => cut
  }

  function Next(c: RuleConfig, w: World, step: Step, gap: nat): World
    requires StepOk(w, step, gap)
  {
    match step
    case Tick(tank, clock, now) =>
      w.(st := PassRule(c, w.st, tank, clock, now).st, now := now, on := OnUntil(w, now), seen := now)
    case Snapshot(at) => w.(kept := Kept(BuildSaved(w.st, at), OnUntil(w, at), w.again), seen := at)
    case Reboot(cut, now) =>
      World(ApplySaved(c, PoweredUp(w.st), w.kept.snap, now), now, OnUntil(w, cut),
            w.kept.again + OnUntil(w, cut) - w.kept.on, w.kept, now)
  }

  /** A rule that is left to run: enabled, monitored, resuming after a refill. */
  predicate Undisturbed(c: RuleConfig, s: RuleState) {
    c.enabled && c.resume_after_refill && s.status && !s.force
  }

  predicate InRun(s: RuleState) { s.active || s.paused }

  /** The time a run still has to go. */
  function Left(w: World): int {
    if w.st.active then w.st.finish - w.now else w.st.remaining_ms
  }

  /** On-time so far and time left make up the slot's duration and what had to be repeated. */
  predicate Conserved(w: World, duration: nat) {
    && InRun(w.st) && !(w.st.active && w.st.paused)
    && w.on + Left(w) == duration + w.again && 0 <= Left(w) <= duration
    && (w.st.active ==> w.now < w.st.finish)
  }

  /** The same of the latest snapshot; one taken after the end of the run has no time left. */
  predicate KeptOk(w: World, duration: nat, gap: nat) {
    var k := w.kept;
    && w.now <= w.seen && k.on <= OnUntil(w, w.seen) && k.again <= k.on
    && k.snap.remaining_ms < HALF
    && (if k.snap.remaining_ms == 0 then duration + k.again <= k.on <= duration + k.again + gap
        else k.on + k.snap.remaining_ms == duration + k.again && k.snap.active != k.snap.paused)
  }

  /** A run that has ended ran its full duration besides what it repeated, and at most one gap longer. */
  predicate Delivered(w: World, duration: nat, gap: nat) {
    !InRun(w.st) && duration + w.again <= w.on <= duration + w.again + gap
  }

  lemma {:induction false} TickConserves(
      c: RuleConfig, w: World, tank: Option<Tank>, clock: Option<DateTime>, now: nat, duration: nat, gap: nat)
    requires Undisturbed(c, w.st) && Conserved(w, duration) && KeptOk(w, duration, gap) && duration < HALF &&
      gap <= HALF
    requires w.seen <= now <= w.now + gap
    ensures var w' := Next(c, w, Tick(tank, clock, now), gap);
      Undisturbed(c, w'.st) && KeptOk(w', duration, gap) && (Conserved(w', duration) || Delivered(w', duration, gap))
    ensures var p := PassRule(c, w.st, tank, clock, now);
      StopDone in p.events ==> Delivered(Next(c, w, Tick(tank, clock, now), gap), duration, gap)
  {
    if w.st.active {
      PauseConserves(c, w, now, duration, gap);
      NotBeforeIsOrder(now, w.st.finish);
    }
  }

  lemma PauseConserves(c: RuleConfig, w: World, now: nat, duration: nat, gap: nat)
    requires Undisturbed(c, w.st) && Conserved(w, duration) && duration < HALF && gap <= HALF
    requires w.st.active && w.now <= now <= w.now + gap
    ensures var w' := w.(st := StopForEmpty(c, w.st, now), now := now, on := OnUntil(w, now));
      Undisturbed(c, w'.st) && if MayPause(c, w.st, now) then Conserved(w', duration) else Delivered(w', duration, gap)
  {
    NotBeforeIsOrder(w.st.finish, now);
    SubOfLows(w.st.finish, now);
  }

  /** A snapshot holds the time left. */
  lemma {:induction false} SnapshotConserves(c: RuleConfig, w: World, at: nat, duration: nat, gap: nat)
    requires Undisturbed(c, w.st) && Conserved(w, duration) && KeptOk(w, duration, gap) && duration < HALF &&
      gap <= HALF
    requires w.seen <= at <= w.now + gap
    ensures var w' := Next(c, w, Snapshot(at), gap);
      && Undisturbed(c, w'.st) && Conserved(w', duration) && KeptOk(w', duration, gap)
      && w'.kept.snap.last_start_key == w.st.last_start_key
  {
    if w.st.active {
      NotBeforeIsOrder(w.st.finish, at);
      SubOfLows(w.st.finish, at);
    }
  }

  /** After a power cut the run goes on with the time left in the latest snapshot: what was watered since is
      repeated, and nothing else. A run that had none left is over. */
  lemma {:induction false} RebootConserves(c: RuleConfig, w: World, cut: nat, now: nat, duration: nat, gap: nat)
    requires Undisturbed(c, w.st) && Conserved(w, duration) && KeptOk(w, duration, gap) && duration < HALF &&
      gap <= HALF
    requires w.seen <= cut <= w.now + gap
    ensures var w' := Next(c, w, Reboot(cut, now), gap);
      && Undisturbed(c, w'.st) && KeptOk(w', duration, gap) && (Conserved(w', duration) || Delivered(w', duration, gap))
      && w'.again == w.kept.again + (OnUntil(w, cut) - w.kept.on)
      && w'.st.last_start_key == w.kept.snap.last_start_key
      && (InRun(w'.st) ==> w'.st.active == w.kept.snap.active && w'.st.paused == w.kept.snap.paused)
  {
  }

  ghost predicate StepAt(c: RuleConfig, worlds: seq<World>, steps: seq<Step>, gap: nat, k: nat)
    requires k < |steps| && |worlds| == |steps| + 1
  {
    StepOk(worlds[k], steps[k], gap) && worlds[k + 1] == Next(c, worlds[k], steps[k], gap)
  }

  ghost predicate IsRun(c: RuleConfig, worlds: seq<World>, steps: seq<Step>, gap: nat) {
    && |worlds| == |steps| + 1
    && forall k :: 0 <= k < |steps| ==> StepAt(c, worlds, steps, gap, k)
  }

  /** The world a slot's start leaves behind, once the snapshot it calls for has been taken. */
  function Started(c: RuleConfig, s: RuleState, tank: Option<Tank>, clock: Option<DateTime>, now: nat): World {
    var st := PassRule(c, s, tank, clock, now).st;
    World(st, now, 0, 0, Kept(BuildSaved(st, now), 0, 0), now)
  }

  predicate Starts(c: RuleConfig, s: RuleState, tank: Option<Tank>, clock: Option<DateTime>, now: nat) {
    !s.force && Start in PassRule(c, s, tank, clock, now).events
  }

  /** The slot a start takes. */
  lemma StartTakesSlot(c: RuleConfig, s: RuleState, clock: DateTime, now: nat, i: nat) returns (slot: nat)
    requires i <= SLOTS && StartSlot(c, s, clock, now, i).1
    ensures i <= slot < SLOTS && SlotMatches(c, slot, clock) && s.last_start_key != MakeStartKey(MinuteOf(clock), slot)
    ensures StartSlot(c, s, clock, now, i).0 == WriteValve(c,
      s.(last_start_key := MakeStartKey(MinuteOf(clock), slot), active := true, paused := false, remaining_ms := 0,
         finish := now + Low(SlotOf(c, slot).duration_sec * 1000)), true)
    decreases SLOTS - i
  {
    if SlotMatches(c, i, clock) && s.last_start_key != MakeStartKey(MinuteOf(clock), i) {
      slot := i;
    } else {
      slot := StartTakesSlot(c, s, clock, now, i + 1);
    }
  }

  lemma StartIsScheduled(
      c: RuleConfig, s: RuleState, tank: Option<Tank>, clock: Option<DateTime>, now: nat) returns (slot: nat)
    requires Starts(c, s, tank, clock, now)
    ensures clock.Some? && slot < SLOTS && SlotMatches(c, slot, clock.value)
    ensures c.enabled && s.status && !s.active && !s.paused && c.port != INVALID_PORT &&
      IsWeekdayAllowed(c, clock.value.day_of_week)
    ensures s.last_start_key != MakeStartKey(MinuteOf(clock.value), slot)
    ensures PassRule(c, s, tank, clock, now).st == WriteValve(c,
      s.(last_start_key := MakeStartKey(MinuteOf(clock.value), slot), active := true, paused := false,
         remaining_ms := 0, finish := now + Low(SlotOf(c, slot).duration_sec * 1000)), true)
  {
    assert PassRule(c, s, tank, clock, now) == PassWaiting(c, s, IsTankEmpty(c, tank), clock, now);
    slot := StartTakesSlot(c, s, clock.value, now, 0);
  }

  /** The longest slot for which the arithmetic is exact: 2147483 seconds. */
  const LONGEST := 2147483

  lemma StartConserves(
      c: RuleConfig, s: RuleState, tank: Option<Tank>, clock: Option<DateTime>, now: nat) returns (slot: nat)
    requires Starts(c, s, tank, clock, now) && c.resume_after_refill
    requires c.slot1.duration_sec <= LONGEST && c.slot2.duration_sec <= LONGEST && c.slot3.duration_sec <= LONGEST
    ensures slot < SLOTS && clock.Some? && SlotMatches(c, slot, clock.value)
    ensures Undisturbed(c, Started(c, s, tank, clock, now).st)
    ensures Conserved(Started(c, s, tank, clock, now), SlotOf(c, slot).duration_sec * 1000)
    ensures KeptOk(Started(c, s, tank, clock, now), SlotOf(c, slot).duration_sec * 1000, 0)
    ensures SlotOf(c, slot).duration_sec * 1000 < HALF
  {
    slot := StartIsScheduled(c, s, tank, clock, now);
    var st := PassRule(c, s, tank, clock, now).st;
    NotBeforeIsOrder(st.finish, now);
    SubOfLows(st.finish, now);
  }

  /** Over every history of passes, pauses, resumes and reboots from a start on, for as long as the run lasts its
      on-time and time left add up to the slot's duration, and where it ends it has delivered all of it. */
  lemma {:induction false} WateringIsConserved(
      c: RuleConfig, worlds: seq<World>, steps: seq<Step>, gap: nat, duration: nat, k: nat)
    requires IsRun(c, worlds, steps, gap) && k <= |steps| && gap <= HALF && duration < HALF
    requires Undisturbed(c, worlds[0].st) && Conserved(worlds[0], duration) && KeptOk(worlds[0], duration, gap)
    requires forall j :: 0 <= j < k ==> InRun(worlds[j].st)
    ensures Undisturbed(c, worlds[k].st) && KeptOk(worlds[k], duration, gap)
    ensures Conserved(worlds[k], duration) || Delivered(worlds[k], duration, gap)
  {
    if k == 0 {
    } else {
      WateringIsConserved(c, worlds, steps, gap, duration, k - 1);
      assert InRun(worlds[k - 1].st);
      assert StepAt(c, worlds, steps, gap, k - 1);
      match steps[k - 1]
      case Tick(tank, clock, now) => TickConserves(c, worlds[k - 1], tank, clock, now, duration, gap);
      case Snapshot(at) => SnapshotConserves(c, worlds[k - 1], at, duration, gap);
      case Reboot(cut, now) => RebootConserves(c, worlds[k - 1], cut, now, duration, gap);
    }
  }

  /** An undisturbed run that meets an empty tank is left paused with no time left if and only if the pass comes at the
      very instant of its end. */
  lemma {:induction false} StuckIffAtTheEnd(
      c: RuleConfig, w: World, tank: Option<Tank>, clock: Option<DateTime>, now: nat, duration: nat, gap: nat)
    requires Undisturbed(c, w.st) && Conserved(w, duration) && duration < HALF && gap <= HALF && w.st.active
    requires IsTankEmpty(c, tank) && w.now <= now <= w.now + gap
    ensures Stuck(PassRule(c, w.st, tank, clock, now).st) <==> now == w.st.finish
  {
    NotBeforeIsOrder(w.st.finish, now);
    SubOfLows(w.st.finish, now);
  }

  /** Paused, with nothing left to resume. */
  predicate Stuck(s: RuleState) { s.paused && !s.active && s.remaining_ms == 0 }

  /** One pass of the task over a rule, with the clock it could read. */
  datatype Turn = Turn(tank: Option<Tank>, clock: Option<DateTime>, now: nat)

  function AfterTurns(c: RuleConfig, s: RuleState, turns: seq<Turn>): RuleState
    decreases |turns|
  {
    if turns == [] then s
    else AfterTurns(c, PassRule(c, s, turns[0].tank, turns[0].clock, turns[0].now).st, turns[1..])
  }

  /** Left to itself such a rule stays as it is for ever: no tank level resumes it and no slot starts it. */
  lemma {:induction false} StuckForEver(c: RuleConfig, s: RuleState, turns: seq<Turn>)
    requires Undisturbed(c, s) && Stuck(s)
    ensures AfterTurns(c, s, turns) == s
    decreases |turns|
  {
    if turns == [] {
    } else {
      StuckForEver(c, s, turns[1..]);
    }
  }

  /** A paused run goes on, once the tank is filled to its level, exactly if it has time left: a run that was paused
      at the very instant of its end never resumes. */
  lemma {:induction false} ResumesIffTimeIsLeft(
      c: RuleConfig, s: RuleState, tank: Option<Tank>, clock: Option<DateTime>, now: nat)
    requires Undisturbed(c, s) && s.paused && !s.active
    requires !IsTankEmpty(c, tank) && IsResumeLevelReached(c, tank)
    ensures PassRule(c, s, tank, clock, now).st.active <==> s.remaining_ms != 0
    ensures s.remaining_ms == 0 ==> PassRule(c, s, tank, clock, now).st == s
  {
  }

  /** A manual run survives a snapshot and restore, and nothing else comes back as one. */
  lemma {:induction false} ForceSurvivesReboot(c: RuleConfig, s: RuleState, saved: nat, now: nat)
    requires c.enabled && (s.force || s.active || s.remaining_ms != FORCED)
    ensures var r := ApplySaved(c, PoweredUp(s), BuildSaved(s, saved), now);
      && r.force == s.force && r.last_start_key == s.last_start_key
      && (s.force ==> r.active && !r.paused && (c.port != INVALID_PORT ==> r.valve))
  {
    if !s.force && s.active { assert BuildSaved(s, saved).remaining_ms < HALF; }
  }

  // ----- the valve

  /** The valve is asked open exactly while the rule runs. */
  predicate ValveFollows(c: RuleConfig, s: RuleState) {
    s.valve == (s.active && c.port != INVALID_PORT)
  }

  lemma ValveAfterSlots(c: RuleConfig, s: RuleState, clock: DateTime, now: nat, i: nat)
    requires i <= SLOTS && ValveFollows(c, s)
    ensures ValveFollows(c, StartSlot(c, s, clock, now, i).0)
    decreases SLOTS - i
  {
    if i == SLOTS {
    } else {
      ValveAfterSlots(c, s, clock, now, i + 1);
    }
  }

  lemma ValveAfterPass(c: RuleConfig, s: RuleState, tank: Option<Tank>, clock: Option<DateTime>, now: nat)
    requires ValveFollows(c, s)
    ensures ValveFollows(c, PassRule(c, s, tank, clock, now).st)
  {
    if clock.Some? { ValveAfterSlots(c, s, clock.value, now, 0); }
  }

  lemma ValveAfterForce(c: RuleConfig, s: RuleState, on: bool, tank: Option<Tank>, clock: Option<DateTime>)
    requires ValveFollows(c, s)
    ensures ValveFollows(c, SetForce(c, s, on, tank, clock).0)
  {
  }

  /** Every operation keeps the valve in step with the rule; a restore does so on a rule that has just powered up. */
  lemma {:induction false} ValveAlwaysFollows(
      c: RuleConfig, s: RuleState, tank: Option<Tank>, clock: Option<DateTime>, now: nat, on: bool, v: Saved)
    requires ValveFollows(c, s)
    ensures ValveFollows(c, PassRule(c, s, tank, clock, now).st)
    ensures ValveFollows(c, SetForce(c, s, on, tank, clock).0)
    ensures ValveFollows(c, ApplySaved(c, PoweredUp(s), v, now))
  {
    ValveAfterPass(c, s, tank, clock, now);
    ValveAfterForce(c, s, on, tank, clock);
  }

  // ----- starts

  /** Slots that can start have pairwise different start minutes. */
  predicate DistinctMinutes(c: RuleConfig) {
    forall i, j :: 0 <= i < j < SLOTS && SlotConfigured(SlotOf(c, i)) && SlotConfigured(SlotOf(c, j)) ==>
      SlotOf(c, i).hour != SlotOf(c, j).hour || SlotOf(c, i).minute != SlotOf(c, j).minute
  }

  function Before(t: Minute, u: Minute): bool {
    t.year < u.year || (t.year == u.year && (t.month < u.month || (t.month == u.month && (t.day < u.day ||
      (t.day == u.day && (t.hour < u.hour || (t.hour == u.hour && t.minute < u.minute)))))))
  }

  /** What can happen to a rule, at some calendar time: a pass, a manual override, or a restore of the snapshot taken of
      the `source`-th state. `read` tells whether the clock could be read. */
  datatype Happening =
    | Visit(tank: Option<Tank>, clock: DateTime, read: bool, now: nat)
    | Override(on: bool, tank: Option<Tank>, clock: DateTime, read: bool)
    | Restore(source: nat, saved: nat, clock: DateTime, now: nat)

  function Seen(read: bool, clock: DateTime): Option<DateTime> { if read then Some(clock) else None }

  ghost predicate HappensAt(c: RuleConfig, states: seq<RuleState>, story: seq<Happening>, k: nat)
    requires k < |story| && |states| == |story| + 1
  {
    && InCentury(MinuteOf(story[k].clock))
    && (k + 1 < |story| ==> !Before(MinuteOf(story[k + 1].clock), MinuteOf(story[k].clock)))
    && match story[k]
       case Visit(tank, clock, read, now) => states[k + 1] == PassRule(c, states[k], tank, Seen(read, clock), now).st
       case Override(on, tank, clock, read) => states[k + 1] == SetForce(c, states[k], on, tank, Seen(read, clock)).0
       case Restore(source, saved, _, now) =>
         source <= k && states[k + 1] == ApplySaved(c, PoweredUp(states[k]), BuildSaved(states[source], saved), now)
  }

  /** A history under a clock that never goes back. */
  ghost predicate History(c: RuleConfig, states: seq<RuleState>, story: seq<Happening>) {
    |states| == |story| + 1 && forall k :: 0 <= k < |story| ==> HappensAt(c, states, story, k)
  }

  ghost predicate StartsAt(c: RuleConfig, states: seq<RuleState>, story: seq<Happening>, k: nat)
    requires k < |story| && |states| == |story| + 1
  {
    var h := story[k];
    h.Visit? && Starts(c, states[k], h.tank, Seen(h.read, h.clock), h.now)
  }

  /** No snapshot taken before state `i + 1` is restored before step `k`. */
  predicate RestoresLater(story: seq<Happening>, i: nat, k: nat)
    requires k <= |story|
  {
    forall j :: i < j < k && story[j].Restore? ==> story[j].source > i
  }

  lemma KeyOnlyMovesAtStarts(c: RuleConfig, s: RuleState, tank: Option<Tank>, clock: Option<DateTime>, now: nat)
    ensures PassRule(c, s, tank, clock, now).st.last_start_key != s.last_start_key ==> Starts(c, s, tank, clock, now)
  {
    if clock.Some? { KeyAfterSlots(c, s, clock.value, now, 0); }
  }

  lemma KeyAfterSlots(c: RuleConfig, s: RuleState, clock: DateTime, now: nat, i: nat)
    requires i <= SLOTS
    ensures !StartSlot(c, s, clock, now, i).1 ==> StartSlot(c, s, clock, now, i).0 == s
    decreases SLOTS - i
  {
    if i == SLOTS {
    } else {
      KeyAfterSlots(c, s, clock, now, i + 1);
    }
  }

  lemma MinutesOrdered(c: RuleConfig, states: seq<RuleState>, story: seq<Happening>, i: nat, k: nat)
    requires History(c, states, story) && i <= k < |story|
    ensures !Before(MinuteOf(story[k].clock), MinuteOf(story[i].clock))
    decreases k
  {
    if i == k {
    } else {
      MinutesOrdered(c, states, story, i, k - 1);
      assert HappensAt(c, states, story, k - 1);
    }
  }

  lemma SameMinuteSameSlot(c: RuleConfig, i: nat, j: nat, t: DateTime, u: DateTime)
    requires i < SLOTS && j < SLOTS
    ensures DistinctMinutes(c) && MinuteOf(t) == MinuteOf(u) && SlotMatches(c, i, t) && SlotMatches(c, j, u) ==> i == j
  {
  }

  lemma VisitKeepsKey(c: RuleConfig, s: RuleState, v: Happening, t: DateTime, slot: nat)
    requires v.Visit? && DistinctMinutes(c) && slot < SLOTS && SlotMatches(c, slot, t)
    requires MinuteOf(v.clock) == MinuteOf(t) && s.last_start_key == MakeStartKey(MinuteOf(t), slot)
    ensures PassRule(c, s, v.tank, Seen(v.read, v.clock), v.now).st.last_start_key == s.last_start_key
  {
    KeyOnlyMovesAtStarts(c, s, v.tank, Seen(v.read, v.clock), v.now);
    if Starts(c, s, v.tank, Seen(v.read, v.clock), v.now) {
      var slot' := StartIsScheduled(c, s, v.tank, Seen(v.read, v.clock), v.now);
      SameMinuteSameSlot(c, slot, slot', t, v.clock);
    }
  }

  lemma OverrideKeepsKey(c: RuleConfig, s: RuleState, v: Happening, t: DateTime, slot: nat)
    requires v.Override? && DistinctMinutes(c) && slot < SLOTS && SlotMatches(c, slot, t)
    requires MinuteOf(v.clock) == MinuteOf(t) && s.last_start_key == MakeStartKey(MinuteOf(t), slot)
    ensures SetForce(c, s, v.on, v.tank, Seen(v.read, v.clock)).0.last_start_key == s.last_start_key
  {
    CancelTakesKey(c, s.last_start_key, v.clock, slot, 0);
  }

  /** While the clock stays in the minute of a start, the key stays that of the start. */
  lemma {:induction false} KeyStaysInMinute(
      c: RuleConfig, states: seq<RuleState>, story: seq<Happening>, i: nat, t: DateTime, slot: nat, k: nat)
    requires History(c, states, story) && DistinctMinutes(c) && i < k <= |story| && slot < SLOTS
    requires SlotMatches(c, slot, t) && states[i + 1].last_start_key == MakeStartKey(MinuteOf(t), slot)
    requires forall j :: i <= j < k ==> MinuteOf(story[j].clock) == MinuteOf(t)
    requires RestoresLater(story, i, k)
    ensures states[k].last_start_key == MakeStartKey(MinuteOf(t), slot)
    decreases k
  {
    if i + 1 == k {
    } else {
      KeyStaysInMinute(c, states, story, i, t, slot, k - 1);
      var h := story[k - 1];
      assert HappensAt(c, states, story, k - 1) && MinuteOf(h.clock) == MinuteOf(t);
      match h
      case Visit(_, _, _, _) => VisitKeepsKey(c, states[k - 1], h, t, slot);
      case Override(_, _, _, _) => OverrideKeepsKey(c, states[k - 1], h, t, slot);
      case Restore(source, _, _, _) => KeyStaysInMinute(c, states, story, i, t, slot, source);
    }
  }

  lemma MinutesSqueezed(t: Minute, u: Minute)
    requires !Before(u, t) && !Before(t, u)
    ensures t == u
  {
  }

  /** A rule starts at most once in any calendar minute, whatever passes, overrides and reboots come in between, as
      long as no snapshot older than the start is restored. */
  lemma {:induction false} StartsAtMostOncePerMinute(
      c: RuleConfig, states: seq<RuleState>, story: seq<Happening>, i: nat, k: nat)
    requires History(c, states, story) && DistinctMinutes(c) && i < k < |story|
    requires StartsAt(c, states, story, i) && StartsAt(c, states, story, k) && RestoresLater(story, i, k)
    ensures MinuteOf(story[i].clock) != MinuteOf(story[k].clock)
  {
    if MinuteOf(story[i].clock) == MinuteOf(story[k].clock) {
      var a, b := story[i], story[k];
      forall j | i <= j < k
        ensures MinuteOf(story[j].clock) == MinuteOf(a.clock)
      {
        MinutesOrdered(c, states, story, i, j);
        MinutesOrdered(c, states, story, j, k);
        MinutesSqueezed(MinuteOf(a.clock), MinuteOf(story[j].clock));
      }
      assert HappensAt(c, states, story, i);
      var slot := StartIsScheduled(c, states[i], a.tank, Seen(a.read, a.clock), a.now);
      KeyStaysInMinute(c, states, story, i, a.clock, slot, k);
      var slot' := StartIsScheduled(c, states[k], b.tank, Seen(b.read, b.clock), b.now);
      SameMinuteSameSlot(c, slot, slot', a.clock, b.clock);
    }
  }

  /** The first slot that matches. */
  predicate Due(c: RuleConfig, s: RuleState, tank: Option<Tank>, clock: DateTime, slot: nat) {
    && c.enabled && s.status && !s.force && !s.active && !s.paused && c.port != INVALID_PORT
    && !IsTankEmpty(c, tank) && IsWeekdayAllowed(c, clock.day_of_week)
    && slot < SLOTS && SlotMatches(c, slot, clock)
  }

  /** The last key the rule holds: a fresh rule's 0, or the key of an earlier minute or slot. */
  ghost predicate HoldsOtherKey(key: uint32, t: Minute, slot: nat) {
    key == 0 || exists u: Minute, j: nat ::
      InCentury(u) && j < SLOTS && (u != t || j != slot) && key == MakeStartKey(u, j)
  }

  /** A slot that is due starts unless its own start in this very minute is on record: no key of another date, minute
      or slot, and not the initial 0, ever suppresses it. */
  lemma {:induction false} DueSlotStarts(
      c: RuleConfig, s: RuleState, tank: Option<Tank>, clock: DateTime, now: nat, slot: nat)
    requires Due(c, s, tank, clock, slot) && InCentury(MinuteOf(clock))
    requires HoldsOtherKey(s.last_start_key, MinuteOf(clock), slot)
    ensures Starts(c, s, tank, Some(clock), now)
  {
    var key := MakeStartKey(MinuteOf(clock), slot);
    if s.last_start_key == key {
      KeyIsNeverZero(MinuteOf(clock), slot);
      var u: Minute, j: nat :| InCentury(u) && j < SLOTS && (u != MinuteOf(clock) || j != slot) &&
        key == MakeStartKey(u, j);
      KeysAreInjective(MinuteOf(clock), slot, u, j);
    }
    SomeSlotStarts(c, s, clock, now, slot, 0);
  }

  /** A due slot starts if and only if the key on record is not its own for this minute. */
  lemma {:induction false} DueStartsIff(
      c: RuleConfig, s: RuleState, tank: Option<Tank>, clock: DateTime, now: nat, slot: nat)
    requires Due(c, s, tank, clock, slot) && DistinctMinutes(c)
    ensures Starts(c, s, tank, Some(clock), now) <==> s.last_start_key != MakeStartKey(MinuteOf(clock), slot)
  {
    if s.last_start_key != MakeStartKey(MinuteOf(clock), slot) {
      SomeSlotStarts(c, s, clock, now, slot, 0);
    } else if Starts(c, s, tank, Some(clock), now) {
      var slot' := StartIsScheduled(c, s, tank, Some(clock), now);
      SameMinuteSameSlot(c, slot, slot', clock, clock);
    }
  }

  /** After a start at `i` and a restore at `j` of a snapshot from before it, a due visit in the same minute starts
      the slot again if and only if the older key differs from the start's. */
  lemma {:induction false} OlderSnapshotRestarts(
      c: RuleConfig, states: seq<RuleState>, story: seq<Happening>, i: nat, j: nat, slot: nat)
    requires History(c, states, story) && DistinctMinutes(c) && i < j && j + 1 < |story|
    requires StartsAt(c, states, story, i) && story[j].Restore? && story[j].source <= i
    requires var v := story[j + 1];
      v.Visit? && v.read && MinuteOf(v.clock) == MinuteOf(story[i].clock) &&
        Due(c, states[j + 1], v.tank, v.clock, slot)
    ensures StartsAt(c, states, story, j + 1) <==>
      states[story[j].source].last_start_key != states[i + 1].last_start_key
  {
    assert HappensAt(c, states, story, i) && HappensAt(c, states, story, j);
    var a, v := story[i], story[j + 1];
    var slot' := StartIsScheduled(c, states[i], a.tank, Seen(a.read, a.clock), a.now);
    SameMinuteSameSlot(c, slot, slot', a.clock, v.clock);
    DueStartsIff(c, states[j + 1], v.tank, v.clock, v.now, slot);
  }

  const ONE_SLOT := RuleConfig(true, 1, 0, {1}, Slot(true, 6, 0, 60), Slot(false, 0, 0, 0), Slot(false, 0, 0, 0), 0,
    false)
  const WAITING := RuleState(true, false, false, false, 0, 0, 0, false)
  const SUNDAY_AT_SIX := DateTime(2024, 6, 2, 1, 6, 0, 0)

  /** Such a history: started, restored from a snapshot taken before, and started again in the same minute. */
  lemma {:induction false} StartedTwice() returns (states: seq<RuleState>, story: seq<Happening>)
    ensures |story| == 3 && History(ONE_SLOT, states, story) && DistinctMinutes(ONE_SLOT)
    ensures StartsAt(ONE_SLOT, states, story, 0) && story[1].Restore? && story[1].source == 0
    ensures StartsAt(ONE_SLOT, states, story, 2) && MinuteOf(story[2].clock) == MinuteOf(story[0].clock)
  {
    var visit := Visit(None, SUNDAY_AT_SIX, true, 1000);
    var restore := Restore(0, 500, SUNDAY_AT_SIX, 100);
    var again := Visit(None, SUNDAY_AT_SIX, true, 200);
    var s1 := PassRule(ONE_SLOT, WAITING, None, Some(SUNDAY_AT_SIX), 1000).st;
    var s2 := ApplySaved(ONE_SLOT, PoweredUp(s1), BuildSaved(WAITING, 500), 100);
    var s3 := PassRule(ONE_SLOT, s2, None, Some(SUNDAY_AT_SIX), 200).st;
    states, story := [WAITING, s1, s2, s3], [visit, restore, again];
    KeyIsNeverZero(MinuteOf(SUNDAY_AT_SIX), 0);
    SomeSlotStarts(ONE_SLOT, WAITING, SUNDAY_AT_SIX, 1000, 0, 0);
    SomeSlotStarts(ONE_SLOT, s2, SUNDAY_AT_SIX, 200, 0, 0);
    assert forall k :: 0 <= k < 3 ==> HappensAt(ONE_SLOT, states, story, k);
  }

  lemma SomeSlotStarts(c: RuleConfig, s: RuleState, clock: DateTime, now: nat, slot: nat, i: nat)
    requires i <= slot < SLOTS && SlotMatches(c, slot, clock)
    requires s.last_start_key != MakeStartKey(MinuteOf(clock), slot)
    ensures StartSlot(c, s, clock, now, i).1
    decreases slot - i
  {
    if i >= slot {
    } else {
      SomeSlotStarts(c, s, clock, now, slot, i + 1);
    }
  }

  /** Cancelling a forced run in the minute of a start keeps the schedule from starting it again in that minute. */
  lemma {:induction false} CancelIsNotRestarted(
      c: RuleConfig, s: RuleState, tank: Option<Tank>, clock: DateTime, tank': Option<Tank>, clock': DateTime,
      now: nat)
    requires DistinctMinutes(c) && s.force && c.enabled && c.port != INVALID_PORT &&
      IsWeekdayAllowed(c, clock.day_of_week)
    requires MinuteOf(clock') == MinuteOf(clock)
    ensures !Starts(c, SetForce(c, s, false, tank, Some(clock)).0, tank', Some(clock'), now)
  {
    var s' := SetForce(c, s, false, tank, Some(clock)).0;
    if Starts(c, s', tank', Some(clock'), now) {
      var slot := StartIsScheduled(c, s', tank', Some(clock'), now);
      CancelTakesKey(c, s.last_start_key, clock, slot, 0);
    }
  }

  lemma CancelTakesKey(c: RuleConfig, key: uint32, clock: DateTime, slot: nat, i: nat)
    requires DistinctMinutes(c) && i <= slot < SLOTS && SlotMatches(c, slot, clock)
    ensures CancelKey(c, key, clock, i) == MakeStartKey(MinuteOf(clock), slot)
    decreases slot - i
  {
    if SlotMatches(c, i, clock) {
      SameMinuteSameSlot(c, i, slot, clock, clock);
    } else {
      CancelTakesKey(c, key, clock, slot, i + 1);
    }
  }
}
