/** Break before make in what the controller asks for: over every run of ticks and commands, with any tick jitter
    and clock wrap, no relay write ever asks for both contactors, and one asks a contactor to close only after
    both have been asked open for the configured time. */
module AvrSafety {
  import opened Clock
  import opened Avr

  /** What the firmware can be asked to do. Delays and ports stay fixed; the modes may change. */
  datatype Command =
    | Begin
    | Tick(sample: Sample, sampled: nat)
    | Manual(src: Source)
    | AutoMode(on: bool)
    | PreferMain(on: bool)
    | AutoReturn(on: bool)
    | Enable(on: bool)
    | ClearFault

  function Do(c: Config, s: State, cmd: Command, now: nat): (Config, State) {
    match cmd
    case Begin => (c, if c.enabled then Reset(c, s, now) else s)
    case Tick(i, t) => (c, Task(c, s, i, t, now))
    case Manual(src) => (c, SetManual(c, s, src, now))
    case AutoMode(on) => (c.(auto_mode := on), if c.auto_mode != on && on then s.(manual := Off) else s)
    case PreferMain(on) => (c.(prefer_main := on), s)
    case AutoReturn(on) => (c.(auto_return_main := on), s)
    case Enable(on) =>
      (c.(enabled := on),
       if c.enabled == on then s
       else if on then Reset(c, s, now) else SetFault(Reset(c, s, now), NoFault))
    case ClearFault => (c, SetFault(s, NoFault))
  }

  predicate DistinctRelays(c: Config) {
    c.relay_main_port != c.relay_reserve_port || c.relay_main_port == INVALID_PORT
  }

  predicate Open(k: Ask) { !k.main && !k.reserve }

  /** Just before entry `n`, both contactors had been asked open for `d` when the clock read `at`. */
  ghost predicate OpenFor(trace: seq<Ask>, n: nat, at: nat, d: nat)
    requires n <= |trace|
  {
    exists k :: 0 <= k < n && trace[k].at + d <= at && forall j :: k <= j < n ==> Open(trace[j])
  }

  predicate MainCloses(trace: seq<Ask>, i: nat)
    requires i < |trace|
  {
    trace[i].main && (i == 0 || !trace[i - 1].main)
  }

  predicate ReserveCloses(trace: seq<Ask>, i: nat)
    requires i < |trace|
  {
    trace[i].reserve && (i == 0 || !trace[i - 1].reserve)
  }

  /** A write changes what is asked of its own contactor only. */
  predicate WriteFits(c: Config, main_before: bool, reserve_before: bool, e: Ask) {
    && e.main == (if e.port == c.relay_main_port != INVALID_PORT then e.level != c.relay_main_invert else main_before)
    && e.reserve == (if e.port == c.relay_reserve_port != INVALID_PORT
      then e.level != c.relay_reserve_invert else reserve_before)
  }

  /** The safety property, stated on the recorded writes alone. */
  ghost predicate EntryOk(c: Config, trace: seq<Ask>, i: nat)
    requires i < |trace|
  {
    && WriteFits(c, i > 0 && trace[i - 1].main, i > 0 && trace[i - 1].reserve, trace[i])
    && !(trace[i].main && trace[i].reserve)
    && (i > 0 ==> trace[i - 1].at <= trace[i].at)
    && (MainCloses(trace, i) ==> OpenFor(trace, i, trace[i].at, c.break_ms))
    && (ReserveCloses(trace, i) ==> OpenFor(trace, i, trace[i].at, c.break_ms + c.warmup_ms))
  }

  ghost predicate TraceOk(c: Config, trace: seq<Ask>) {
    forall i :: 0 <= i < |trace| ==> EntryOk(c, trace, i)
  }

  // ----- the invariant

  predicate MainAsked(c: Config, on: bool) { on && c.relay_main_port != INVALID_PORT }

  predicate ReserveAsked(c: Config, on: bool) { on && c.relay_reserve_port != INVALID_PORT }

  predicate ImageAgrees(c: Config, r: Relays) {
    && Asked(r.image, c.relay_main_port, c.relay_main_invert) == MainAsked(c, r.main_on)
    && Asked(r.image, c.relay_reserve_port, c.relay_reserve_invert) == ReserveAsked(c, r.reserve_on)
  }

  /** The recorded trace is good, ends no later than `now`, and ends in what is asked now. */
  ghost predicate Recorded(c: Config, r: Relays, now: nat) {
    && TraceOk(c, r.trace)
    && ImageAgrees(c, r)
    && (r.trace == [] ==> !MainAsked(c, r.main_on) && !ReserveAsked(c, r.reserve_on))
    && (r.trace != [] ==> EndsIn(c, r, r.trace[|r.trace| - 1], now))
  }

  predicate EndsIn(c: Config, r: Relays, last: Ask, now: nat) {
    last.at <= now && last.main == MainAsked(c, r.main_on) && last.reserve == ReserveAsked(c, r.reserve_on)
  }

  /** How long both contactors have been asked open when a phase is entered. */
  function OpenOnEntry(c: Config, phase: Phase, target: Source): nat {
    match phase
    case Warmup => c.break_ms
    case Apply => c.break_ms + if target.Reserve? then c.warmup_ms else 0
    case _ => 0
  }

  ghost predicate Safe(c: Config, s: State, now: nat) {
    && DistinctRelays(c)
    && Recorded(c, s.relays, now)
    && !BothAsked(s.relays)
    && s.fault != Interlock
    && (s.in_progress <==> !s.phase.Idle?)
    && (s.in_progress ==> Transferring(c, s, now))
  }

  predicate BothAsked(r: Relays) { r.main_on && r.reserve_on }

  predicate NoneAsked(r: Relays) { !r.main_on && !r.reserve_on }

  /** A transfer holds both contactors open, and has done so for what its phase needs. */
  ghost predicate Transferring(c: Config, s: State, now: nat) {
    && NoneAsked(s.relays)
    && s.start <= s.step <= now
    && (s.phase.Warmup? ==> s.target.Reserve?)
    && OpenFor(s.relays.trace, |s.relays.trace|, s.step, OpenOnEntry(c, s.phase, s.target))
  }

  lemma OpenForSame(t: seq<Ask>, t': seq<Ask>, n: nat, at: nat, d: nat)
    requires n <= |t| && n <= |t'| && (forall j :: 0 <= j < n ==> t[j] == t'[j]) && OpenFor(t, n, at, d)
    ensures OpenFor(t', n, at, d)
  {
    var k :| 0 <= k < n && t[k].at + d <= at && forall j :: k <= j < n ==> Open(t[j]);
    assert t'[k].at + d <= at && forall j :: k <= j < n ==> Open(t'[j]);
  }

  /** Time passing, or asking for less, keeps an open interval. */
  lemma OpenForLater(t: seq<Ask>, n: nat, at: nat, d: nat, at': nat, d': nat)
    requires n <= |t| && OpenFor(t, n, at, d) && at + d' <= at' + d
    ensures OpenFor(t, n, at', d')
  {
    var k :| 0 <= k < n && t[k].at + d <= at && forall j :: k <= j < n ==> Open(t[j]);
    assert t[k].at + d' <= at';
  }

  /** An open entry after an open interval prolongs it. */
  lemma OpenForMore(t: seq<Ask>, e: Ask, at: nat, d: nat)
    requires OpenFor(t, |t|, at, d) && Open(e)
    ensures OpenFor(t + [e], |t| + 1, at, d)
  {
    var k :| 0 <= k < |t| && t[k].at + d <= at && forall j :: k <= j < |t| ==> Open(t[j]);
    assert (t + [e])[k].at + d <= at && forall j :: k <= j < |t| + 1 ==> Open((t + [e])[j]);
  }

  ghost predicate MayFollow(c: Config, t: seq<Ask>, e: Ask) {
    && WriteFits(c, t != [] && t[|t| - 1].main, t != [] && t[|t| - 1].reserve, e)
    && !(e.main && e.reserve)
    && (t != [] ==> t[|t| - 1].at <= e.at)
    && (e.main && (t == [] || !t[|t| - 1].main) ==> OpenFor(t, |t|, e.at, c.break_ms))
    && (e.reserve && (t == [] || !t[|t| - 1].reserve) ==> OpenFor(t, |t|, e.at, c.break_ms + c.warmup_ms))
  }

  lemma TraceGrows(c: Config, t: seq<Ask>, e: Ask)
    requires TraceOk(c, t) && MayFollow(c, t, e)
    ensures TraceOk(c, t + [e])
  {
    var t' := t + [e];
    forall i | 0 <= i < |t'|
      ensures EntryOk(c, t', i)
    {
      if i < |t| {
        assert EntryOk(c, t, i);
        if MainCloses(t', i) { OpenForSame(t, t', i, t[i].at, c.break_ms); }
        if ReserveCloses(t', i) { OpenForSame(t, t', i, t[i].at, c.break_ms + c.warmup_ms); }
      } else {
        if MainCloses(t', i) { OpenForSame(t, t', i, e.at, c.break_ms); }
        if ReserveCloses(t', i) { OpenForSame(t, t', i, e.at, c.break_ms + c.warmup_ms); }
      }
    }
  }

  /** The record of a write to the main relay, and of one to the reserve relay. */
  function MainAsk(c: Config, now: nat, on: bool, reserve: bool): Ask {
    Ask(now, c.relay_main_port, LevelFor(c.relay_main_invert, on), MainAsked(c, on), reserve)
  }

  function ReserveAsk(c: Config, now: nat, on: bool, main: bool): Ask {
    Ask(now, c.relay_reserve_port, LevelFor(c.relay_reserve_invert, on), main, ReserveAsked(c, on))
  }

  /** One relay write records what it asks of its contactor and leaves the other as it was. */
  lemma MainWritten(c: Config, r: Relays, on: bool, now: nat)
    requires DistinctRelays(c)
    ensures var r' := Written(c, r, c.relay_main_port, LevelFor(c.relay_main_invert, on), now);
      && r' == r.(image := r'.image, trace := r.trace + [MainAsk(c, now, on,
                    Asked(r.image, c.relay_reserve_port, c.relay_reserve_invert))])
      && Asked(r'.image, c.relay_main_port, c.relay_main_invert) == MainAsked(c, on)
      && Asked(r'.image, c.relay_reserve_port, c.relay_reserve_invert)
      == Asked(r.image, c.relay_reserve_port, c.relay_reserve_invert)
  {
  }

  lemma ReserveWritten(c: Config, r: Relays, on: bool, now: nat)
    requires DistinctRelays(c)
    ensures var r' := Written(c, r, c.relay_reserve_port, LevelFor(c.relay_reserve_invert, on), now);
      && r' == r.(image := r'.image, trace := r.trace + [ReserveAsk(c, now, on,
                    Asked(r.image, c.relay_main_port, c.relay_main_invert))])
      && Asked(r'.image, c.relay_reserve_port, c.relay_reserve_invert) == ReserveAsked(c, on)
      && Asked(r'.image, c.relay_main_port, c.relay_main_invert)
      == Asked(r.image, c.relay_main_port, c.relay_main_invert)
  {
  }

  /** Both relay writes, in the record. */
  lemma {:induction false} RelaysDriven(c: Config, r: Relays, now: nat, m: bool, v: bool)
    requires DistinctRelays(c) && ImageAgrees(c, r)
    ensures var r' := Driven(c, r, now, m, v);
      && ImageAgrees(c, r')
      && r'.main_on == m && r'.reserve_on == v
      && r'.trace == r.trace + [MainAsk(c, now, m, ReserveAsked(c, r.reserve_on))]
                             + [ReserveAsk(c, now, v, MainAsked(c, m))]
  {
    var r1 := r.(main_on := m, reserve_on := v);
    MainWritten(c, r1, m, now);
    var r2 := Written(c, r1, c.relay_main_port, LevelFor(c.relay_main_invert, m), now);
    ReserveWritten(c, r2, v, now);
  }

  /** Opening both contactors is always allowed, and starts an open interval. */
  lemma {:induction false} OpeningIsSafe(c: Config, r: Relays, now: nat)
    requires DistinctRelays(c) && Recorded(c, r, now) && !BothAsked(r)
    ensures var r' := Driven(c, r, now, false, false);
      Recorded(c, r', now) && NoneAsked(r') && OpenFor(r'.trace, |r'.trace|, now, 0)
  {
    RelaysDriven(c, r, now, false, false);
    var e1, e2 := MainAsk(c, now, false, ReserveAsked(c, r.reserve_on)), ReserveAsk(c, now, false, false);
    TraceGrows(c, r.trace, e1);
    TraceGrows(c, r.trace + [e1], e2);
    var t := r.trace + [e1] + [e2];
    assert t[|t| - 1] == e2 && t[|t| - 1].at + 0 <= now;
  }

  /** Closing one contactor is allowed once both have been open long enough. */
  lemma {:induction false} ClosingIsSafe(c: Config, r: Relays, now: nat, target: Source)
    requires DistinctRelays(c) && Recorded(c, r, now) && NoneAsked(r)
    requires OpenFor(r.trace, |r.trace|, now, OpenOnEntry(c, Apply, target))
    ensures Recorded(c, Driven(c, r, now, target.Main?, target.Reserve?), now)
  {
    RelaysDriven(c, r, now, target.Main?, target.Reserve?);
    var d := OpenOnEntry(c, Apply, target);
    var e1 := MainAsk(c, now, target.Main?, false);
    var e2 := ReserveAsk(c, now, target.Reserve?, MainAsked(c, target.Main?));
    TraceGrows(c, r.trace, e1);
    if Open(e1) { OpenForMore(r.trace, e1, now, d); }
    TraceGrows(c, r.trace + [e1], e2);
    var t := r.trace + [e1] + [e2];
    assert t[|t| - 1] == e2;
  }

  // ----- every operation keeps it

  lemma SafeLater(c: Config, s: State, now: nat, later: nat)
    requires Safe(c, s, now) && now <= later
    ensures Safe(c, s, later)
  {
  }

  lemma OpenAndIdle(c: Config, s: State, now: nat)
    requires Safe(c, s, now)
    ensures Safe(c, Settle(SetRelays(c, s, now, false, false)), now)
  {
    OpeningIsSafe(c, s.relays, now);
  }

  lemma StartIsSafe(c: Config, s: State, target: Source, now: nat)
    requires Safe(c, s, now)
    ensures Safe(c, StartTransfer(c, s, target, now), now)
  {
    if target != s.active {
      OpeningIsSafe(c, s.relays, now);
    }
  }

  lemma RestIsSafe(c: Config, s': State, now: nat)
    requires DistinctRelays(c) && Recorded(c, s'.relays, now) && !BothAsked(s'.relays)
    requires !s'.in_progress && s'.phase.Idle? && s'.fault != Interlock
    ensures Safe(c, s', now)
  {
  }

  lemma ApplyIsSafe(c: Config, s: State, now: nat)
    requires Safe(c, s, now) && s.phase.Apply?
    ensures Safe(c, ApplyTarget(c, s, now), now)
  {
    var d := OpenOnEntry(c, Apply, s.target);
    OpenForLater(s.relays.trace, |s.relays.trace|, s.step, d, now, d);
    ClosingIsSafe(c, s.relays, now, s.target);
    ConfirmIsSafe(c, SetRelays(c, s, now, s.target.Main?, s.target.Reserve?), now);
  }

  lemma ConfirmIsSafe(c: Config, on: State, now: nat)
    requires DistinctRelays(c) && Recorded(c, on.relays, now) && !BothAsked(on.relays) && on.fault != Interlock
    ensures Safe(c, Conclude(Confirm(c, on, now), now), now)
  {
    if FeedbackBad(c, on) { OpeningIsSafe(c, on.relays, now); }
    RestIsSafe(c, Conclude(Confirm(c, on, now), now), now);
  }

  /** The part of the invariant that speaks of a transfer under way. */
  lemma TransferIsSafe(c: Config, s: State, s': State, now: nat)
    requires Safe(c, s, now) && s.in_progress && s'.relays == s.relays && s'.in_progress && !s'.phase.Idle?
    requires s'.fault == s.fault && s'.start == s.start && s.step <= s'.step <= now
    requires s'.phase.Warmup? ==> s'.target.Reserve?
    requires s.step + OpenOnEntry(c, s'.phase, s'.target) <= s'.step + OpenOnEntry(c, s.phase, s.target)
    ensures Safe(c, s', now)
  {
    OpenForLater(s.relays.trace, |s.relays.trace|, s.step, OpenOnEntry(c, s.phase, s.target),
                 s'.step, OpenOnEntry(c, s'.phase, s'.target));
  }

  lemma EnteringIsSafe(c: Config, s: State, phase: Phase, now: nat, lasted: uint32)
    requires Safe(c, s, now) && s.in_progress && lasted <= now - s.step
    requires match s.phase
      case Break => lasted >= c.break_ms &&
        phase == if s.target.Reserve? && c.warmup_ms > 0 then Warmup else Apply
      case Warmup => lasted >= c.warmup_ms && phase == Apply
      case _ => false
    ensures Safe(c, s.(phase := phase, step := now), now)
  {
    TransferIsSafe(c, s, s.(phase := phase, step := now), now);
  }

  /** A phase that ends has really lasted its delay. */
  lemma AdvanceIsSafe(c: Config, s: State, now: nat, lasted: uint32)
    requires Safe(c, s, now) && s.in_progress && !s.phase.Apply? && lasted <= now - s.step
    ensures Safe(c, Advance(c, s, now, lasted), now)
  {
    match s.phase
    case Break =>
      if lasted >= c.break_ms {
        EnteringIsSafe(c, s, if s.target.Reserve? && c.warmup_ms > 0 then Warmup else Apply, now, lasted);
      }
    case Warmup => if lasted >= c.warmup_ms { EnteringIsSafe(c, s, Apply, now, lasted); }
    case _ => assert false;
  }

  lemma ProcessIsSafe(c: Config, s: State, now: nat)
    requires Safe(c, s, now) && s.in_progress
    ensures Safe(c, ProcessTransfer(c, s, now), now)
  {
    if Elapsed(now, s.start) > c.transfer_timeout_ms {
      OpenAndIdle(c, SetFault(s, TransferTimeout), now);
    } else if s.phase.Apply? {
      ApplyIsSafe(c, s, now);
    } else {
      ElapsedNeverOverstates(s.step, now);
      AdvanceIsSafe(c, s, now, Elapsed(now, s.step));
    }
  }

  /** A decision touches only its own timers and may report that no source is left. */
  lemma DecisionOnlyDecides(c: Config, s: State, now: nat)
    ensures OnlyDecides(s, DecideAuto(c, s, now).1)
  {
    match s.active
    case Main => FromMainDecides(c, s, now);
    case Reserve => FromReserveDecides(c, s, now);
    case Off =>
  }

  predicate OnlyDecides(s: State, s': State) {
    && s' == s.(fault := s'.fault, main_lost_since := s'.main_lost_since, main_ok_since := s'.main_ok_since)
    && (s'.fault == s.fault || s'.fault == NoSource)
  }

  lemma FromMainDecides(c: Config, s: State, now: nat)
    ensures OnlyDecides(s, FromMain(c, s, now).1)
  {
    var lost := if IsUnset(s.main_lost_since) then now else s.main_lost_since;
    assert OnlyDecides(s, s.(main_lost_since := lost));
    MainLostDecides(c, s.(main_lost_since := lost), Elapsed(now, lost));
  }

  lemma MainLostDecides(c: Config, s: State, lasted: uint32)
    ensures OnlyDecides(s, MainLost(c, s, lasted).1)
  {
  }

  lemma FromReserveDecides(c: Config, s: State, now: nat)
    ensures OnlyDecides(s, FromReserve(c, s, now).1)
  {
    var back := c.auto_return_main && s.inputs.main_ok;
    var since := if !back then 0 else if IsUnset(s.main_ok_since) then now else s.main_ok_since;
    assert OnlyDecides(s, s.(main_ok_since := since));
    MainBackDecides(c, s.(main_ok_since := since), back, Elapsed(now, since));
  }

  lemma MainBackDecides(c: Config, s: State, back: bool, lasted: uint32)
    ensures OnlyDecides(s, MainBack(c, s, back, lasted).1)
  {
  }

  lemma IdleIsSafe(c: Config, s: State, now: nat)
    requires Safe(c, s, now) && !s.in_progress
    ensures Safe(c, WhileIdle(c, s, now), now)
  {
    if s.fault == NoFault {
      if !c.auto_mode {
        StartIsSafe(c, s, s.manual, now);
      } else {
        var (desired, s') := DecideAuto(c, s, now);
        DecisionOnlyDecides(c, s, now);
        RestIsSafe(c, s', now);
        StartIsSafe(c, s', desired, now);
      }
    } else {
      RestIsSafe(c, WhileIdle(c, s, now), now);
    }
  }

  lemma TaskIsSafe(c: Config, s: State, i: Sample, t: nat, now: nat)
    requires Safe(c, s, t) && t <= now
    ensures Safe(c, Task(c, s, i, t, now), now)
  {
    var s1 := ApplySample(c, s, i, t);
    assert Safe(c, s1, t);
    SafeLater(c, s1, t, now);
    if c.enabled {
      if s1.in_progress { ProcessIsSafe(c, s1, now); } else { IdleIsSafe(c, s1, now); }
    } else {
      OpenAndIdle(c, s1, now);
    }
  }

  lemma ModeChange(c: Config, c': Config, s: State, now: nat)
    requires Safe(c, s, now)
    requires c' == c.(enabled := c'.enabled, auto_mode := c'.auto_mode, prefer_main := c'.prefer_main,
                      auto_return_main := c'.auto_return_main)
    ensures Safe(c', s, now)
  {
    forall i | 0 <= i < |s.relays.trace|
      ensures EntryOk(c', s.relays.trace, i)
    {
      assert EntryOk(c, s.relays.trace, i);
    }
  }

  lemma ResetIsSafe(c: Config, s: State, now: nat)
    requires Safe(c, s, now)
    ensures Safe(c, Reset(c, s, now), now) && Safe(c, SetFault(Reset(c, s, now), NoFault), now)
  {
    OpeningIsSafe(c, s.relays, now);
    RestIsSafe(c, Reset(c, s, now), now);
    RestIsSafe(c, SetFault(Reset(c, s, now), NoFault), now);
  }

  lemma ManualIsSafe(c: Config, s: State, src: Source, now: nat)
    requires Safe(c, s, now)
    ensures Safe(c, SetManual(c, s, src, now), now)
  {
    var s1 := s.(manual := src);
    assert Safe(c, s1, now);
    StartIsSafe(c, s1, src, now);
  }

  ghost predicate StaysSafe(c: Config, s: State, cmd: Command, now: nat) {
    var (c', s') := Do(c, s, cmd, now);
    Safe(c', s', now)
  }

  lemma EnableIsSafe(c: Config, s: State, on: bool, now: nat)
    requires Safe(c, s, now)
    ensures StaysSafe(c, s, Enable(on), now)
  {
    ResetIsSafe(c, s, now);
    ModeChange(c, c.(enabled := on), if c.enabled == on then s
               else if on then Reset(c, s, now) else SetFault(Reset(c, s, now), NoFault), now);
  }

  lemma AutoModeIsSafe(c: Config, s: State, on: bool, now: nat)
    requires Safe(c, s, now)
    ensures StaysSafe(c, s, AutoMode(on), now)
  {
    ModeChange(c, c.(auto_mode := on), s, now);
    var c', s' := c.(auto_mode := on), s.(manual := Off);
    assert Safe(c', s', now);
  }

  lemma TickIsSafe(c: Config, s: State, i: Sample, t: nat, now: nat)
    requires Safe(c, s, t) && t <= now
    ensures StaysSafe(c, s, Tick(i, t), now)
  {
    TaskIsSafe(c, s, i, t, now);
  }

  lemma OtherCommandIsSafe(c: Config, s: State, cmd: Command, now: nat)
    requires Safe(c, s, now) && (cmd.Begin? || cmd.Manual? || cmd.PreferMain? || cmd.AutoReturn? || cmd.ClearFault?)
    ensures StaysSafe(c, s, cmd, now)
  {
    match cmd
    case Begin => ResetIsSafe(c, s, now);
    case Manual(src) => ManualIsSafe(c, s, src, now);
    case PreferMain(on) => ModeChange(c, c.(prefer_main := on), s, now);
    case AutoReturn(on) => ModeChange(c, c.(auto_return_main := on), s, now);
    case ClearFault => ClearingIsSafe(c, s, now);
    case _ => assert false;
  }

  lemma ClearingIsSafe(c: Config, s: State, now: nat)
    requires Safe(c, s, now)
    ensures Safe(c, SetFault(s, NoFault), now)
  {
  }

  /** Every command keeps the invariant. */
  lemma {:induction false} StepIsSafe(c: Config, s: State, cmd: Command, before: nat, now: nat)
    requires Safe(c, s, before) && before <= now && (cmd.Tick? ==> before <= cmd.sampled <= now)
    ensures StaysSafe(c, s, cmd, now)
  {
    SafeLater(c, s, before, now);
    match cmd
    case Tick(i, t) =>
      SafeLater(c, s, before, t);
      TickIsSafe(c, s, i, t, now);
    case Enable(on) => EnableIsSafe(c, s, on, now);
    case AutoMode(on) => AutoModeIsSafe(c, s, on, now);
    case _ => OtherCommandIsSafe(c, s, cmd, now);
  }

  // ----- runs

  datatype Timed = Timed(cmd: Command, now: nat)

  /** Time never runs backwards, and a tick samples its inputs no later than it decides. */
  predicate InOrder(run: seq<Timed>, from: nat) {
    run != [] ==>
      && from <= run[0].now
      && (run[0].cmd.Tick? ==> from <= run[0].cmd.sampled <= run[0].now)
      && InOrder(run[1..], run[0].now)
  }

  function After(c: Config, s: State, run: seq<Timed>): (Config, State)
    decreases |run|
  {
    if run == [] then (c, s) else
    var (c', s') := Do(c, s, run[0].cmd, run[0].now);
    After(c', s', run[1..])
  }

  // ----- power-up

  /** The state in RAM at power-up: nothing written, no transfer. */
  predicate PoweredUp(c: Config, s: State) {
    && DistinctRelays(c)
    && s.relays.trace == [] && s.relays.image == map[] && NoneAsked(s.relays)
    && !s.in_progress && s.phase.Idle? && s.fault != Interlock
  }

  /** `begin` comes before the outputs are enabled, so that the pins first show the image it leaves. */
  function Booted(c: Config, s: State, now: nat): State {
    if c.enabled then Reset(c, s, now).(relays := Reset(c, s, now).relays.(trace := [])) else s
  }

  predicate InvertedRelay(c: Config) {
    (c.relay_main_port != INVALID_PORT && c.relay_main_invert) ||
      (c.relay_reserve_port != INVALID_PORT && c.relay_reserve_invert)
  }

  /** The outputs come up with both contactors asked open if and only if the controller is enabled or no relay is
      inverted: the ports' initial level is low, which closes an inverted relay. */
  lemma {:induction false} BootIsOpen(c: Config, s: State, now: nat)
    requires PoweredUp(c, s)
    ensures var r := Booted(c, s, now).relays;
      !Asked(r.image, c.relay_main_port, c.relay_main_invert) &&
        !Asked(r.image, c.relay_reserve_port, c.relay_reserve_invert)
      <==> c.enabled || !InvertedRelay(c)
    ensures c.enabled || !InvertedRelay(c) ==> Safe(c, Booted(c, s, now), now) && NoneAsked(Booted(c, s, now).relays)
  {
    if c.enabled {
      var r1 := s.relays.(main_on := false, reserve_on := false);
      MainWritten(c, r1, false, now);
      ReserveWritten(c, Written(c, r1, c.relay_main_port, LevelFor(c.relay_main_invert, false), now), false, now);
    }
  }

  /** A disabled controller with both relays inverted comes up with both contactors asked closed. */
  lemma BothClosedAtPowerUp(c: Config, s: State, now: nat)
    requires PoweredUp(c, s) && !c.enabled && c.relay_main_invert && c.relay_reserve_invert
    requires c.relay_main_port != INVALID_PORT && c.relay_reserve_port != INVALID_PORT
    ensures var r := Booted(c, s, now).relays;
      Asked(r.image, c.relay_main_port, c.relay_main_invert) &&
        Asked(r.image, c.relay_reserve_port, c.relay_reserve_invert)
  {
  }

  ghost predicate BreakBeforeMake(c: Config, s: State) {
    TraceOk(c, s.relays.trace) && s.fault != Interlock
  }

  function EndOf(run: seq<Timed>, from: nat): nat {
    if run == [] then from else run[|run| - 1].now
  }

  /** Every run leads to a safe state. */
  lemma {:induction false} RunIsSafe(c: Config, s: State, before: nat, run: seq<Timed>)
    requires Safe(c, s, before) && InOrder(run, before)
    ensures var (c', s') := After(c, s, run); Safe(c', s', EndOf(run, before)) && BreakBeforeMake(c', s')
    decreases |run|
  {
    if run == [] {
    } else {
      StepIsSafe(c, s, run[0].cmd, before, run[0].now);
      var (c', s') := Do(c, s, run[0].cmd, run[0].now);
      RunIsSafe(c', s', run[0].now, run[1..]);
      assert EndOf(run, before) == EndOf(run[1..], run[0].now);
    }
  }

  /** From a power-up that leaves both contactors asked open, whatever the ticks, commands and times, every relay write
      ever made keeps break before make, and the interlock fault is never raised. */
  lemma {:induction false} AlwaysBreaksBeforeMaking(c: Config, s: State, boot: nat, run: seq<Timed>)
    requires PoweredUp(c, s) && InOrder(run, boot) && (c.enabled || !InvertedRelay(c))
    ensures var (c', s') := After(c, Booted(c, s, boot), run); Safe(c', s', EndOf(run, boot)) && BreakBeforeMake(c', s')
  {
    BootIsOpen(c, s, boot);
    RunIsSafe(c, Booted(c, s, boot), boot, run);
  }
}
