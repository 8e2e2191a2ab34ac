/** The automatic transfer switch: what each operation does to the controller's state.

    A timestamp is kept as the real time at which the code took it; every comparison the code
    makes on it goes through its low 32 bits. The controller writes its relays into the output image, which another
    task applies to the ports: `trace` records every such write, and what the image then asks of the two
    contactors. What the contactors themselves do is the subject of `AvrContactors`. */
module Avr {
  import opened Clock
  import opened Options

  datatype Source = Off | Main | Reserve

  datatype Fault = NoFault | NoSource | TransferTimeout | Interlock | FeedbackMismatch

  datatype Phase = Idle | Break | Warmup | Apply

  const INVALID_PORT := 0xFF

  datatype Config = Config(
    enabled: bool, auto_mode: bool, prefer_main: bool, auto_return_main: bool,
    relay_main_port: nat, relay_reserve_port: nat, feedback_main_port: nat, feedback_reserve_port: nat,
    relay_main_invert: bool, relay_reserve_invert: bool,
    debounce_ms: uint32, loss_delay_ms: uint32, return_delay_ms: uint32,
    break_ms: uint32, warmup_ms: uint32, transfer_timeout_ms: uint32)

  datatype Debounce = Debounce(stable: bool, raw: bool, since: nat, initialized: bool)

  /** What the input ports read; none where a port is unset or its read fails. */
  datatype Sample = Sample(main_ok: Option<bool>, reserve_ok: Option<bool>, fb_main: Option<bool>,
    fb_reserve: Option<bool>)

  /** One relay write, and what the output image asks of the two contactors after it. */
  datatype Ask = Ask(at: nat, port: nat, level: bool, main: bool, reserve: bool)

  /** The debounced inputs. */
  datatype Inputs = Inputs(main_ok: bool, reserve_ok: bool, fb_main_on: bool, fb_reserve_on: bool,
                           main_db: Debounce, reserve_db: Debounce, fb_main_db: Debounce, fb_reserve_db: Debounce)

  /** The relay fields, the output image of the ports written so far, and the history of the writes. */
  datatype Relays = Relays(main_on: bool, reserve_on: bool, image: map<nat, bool>, trace: seq<Ask>)

  datatype State = State(
    inputs: Inputs, relays: Relays,
    in_progress: bool, active: Source, target: Source, manual: Source, phase: Phase, fault: Fault,
    start: nat, step: nat, switch_count: uint32, main_lost_since: nat, main_ok_since: nat)

  const NO_INPUT := Debounce(false, false, 0, false)

  /** The state in RAM at power-up. */
  const RAW := State(Inputs(false, false, false, false, NO_INPUT, NO_INPUT, NO_INPUT, NO_INPUT),
                     Relays(false, false, map[], []), false, Off, Off, Off, Idle, NoFault, 0, 0, 0, 0, 0)

  /** `(uint32_t)(now - since)`. */
  function Elapsed(now: nat, since: nat): uint32 { Sub(Low(now), Low(since)) }

  predicate IsUnset(since: nat) { Low(since) == 0 }

  // ----- inputs

  function UpdateDebounce(c: Config, db: Debounce, value: bool, now: nat): Debounce {
    if !db.initialized then Debounce(value, value, now, true)
    else if db.raw != value then db.(raw := value, since := now)
    else if db.stable != db.raw && Elapsed(now, db.since) >= c.debounce_ms then db.(stable := db.raw)
    else db
  }

  function Debounced(c: Config, db: Debounce, value: Option<bool>, now: nat): Debounce {
    if value.Some? then UpdateDebounce(c, db, value.value, now) else db
  }

  function Sampled(c: Config, n: Inputs, i: Sample, now: nat): Inputs {
    var m, r := Debounced(c, n.main_db, i.main_ok, now), Debounced(c, n.reserve_db, i.reserve_ok, now);
    var fm, fr := Debounced(c, n.fb_main_db, i.fb_main, now), Debounced(c, n.fb_reserve_db, i.fb_reserve, now);
    Inputs(m.stable, r.stable, fm.stable, fr.stable, m, r, fm, fr)
  }

  function ApplySample(c: Config, s: State, i: Sample, now: nat): State {
    s.(inputs := Sampled(c, s.inputs, i, now))
  }

  // ----- relays

  function LevelFor(invert: bool, on: bool): bool { if invert then !on else on }

  function WriteImage(image: map<nat, bool>, port: nat, level: bool): map<nat, bool> {
    if port == INVALID_PORT then image else image[port := level]
  }

  /** The image asks a contactor to close. A port that was never written has its initial level, which is low. */
  predicate Asked(image: map<nat, bool>, port: nat, invert: bool) {
    port != INVALID_PORT && (port in image && image[port]) != invert
  }

  function AskOf(c: Config, image: map<nat, bool>, port: nat, level: bool, now: nat): Ask {
    Ask(now, port, level, Asked(image, c.relay_main_port, c.relay_main_invert),
        Asked(image, c.relay_reserve_port, c.relay_reserve_invert))
  }

  function SetFault(s: State, f: Fault): State { s.(fault := f) }

  function SetRelays(c: Config, s: State, now: nat, main_on: bool, reserve_on: bool): State {
    if main_on && reserve_on then SetFault(s, Interlock).(relays := Driven(c, s.relays, now, false, false))
    else s.(relays := Driven(c, s.relays, now, main_on, reserve_on))
  }

  function Written(c: Config, r: Relays, port: nat, level: bool, now: nat): Relays {
    var image := WriteImage(r.image, port, level);
    r.(image := image, trace := r.trace + [AskOf(c, image, port, level, now)])
  }

  /** The main relay is written first, then the reserve relay. */
  function Driven(c: Config, r: Relays, now: nat, main_on: bool, reserve_on: bool): Relays {
    var r1 := r.(main_on := main_on, reserve_on := reserve_on);
    var r2 := Written(c, r1, c.relay_main_port, LevelFor(c.relay_main_invert, main_on), now);
    Written(c, r2, c.relay_reserve_port, LevelFor(c.relay_reserve_invert, reserve_on), now)
  }

  // ----- transfers

  function Settle(s: State): State {
    s.(active := Off, in_progress := false, phase := Idle)
  }

  function StartTransfer(c: Config, s: State, target: Source, now: nat): State {
    if target == s.active then s
    else SetRelays(c, s.(target := target, in_progress := true, phase := Break, start := now, step := now),
                   now, false, false)
  }

  predicate FeedbackBad(c: Config, s: State) {
    || (s.target.Main? && !s.inputs.fb_main_on && c.feedback_main_port != INVALID_PORT)
    || (s.target.Reserve? && !s.inputs.fb_reserve_on && c.feedback_reserve_port != INVALID_PORT)
  }

  function Rejected(c: Config, s: State, now: nat): State {
    SetRelays(c, SetFault(s, FeedbackMismatch), now, false, false).(active := Off)
  }

  function Accepted(s: State): State {
    s.(active := s.target, switch_count := Add(s.switch_count, 1))
  }

  function Confirm(c: Config, s: State, now: nat): State {
    if FeedbackBad(c, s) then Rejected(c, s, now) else Accepted(s)
  }

  function Conclude(s: State, now: nat): State {
    s.(in_progress := false, phase := Idle, target := s.active,
       main_lost_since := 0, main_ok_since := if s.inputs.main_ok then now else 0)
  }

  function ApplyTarget(c: Config, s: State, now: nat): State {
    Conclude(Confirm(c, SetRelays(c, s, now, s.target.Main?, s.target.Reserve?), now), now)
  }

  function TimedOut(c: Config, s: State, now: nat): State {
    Settle(SetRelays(c, SetFault(s, TransferTimeout), now, false, false))
  }

  /** Waiting out a phase, `lasted` being the measured time in it. */
  function Advance(c: Config, s: State, now: nat, lasted: uint32): State
    requires !s.phase.Apply?
  {
    match s.phase
    case Break =>
      if lasted < c.break_ms then s
      else if s.target.Reserve? && c.warmup_ms > 0 then s.(phase := Warmup, step := now)
      else s.(phase := Apply, step := now)
    case Warmup =>
      if lasted < c.warmup_ms then s else s.(phase := Apply, step := now)
    case Idle => s.(in_progress := false)
  }

  function ProcessTransfer(c: Config, s: State, now: nat): State {
    if Elapsed(now, s.start) > c.transfer_timeout_ms then TimedOut(c, s, now)
    else if s.phase.Apply? then ApplyTarget(c, s, now)
    else Advance(c, s, now, Elapsed(now, s.step))
  }

  function FromMain(c: Config, s: State, now: nat): (Source, State) {
    if s.inputs.main_ok then (Main, s.(main_lost_since := 0)) else
    var lost := if IsUnset(s.main_lost_since) then now else s.main_lost_since;
    MainLost(c, s.(main_lost_since := lost), Elapsed(now, lost))
  }

  function MainLost(c: Config, s: State, lasted: uint32): (Source, State) {
    if lasted < c.loss_delay_ms then (Main, s)
    else if s.inputs.reserve_ok then (Reserve, s)
    else (Off, SetFault(s, NoSource))
  }

  function FromReserve(c: Config, s: State, now: nat): (Source, State) {
    var back := c.auto_return_main && s.inputs.main_ok;
    var since := if !back then 0 else if IsUnset(s.main_ok_since) then now else s.main_ok_since;
    MainBack(c, s.(main_ok_since := since), back, Elapsed(now, since))
  }

  function MainBack(c: Config, s: State, back: bool, lasted: uint32): (Source, State) {
    if back && lasted >= c.return_delay_ms then (Main, s)
    else if s.inputs.reserve_ok then (Reserve, s)
    else if s.inputs.main_ok then (Main, s)
    else (Off, SetFault(s, NoSource))
  }

  function FromOff(c: Config, s: State, now: nat): (Source, State) {
    var since := if !s.inputs.main_ok then 0 else if IsUnset(s.main_ok_since) then now else s.main_ok_since;
    var choice := if c.prefer_main then
      (if s.inputs.main_ok then Main else if s.inputs.reserve_ok then Reserve else Off)
                  else (if s.inputs.reserve_ok then Reserve else if s.inputs.main_ok then Main else Off);
    (choice, s.(main_lost_since := 0, main_ok_since := since))
  }

  function DecideAuto(c: Config, s: State, now: nat): (Source, State) {
    match s.active
    case Main => FromMain(c, s, now)
    case Reserve => FromReserve(c, s, now)
    case Off => FromOff(c, s, now)
  }

  function WhileDisabled(c: Config, s: State, now: nat): State {
    if !s.active.Off? || s.relays.main_on || s.relays.reserve_on
    then Settle(SetRelays(c, s, now, false, false)).(target := Off) else s
  }

  function WhileIdle(c: Config, s: State, now: nat): State {
    if s.fault != NoFault then
      if c.auto_mode && (s.inputs.main_ok || s.inputs.reserve_ok) then SetFault(s, NoFault) else s
    else if !c.auto_mode then StartTransfer(c, s, s.manual, now)
    else
      var (desired, s') := DecideAuto(c, s, now);
      StartTransfer(c, s', desired, now)
  }

  function BothOn(c: Config, s: State, now: nat): State {
    Settle(SetRelays(c, SetFault(s, Interlock), now, false, false))
  }

  function WhileEnabled(c: Config, s: State, now: nat): State {
    if s.relays.main_on && s.relays.reserve_on then BothOn(c, s, now)
    else if s.in_progress then ProcessTransfer(c, s, now)
    else WhileIdle(c, s, now)
  }

  /** One `task` call, with the inputs sampled at `t` and the decision taken at `now`. */
  function Task(c: Config, s: State, i: Sample, t: nat, now: nat): State {
    var s1 := ApplySample(c, s, i, t);
    if c.enabled then WhileEnabled(c, s1, now) else WhileDisabled(c, s1, now)
  }

  // ----- commands

  /** `begin`, and what both ways of `setControllerEnabled` share. */
  function Reset(c: Config, s: State, now: nat): State {
    Settle(SetRelays(c, s, now, false, false)).(target := Off)
  }

  function SetManual(c: Config, s: State, src: Source, now: nat): State {
    if s.manual == src then s
    else if c.auto_mode then s.(manual := src)
    else StartTransfer(c, s.(manual := src), src, now)
  }
}
