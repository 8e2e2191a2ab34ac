/** The controller object. Its invariant is the safety of the transfer switch: every operation, at any time, leaves a
    state in which all that was ever asked of the relays keeps break before make. */
module AvrController {
  import opened Clock
  import opened Options
  import opened Avr
  import opened AvrSafety

  lemma ResetIgnoresEnabled(c: Config, s: State, enabled: bool, now: nat)
    ensures Reset(c.(enabled := enabled), s, now) == Reset(c, s, now)
  {
  }

  class AvrController {
    var cfg: Config
    var st: State
    ghost var clock: nat   // when it was last called

    /** At power-up, before the outputs are enabled. */
    constructor (cfg: Config, st: State, boot: nat)
      requires PoweredUp(cfg, st)
      ensures this.cfg == cfg && this.st == st && clock == boot
    {
      this.cfg, this.st, clock := cfg, st, boot;
    }

    ghost predicate Valid()
      reads this
    {
      Safe(cfg, st, clock)
    }

    /** `begin`, at power-up: an enabled controller, or one without inverted relays, is safe from here on. */
    method Begin(now: nat)
      requires PoweredUp(cfg, st) && clock <= now
      modifies this`st, this`clock
      ensures st == Booted(cfg, old(st), now) && clock == now
      ensures cfg.enabled || !InvertedRelay(cfg) ==> Valid() && BreakBeforeMake(cfg, st)
    {
      clock := now;
      BootIsOpen(cfg, st, now);
      if !cfg.enabled { return; }
      Stop_(now);
      var relays := st.relays.(trace := []);   // no pin has followed a write yet
      st := st.(relays := relays);
    }

    /** What `begin`, a disabled `task` and `setControllerEnabled` share. */
    method Stop_(now: nat)
      modifies this`st
      ensures st == Reset(cfg, old(st), now)
    {
      SetRelays_(now, false, false);
      st := st.(active := Off);
      st := st.(target := Off);
      st := st.(phase := Idle);
      st := st.(in_progress := false);
    }

    /** `task`: the inputs are sampled without the lock; `changed` tells that the configuration was changed
        meanwhile, which ends the call. */
    method Task_(sample: Sample, t: nat, now: nat, changed: bool)
      requires Valid() && clock <= t <= now
      modifies this`st, this`clock
      ensures st == if changed then old(st) else Task(cfg, old(st), sample, t, now)
      ensures clock == now && Valid() && BreakBeforeMake(cfg, st)
    {
      SafeLater(cfg, st, clock, t);
      TaskIsSafe(cfg, st, sample, t, now);
      SafeLater(cfg, st, t, now);
      clock := now;
      if !changed { Decide_(sample, t, now); }
    }

    /** The second critical section of `task`. */
    method Decide_(sample: Sample, t: nat, now: nat)
      modifies this`st
      ensures st == Task(cfg, old(st), sample, t, now)
    {
      ApplyInputSample_(sample, t);
      if !cfg.enabled {
        if st.active != Off || st.relays.main_on || st.relays.reserve_on { Stop_(now); }
        return;
      }
      if st.relays.main_on && st.relays.reserve_on {
        BothOn_(now);
        return;
      }
      if st.in_progress {
        ProcessTransfer_(now);
      } else {
        WhileIdle_(now);
      }
    }

    method BothOn_(now: nat)
      modifies this`st
      ensures st == BothOn(cfg, old(st), now)
    {
      SetFault_(Interlock);
      SetRelays_(now, false, false);
      st := st.(active := Off);
      st := st.(in_progress := false);
      st := st.(phase := Idle);
    }

    method WhileIdle_(now: nat)
      modifies this`st
      ensures st == WhileIdle(cfg, old(st), now)
    {
      if st.fault != NoFault {
        if cfg.auto_mode && (st.inputs.main_ok || st.inputs.reserve_ok) { ClearFault(); }
        return;
      }
      var desired := st.manual;
      if cfg.auto_mode { desired := DecideAutoSource_(now); }
      if desired != st.active { StartTransfer_(desired, now); }
    }

    method SetControllerEnabled(enabled: bool, now: nat) returns (changed: bool)
      requires Valid() && clock <= now
      modifies this
      ensures changed == (old(cfg).enabled != enabled)
      ensures cfg == old(cfg).(enabled := enabled)
      ensures st == if !changed then old(st)
                    else if enabled then Reset(cfg, old(st), now)
                    else SetFault(Reset(cfg, old(st), now), NoFault)
      ensures clock == now && Valid() && BreakBeforeMake(cfg, st)
    {
      StepIsSafe(cfg, st, Enable(enabled), clock, now);
      clock := now;
      if cfg.enabled == enabled { return false; }
      ResetIgnoresEnabled(cfg, st, enabled, now);
      cfg := cfg.(enabled := enabled);
      Stop_(now);
      if !enabled { st := st.(fault := NoFault); }
      return true;
    }

    method SetAutoMode(auto_mode: bool, now: nat) returns (changed: bool)
      requires Valid() && clock <= now
      modifies this
      ensures changed == (old(cfg).auto_mode != auto_mode)
      ensures cfg == old(cfg).(auto_mode := auto_mode)
      ensures st == if changed && auto_mode then old(st).(manual := Off) else old(st)
      ensures clock == now && Valid() && BreakBeforeMake(cfg, st)
    {
      StepIsSafe(cfg, st, AutoMode(auto_mode), clock, now);
      clock := now;
      if cfg.auto_mode == auto_mode { return false; }
      cfg := cfg.(auto_mode := auto_mode);
      if auto_mode { st := st.(manual := Off); }
      return true;
    }

    method SetManualSource(src: Source, now: nat) returns (changed: bool)
      requires Valid() && clock <= now
      modifies this`st, this`clock
      ensures changed == (old(st).manual != src)
      ensures st == SetManual(cfg, old(st), src, now)
      ensures clock == now && Valid() && BreakBeforeMake(cfg, st)
    {
      StepIsSafe(cfg, st, Manual(src), clock, now);
      clock := now;
      if st.manual == src { return false; }
      st := st.(manual := src);
      if !cfg.auto_mode { StartTransfer_(src, now); }
      return true;
    }

    method ClearFault()
      modifies this`st
      ensures st == SetFault(old(st), NoFault)
      ensures old(Valid()) ==> Valid()
    {
      st := st.(fault := NoFault);
    }

    method UpdateDebounce_(db: Debounce, value: bool, now: nat) returns (r: Debounce)
      ensures r == UpdateDebounce(cfg, db, value, now)
    {
      r := db;
      if !r.initialized {
        r := r.(initialized := true);
        r := r.(raw := value);
        r := r.(stable := value);
        r := r.(since := now);
        return;
      }
      if r.raw != value {
        r := r.(raw := value);
        r := r.(since := now);
        return;
      }
      if r.stable != r.raw && Elapsed(now, r.since) >= cfg.debounce_ms {
        r := r.(stable := r.raw);
      }
    }

    method ApplyInputSample_(sample: Sample, now: nat)
      modifies this`st
      ensures st == ApplySample(cfg, old(st), sample, now)
    {
      var n := st.inputs;
      var m := Sampled_(n.main_db, sample.main_ok, now);
      var r := Sampled_(n.reserve_db, sample.reserve_ok, now);
      var fm := Sampled_(n.fb_main_db, sample.fb_main, now);
      var fr := Sampled_(n.fb_reserve_db, sample.fb_reserve, now);
      n := n.(main_db := m, reserve_db := r, fb_main_db := fm, fb_reserve_db := fr);
      n := n.(main_ok := m.stable, reserve_ok := r.stable, fb_main_on := fm.stable, fb_reserve_on := fr.stable);
      st := st.(inputs := n);
    }

    method Sampled_(db: Debounce, value: Option<bool>, now: nat) returns (r: Debounce)
      ensures r == Debounced(cfg, db, value, now)
    {
      r := db;
      if value.Some? { r := UpdateDebounce_(db, value.value, now); }
    }

    method SetRelays_(now: nat, main_on: bool, reserve_on: bool)
      modifies this`st
      ensures st == SetRelays(cfg, old(st), now, main_on, reserve_on)
    {
      var m, r := main_on, reserve_on;
      if m && r {
        m := false;
        r := false;
        SetFault_(Interlock);
      }
      st := st.(relays := st.relays.(main_on := m, reserve_on := r));
      WriteRelay_(cfg.relay_main_port, LevelFor(cfg.relay_main_invert, m), now);
      WriteRelay_(cfg.relay_reserve_port, LevelFor(cfg.relay_reserve_invert, r), now);
    }

    /** One guarded `Gpio::writeDyn`, and its record. */
    method WriteRelay_(port: nat, level: bool, now: nat)
      modifies this`st
      ensures st == old(st).(relays := Written(cfg, old(st).relays, port, level, now))
    {
      var image := st.relays.image;
      if port != INVALID_PORT { image := image[port := level]; }
      st := st.(relays := st.relays.(image := image, trace := st.relays.trace + [AskOf(cfg, image, port, level, now)]));
    }

    method SetFault_(f: Fault)
      modifies this`st
      ensures st == SetFault(old(st), f)
    {
      if st.fault == f { return; }
      st := st.(fault := f);
    }

    method DecideAutoSource_(now: nat) returns (choice: Source)
      modifies this`st
      ensures (choice, st) == DecideAuto(cfg, old(st), now)
    {
      if st.active == Main {
        choice := LeaveMain_(now);
      } else if st.active == Reserve {
        choice := LeaveReserve_(now);
      } else {
        st := st.(main_lost_since := 0);
        st := st.(main_ok_since := if st.inputs.main_ok
          then (if !IsUnset(st.main_ok_since) then st.main_ok_since else now) else 0);
        if cfg.prefer_main {
          if st.inputs.main_ok { return Main; }
          if st.inputs.reserve_ok { return Reserve; }
        } else {
          if st.inputs.reserve_ok { return Reserve; }
          if st.inputs.main_ok { return Main; }
        }
        return Off;
      }
    }

    method LeaveMain_(now: nat) returns (choice: Source)
      modifies this`st
      ensures (choice, st) == FromMain(cfg, old(st), now)
    {
      if st.inputs.main_ok {
        st := st.(main_lost_since := 0);
        return Main;
      }
      if IsUnset(st.main_lost_since) { st := st.(main_lost_since := now); }
      if Elapsed(now, st.main_lost_since) < cfg.loss_delay_ms { return Main; }
      if st.inputs.reserve_ok { return Reserve; }
      SetFault_(NoSource);
      return Off;
    }

    method LeaveReserve_(now: nat) returns (choice: Source)
      modifies this`st
      ensures (choice, st) == FromReserve(cfg, old(st), now)
    {
      if cfg.auto_return_main && st.inputs.main_ok {
        if IsUnset(st.main_ok_since) { st := st.(main_ok_since := now); }
        if Elapsed(now, st.main_ok_since) >= cfg.return_delay_ms { return Main; }
      } else {
        st := st.(main_ok_since := 0);
      }
      if st.inputs.reserve_ok { return Reserve; }
      if st.inputs.main_ok { return Main; }
      SetFault_(NoSource);
      return Off;
    }

    method StartTransfer_(target: Source, now: nat)
      modifies this`st
      ensures st == StartTransfer(cfg, old(st), target, now)
    {
      if target == st.active { return; }
      st := st.(target := target);
      st := st.(in_progress := true);
      st := st.(phase := Break);
      st := st.(start := now);
      st := st.(step := now);
      SetRelays_(now, false, false);
    }

    method ProcessTransfer_(now: nat)
      modifies this`st
      ensures st == ProcessTransfer(cfg, old(st), now)
    {
      if Elapsed(now, st.start) > cfg.transfer_timeout_ms {
        TimedOut_(now);
        return;
      }
      match st.phase {
        case Break =>
          if Elapsed(now, st.step) < cfg.break_ms { return; }
          if st.target == Reserve && cfg.warmup_ms > 0 {
            st := st.(phase := Warmup, step := now);
            return;
          }
          st := st.(phase := Apply, step := now);
        case Warmup =>
          if Elapsed(now, st.step) < cfg.warmup_ms { return; }
          st := st.(phase := Apply, step := now);
        case Apply => ApplyTarget_(now);
        case Idle => st := st.(phase := Idle, in_progress := false);
      }
    }

    method TimedOut_(now: nat)
      modifies this`st
      ensures st == TimedOut(cfg, old(st), now)
    {
      SetFault_(TransferTimeout);
      SetRelays_(now, false, false);
      st := st.(active := Off);
      st := st.(in_progress := false);
      st := st.(phase := Idle);
    }

    method ApplyTarget_(now: nat)
      modifies this`st
      ensures st == ApplyTarget(cfg, old(st), now)
    {
      SetRelays_(now, st.target == Main, st.target == Reserve);
      Confirm_(now);
      st := st.(in_progress := false, phase := Idle);
      st := st.(target := st.active);
      st := st.(main_lost_since := 0, main_ok_since := if st.inputs.main_ok then now else 0);
    }

    /** Feedback check and switch-over. */
    method Confirm_(now: nat)
      modifies this`st
      ensures st == Confirm(cfg, old(st), now)
    {
      var main_on, reserve_on := st.target == Main, st.target == Reserve;
      if (cfg.feedback_main_port != INVALID_PORT || cfg.feedback_reserve_port != INVALID_PORT) &&
         ((main_on && !st.inputs.fb_main_on && cfg.feedback_main_port != INVALID_PORT) ||
          (reserve_on && !st.inputs.fb_reserve_on && cfg.feedback_reserve_port != INVALID_PORT))
      {
        Rejected_(now);
      } else {
        st := st.(active := st.target);
        st := st.(switch_count := Add(st.switch_count, 1));
      }
    }

    method Rejected_(now: nat)
      modifies this`st
      ensures st == Rejected(cfg, old(st), now)
    {
      SetFault_(FeedbackMismatch);
      SetRelays_(now, false, false);
      st := st.(active := Off);
    }
  }
}
