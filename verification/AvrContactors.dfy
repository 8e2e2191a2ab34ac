/** The transfer switch down to its contactors: the controller's relay writes go through the output image, whose applier
    brings them to the pins later and one port at a time. If every relay write is carried by a whole pass of the applier
    within `lag`, less than the break time, the contactors themselves break before they make. */
module AvrContactors {
  import opened Avr
  import opened AvrSafety
  import IoStack

  /** How many of the relay writes the applier's copy of a port, its latch and its pin reflect. */
  datatype Trail = Trail(copied: nat, latched: nat, shown: nat)

  /** The controller, the number of its relay writes that have reached the image, and the output image with its applier.
      The trails are history only: no step depends on them. */
  datatype System = System(cfg: Config, avr: State, done: nat, io: IoStack.State, main: Trail, reserve: Trail)

  datatype Step =
    | Operate(cmd: Command)       // the controller runs a command; its relay writes follow before the next one
    | Output                      // the next relay write reaches the image
    | Scan(step: IoStack.Step)    // a step of the applier, or of another writer

  function Asks(s: System): seq<Ask> { s.avr.relays.trace }

  function PortOf(c: Config, which: Source): nat { if which.Main? then c.relay_main_port else c.relay_reserve_port }

  function InvertOf(c: Config, which: Source): bool {
    if which.Main? then c.relay_main_invert else c.relay_reserve_invert
  }

  function TrailOf(s: System, which: Source): Trail { if which.Main? then s.main else s.reserve }

  predicate IsContactor(which: Source) { which.Main? || which.Reserve? }

  /** The relay is fitted: its port is set and can output. */
  predicate Fitted(b: IoStack.Board, c: Config, which: Source) {
    PortOf(c, which) != INVALID_PORT && IoStack.Drives(b, PortOf(c, which))
  }

  predicate RelayPort(c: Config, port: nat) {
    port != INVALID_PORT && (port == c.relay_main_port || port == c.relay_reserve_port)
  }

  predicate Shaped(b: IoStack.Board, s: System) {
    IoStack.Shaped(b, s.io) && s.done <= |Asks(s)|
  }

  /** Other tasks write other ports. */
  predicate Enabled(b: IoStack.Board, s: System, step: Step)
    requires Shaped(b, s)
  {
    match step
    case Operate(_) => s.done == |Asks(s)|
    case Output => s.done < |Asks(s)|
    case Scan(st) => IoStack.Enabled(b, s.io, st) && !(st.Write? && RelayPort(s.cfg, st.port))
  }

  function Followed(b: IoStack.Board, p: nat, io: IoStack.State, step: IoStack.Step, done: nat, t: Trail): Trail
    requires IoStack.Shaped(b, io) && IoStack.Enabled(b, io, step)
  {
    match step
    case Copy => if io.at.port == p then t.(copied := done) else t
    case Pass => if io.at.port == p then Delivered(b, p, t) else t
    case Drive => if io.at.port == p then Delivered(b, p, t) else t
    case Flush => if IoStack.InRegister(b, p, io.at.reg) then t.(shown := t.latched) else t
    case _ => t
  }

  function Delivered(b: IoStack.Board, p: nat, t: Trail): Trail
    requires IoStack.Drives(b, p)
  {
    t.(latched := t.copied, shown := if b.ports[p].Direct? then t.copied else t.shown)
  }

  function Written(b: IoStack.Board, io: IoStack.State, e: Ask): IoStack.State
    requires IoStack.Shaped(b, io)
  {
    if e.port != INVALID_PORT && IoStack.Drives(b, e.port)
    then IoStack.Next(b, io, IoStack.Write(e.port, e.level)) else io
  }

  function Next(b: IoStack.Board, s: System, step: Step, now: nat): System
    requires Shaped(b, s) && Enabled(b, s, step)
  {
    match step
    case Operate(cmd) => var (c, a) := Do(s.cfg, s.avr, cmd, now); s.(cfg := c, avr := a)
    case Output => s.(done := s.done + 1, io := Written(b, s.io, Asks(s)[s.done]))
    case Scan(st) =>
      s.(io := IoStack.Next(b, s.io, st), main := Followed(b, s.cfg.relay_main_port, s.io, st, s.done, s.main),
         reserve := Followed(b, s.cfg.relay_reserve_port, s.io, st, s.done, s.reserve))
  }

  // ----- what the controller's commands do to the record

  /** New entries are made now. */
  predicate Extends(t: seq<Ask>, t': seq<Ask>, now: nat) {
    t <= t' && forall i :: |t| <= i < |t'| ==> t'[i].at == now
  }

  lemma DrivenExtends(c: Config, s: State, s': State, m: bool, v: bool, now: nat)
    requires s'.relays == Driven(c, s.relays, now, m, v)
    ensures Extends(s.relays.trace, s'.relays.trace, now)
  {
  }

  lemma StartExtends(c: Config, s: State, target: Source, now: nat)
    ensures Extends(s.relays.trace, StartTransfer(c, s, target, now).relays.trace, now)
  {
    if target != s.active { DrivenExtends(c, s, StartTransfer(c, s, target, now), false, false, now); }
  }

  lemma ApplyExtends(c: Config, s: State, now: nat)
    ensures Extends(s.relays.trace, ApplyTarget(c, s, now).relays.trace, now)
  {
    var on := SetRelays(c, s, now, s.target.Main?, s.target.Reserve?);
    DrivenExtends(c, s, on, s.target.Main?, s.target.Reserve?, now);
    if FeedbackBad(c, on) { DrivenExtends(c, on, ApplyTarget(c, s, now), false, false, now); }
  }

  lemma ProcessExtends(c: Config, s: State, now: nat)
    ensures Extends(s.relays.trace, ProcessTransfer(c, s, now).relays.trace, now)
  {
    if Elapsed(now, s.start) > c.transfer_timeout_ms { DrivenExtends(c, s, TimedOut(c, s, now), false, false, now); }
    else if s.phase.Apply? { ApplyExtends(c, s, now); }
  }

  lemma IdleExtends(c: Config, s: State, now: nat)
    ensures Extends(s.relays.trace, WhileIdle(c, s, now).relays.trace, now)
  {
    if s.fault == NoFault {
      if !c.auto_mode {
        StartExtends(c, s, s.manual, now);
      } else {
        var (desired, s') := DecideAuto(c, s, now);
        DecisionOnlyDecides(c, s, now);
        StartExtends(c, s', desired, now);
      }
    }
  }

  lemma TaskExtends(c: Config, s: State, i: Sample, t: nat, now: nat)
    ensures Extends(s.relays.trace, Task(c, s, i, t, now).relays.trace, now)
  {
    var s1 := ApplySample(c, s, i, t);
    if !c.enabled {
      if WhileDisabled(c, s1, now) != s1 { DrivenExtends(c, s1, WhileDisabled(c, s1, now), false, false, now); }
    } else if s1.relays.main_on && s1.relays.reserve_on {
      DrivenExtends(c, s1, BothOn(c, s1, now), false, false, now);
    } else if s1.in_progress {
      ProcessExtends(c, s1, now);
    } else {
      IdleExtends(c, s1, now);
    }
  }

  predicate SameWiring(c: Config, c': Config) {
    c' == c.(enabled := c'.enabled, auto_mode := c'.auto_mode, prefer_main := c'.prefer_main,
             auto_return_main := c'.auto_return_main)
  }

  lemma CommandExtends(c: Config, s: State, cmd: Command, now: nat)
    ensures var (c', s') := Do(c, s, cmd, now);
      SameWiring(c, c') && Extends(s.relays.trace, s'.relays.trace, now)
  {
    match cmd
    case Tick(i, t) => TaskExtends(c, s, i, t, now);
    case Manual(src) => StartExtends(c, s.(manual := src), src, now);
    case Begin => DrivenExtends(c, s, Reset(c, s, now), false, false, now);
    case Enable(on) => DrivenExtends(c, s, Reset(c, s, now), false, false, now);
    case _ =>
  }

  // ----- the invariant

  /** After `n` relay writes the contactor is asked closed. */
  predicate AskedAfter(t: seq<Ask>, n: nat, which: Source) {
    n > 0 && AskedAt(t, n - 1, which)
  }

  predicate AskedAt(t: seq<Ask>, i: nat, which: Source) {
    i < |t| && if which.Main? then t[i].main else t[i].reserve
  }

  /** Image, copy, latch and pin of port `p` are those of the writes its trail counts. */
  predicate Reflects(
      b: IoStack.Board, io: IoStack.State, p: nat, invert: bool, asks: seq<Ask>, done: nat, which: Source, t: Trail)
    requires IoStack.Shaped(b, io) && IoStack.Drives(b, p)
  {
    && ((io.outputs[p] != invert) <==> AskedAfter(asks, done, which))
    && ((io.latch[p] != invert) <==> AskedAfter(asks, t.latched, which))
    && ((io.hw[p] != invert) <==> AskedAfter(asks, t.shown, which))
    && (Holding(io.at, p) ==> ((io.at.level != invert) <==> AskedAfter(asks, t.copied, which)))
  }

  predicate Holding(at: IoStack.Applier, p: nat) { (at.Copied? || at.Wrote?) && at.port == p }

  predicate TrailOk(b: IoStack.Board, s: System, which: Source)
    requires Shaped(b, s)
  {
    var t := TrailOf(s, which);
    && t.shown <= t.latched <= t.copied <= s.done
    && (Fitted(b, s.cfg, which) ==>
          Reflects(b, s.io, PortOf(s.cfg, which), InvertOf(s.cfg, which), Asks(s), s.done, which, t))
  }

  ghost predicate Inv(b: IoStack.Board, s: System, now: nat) {
    && Shaped(b, s) && IoStack.Inv(b, s.io)
    && Safe(s.cfg, s.avr, now)
    && TrailOk(b, s, Main) && TrailOk(b, s, Reserve)
  }

  lemma LongerRecord(t: seq<Ask>, t': seq<Ask>, n: nat, which: Source)
    requires t <= t' && n <= |t|
    ensures AskedAfter(t', n, which) <==> AskedAfter(t, n, which)
  {
  }

  lemma OperateKeeps(b: IoStack.Board, s: System, cmd: Command, before: nat, now: nat)
    requires Inv(b, s, before) && before <= now && (cmd.Tick? ==> before <= cmd.sampled <= now)
    requires Enabled(b, s, Operate(cmd))
    ensures Inv(b, Next(b, s, Operate(cmd), now), now)
  {
    StepIsSafe(s.cfg, s.avr, cmd, before, now);
    CommandExtends(s.cfg, s.avr, cmd, now);
    var s' := Next(b, s, Operate(cmd), now);
    RecordedLonger(b, s, s', Main);
    RecordedLonger(b, s, s', Reserve);
  }

  lemma RecordedLonger(b: IoStack.Board, s: System, s': System, which: Source)
    requires Shaped(b, s) && Shaped(b, s') && TrailOk(b, s, which) && SameWiring(s.cfg, s'.cfg) && Asks(s) <= Asks(s')
    requires s' == s.(cfg := s'.cfg, avr := s'.avr)
    ensures TrailOk(b, s', which)
  {
    var t := TrailOf(s, which);
    LongerRecord(Asks(s), Asks(s'), s.done, which);
    LongerRecord(Asks(s), Asks(s'), t.copied, which);
    LongerRecord(Asks(s), Asks(s'), t.latched, which);
    LongerRecord(Asks(s), Asks(s'), t.shown, which);
  }

  lemma OutputKeeps(b: IoStack.Board, s: System, before: nat, now: nat)
    requires Inv(b, s, before) && before <= now && Enabled(b, s, Output)
    ensures Inv(b, Next(b, s, Output, now), now)
  {
    var e := Asks(s)[s.done];
    if e.port != INVALID_PORT && IoStack.Drives(b, e.port) {
      IoStack.StepKeepsInv(b, s.io, IoStack.Write(e.port, e.level));
    }
    SafeLater(s.cfg, s.avr, before, now);
    OutputTrail(b, s, now, Main);
    OutputTrail(b, s, now, Reserve);
  }

  lemma OutputTrail(b: IoStack.Board, s: System, now: nat, which: Source)
    requires Shaped(b, s) && TrailOk(b, s, which) && Enabled(b, s, Output) && TraceOk(s.cfg, Asks(s)) &&
      IsContactor(which)
    ensures TrailOk(b, Next(b, s, Output, now), which)
  {
    assert EntryOk(s.cfg, Asks(s), s.done);
    WriteAsks(s.cfg, Asks(s), s.done, which);
    if Fitted(b, s.cfg, which) {
      WriteReflects(b, s.io, PortOf(s.cfg, which), InvertOf(s.cfg, which), Asks(s), s.done, which, TrailOf(s, which));
    }
  }

  /** What is asked of a contactor after the next write. */
  lemma WriteAsks(c: Config, asks: seq<Ask>, n: nat, which: Source)
    requires n < |asks| && EntryOk(c, asks, n) && IsContactor(which)
    ensures var e := asks[n];
      AskedAfter(asks, n + 1, which) <==>
        if e.port == PortOf(c, which) != INVALID_PORT then e.level != InvertOf(c, which) else AskedAfter(asks, n, which)
  {
  }

  lemma WriteReflects(
      b: IoStack.Board, io: IoStack.State, p: nat, invert: bool, asks: seq<Ask>, n: nat, which: Source, t: Trail)
    requires IoStack.Shaped(b, io) && IoStack.Drives(b, p) && p != INVALID_PORT && n < |asks|
    requires Reflects(b, io, p, invert, asks, n, which, t)
    requires AskedAfter(asks, n + 1, which) <==>
      if asks[n].port == p then asks[n].level != invert else AskedAfter(asks, n, which)
    ensures Reflects(b, Written(b, io, asks[n]), p, invert, asks, n + 1, which, t)
  {
  }

  lemma ApplyKeeps(b: IoStack.Board, s: System, st: IoStack.Step, before: nat, now: nat)
    requires Inv(b, s, before) && before <= now && Enabled(b, s, Scan(st))
    ensures Inv(b, Next(b, s, Scan(st), now), now)
  {
    IoStack.StepKeepsInv(b, s.io, st);
    SafeLater(s.cfg, s.avr, before, now);
    ApplyTrail(b, s, st, now, Main);
    ApplyTrail(b, s, st, now, Reserve);
  }

  lemma ApplyTrail(b: IoStack.Board, s: System, st: IoStack.Step, now: nat, which: Source)
    requires Shaped(b, s) && IoStack.Inv(b, s.io) && TrailOk(b, s, which) && Enabled(b, s, Scan(st)) &&
      IsContactor(which)
    ensures TrailOk(b, Next(b, s, Scan(st), now), which)
  {
    var p := PortOf(s.cfg, which);
    if Fitted(b, s.cfg, which) {
      if st.Copy? || st.Pass? || st.Drive? || st.Commit? {
        VisitReflects(b, s.io, st, p, InvertOf(s.cfg, which), Asks(s), s.done, which, TrailOf(s, which));
      } else {
        OtherReflects(b, s.io, st, p, InvertOf(s.cfg, which), Asks(s), s.done, which, TrailOf(s, which));
      }
    }
  }

  lemma VisitReflects(
      b: IoStack.Board, io: IoStack.State, st: IoStack.Step, p: nat, invert: bool, asks: seq<Ask>, n: nat,
      which: Source, t: Trail)
    requires IoStack.Inv(b, io) && IoStack.Drives(b, p) && IoStack.Enabled(b, io, st)
    requires st.Copy? || st.Pass? || st.Drive? || st.Commit?
    requires Reflects(b, io, p, invert, asks, n, which, t)
    ensures Reflects(b, IoStack.Next(b, io, st), p, invert, asks, n, which, Followed(b, p, io, st, n, t))
  {
    assert IoStack.Shows(b, io, p);
  }

  lemma OtherReflects(
      b: IoStack.Board, io: IoStack.State, st: IoStack.Step, p: nat, invert: bool, asks: seq<Ask>, n: nat,
      which: Source, t: Trail)
    requires IoStack.Inv(b, io) && IoStack.Drives(b, p) && IoStack.Enabled(b, io, st)
    requires st.Begin? || st.Skip? || st.StartFlush? || st.Flush? || st.End? || (st.Write? && st.port != p)
    requires Reflects(b, io, p, invert, asks, n, which, t)
    ensures Reflects(b, IoStack.Next(b, io, st), p, invert, asks, n, which, Followed(b, p, io, st, n, t))
  {
  }

  lemma {:induction false} StepKeepsInv(b: IoStack.Board, s: System, step: Step, before: nat, now: nat)
    requires Inv(b, s, before) && before <= now && Enabled(b, s, step)
    requires step.Operate? && step.cmd.Tick? ==> before <= step.cmd.sampled <= now
    ensures Inv(b, Next(b, s, step, now), now)
  {
    match step
    case Operate(cmd) => OperateKeeps(b, s, cmd, before, now);
    case Output => OutputKeeps(b, s, before, now);
    case Scan(st) => ApplyKeeps(b, s, st, before, now);
  }

  // ----- runs

  /** A run from time `from` on: step `k` leads from state `k` to the next, at time `until[k]`; the last entry is the
      end of the observation. */
  datatype Run = Run(board: IoStack.Board, states: seq<System>, steps: seq<Step>, until: seq<nat>, from: nat)

  /** When state `k` is entered. */
  function Entered(r: Run, k: nat): nat
    requires k <= |r.until|
  {
    if k == 0 then r.from else r.until[k - 1]
  }

  ghost predicate StepAt(r: Run, k: nat)
    requires k < |r.steps| && |r.states| == |r.until| == |r.steps| + 1
  {
    && Shaped(r.board, r.states[k]) && Enabled(r.board, r.states[k], r.steps[k])
    && r.states[k + 1] == Next(r.board, r.states[k], r.steps[k], r.until[k])
    && Entered(r, k) <= r.until[k]
    && (r.steps[k].Operate? && r.steps[k].cmd.Tick? ==> Entered(r, k) <= r.steps[k].cmd.sampled <= r.until[k])
  }

  /** The system comes up: `begin` has left both contactors asked open, and the ports show it. */
  ghost predicate ComesUp(b: IoStack.Board, s: System, from: nat) {
    && Inv(b, s, from) && s.io.at.Resting?
    && Asks(s) == [] && s.done == 0 && s.main == Trail(0, 0, 0) && s.reserve == Trail(0, 0, 0)
  }

  ghost predicate IsRun(r: Run) {
    && |r.states| == |r.until| == |r.steps| + 1
    && ComesUp(r.board, r.states[0], r.from)
    && (forall k :: 0 <= k < |r.states| ==> Shaped(r.board, r.states[k]))
    && (forall k :: 0 <= k < |r.steps| ==> StepAt(r, k))
    && Entered(r, |r.steps|) <= r.until[|r.steps|]
  }

  /** At power-up, once the outputs are enabled: no port dirty, every relay port on the level the image has for it. */
  lemma {:induction false} PowerUpComesUp(b: IoStack.Board, c: Config, a: State, io: IoStack.State, from: nat)
    requires PoweredUp(c, a) && (c.enabled || !InvertedRelay(c))
    requires IoStack.Inv(b, io) && io.at.Resting?
    requires forall p: nat :: RelayPort(c, p) && IoStack.Drives(b, p) ==>
      !io.dirty[p] && io.outputs[p] == LevelIn(Booted(c, a, from).relays.image, p)
    ensures ComesUp(b, System(c, Booted(c, a, from), 0, io, Trail(0, 0, 0), Trail(0, 0, 0)), from)
  {
    BootIsOpen(c, a, from);
    var s := System(c, Booted(c, a, from), 0, io, Trail(0, 0, 0), Trail(0, 0, 0));
    ComesUpOpen(b, s, Main);
    ComesUpOpen(b, s, Reserve);
  }

  function LevelIn(image: map<nat, bool>, p: nat): bool { p in image && image[p] }

  lemma ComesUpOpen(b: IoStack.Board, s: System, which: Source)
    requires Shaped(b, s) && IoStack.Inv(b, s.io) && s.io.at.Resting? && IsContactor(which)
    requires s.done == 0 && TrailOf(s, which) == Trail(0, 0, 0)
    requires var p, image := PortOf(s.cfg, which), s.avr.relays.image;
      && !Asked(image, p, InvertOf(s.cfg, which))
      && (Fitted(b, s.cfg, which) ==> !s.io.dirty[p] && s.io.outputs[p] == LevelIn(image, p))
    ensures TrailOk(b, s, which)
  {
    var p := PortOf(s.cfg, which);
    if Fitted(b, s.cfg, which) { assert IoStack.Agrees(s.io, p) && IoStack.Shows(b, s.io, p); }
  }

  lemma {:induction false} RunKeepsInv(r: Run, k: nat)
    requires IsRun(r) && k <= |r.steps|
    ensures Inv(r.board, r.states[k], Entered(r, k))
  {
    if k == 0 {
    } else {
      RunKeepsInv(r, k - 1);
      assert StepAt(r, k - 1);
      StepKeepsInv(r.board, r.states[k - 1], r.steps[k - 1], Entered(r, k - 1), r.until[k - 1]);
    }
  }

  /** Nothing that has happened is undone: records and trails only grow, and new entries carry the time of their
      step. */
  predicate Grows(s: System, s': System, now: nat) {
    && SameWiring(s.cfg, s'.cfg)
    && Extends(Asks(s), Asks(s'), now)
    && TrailGrows(s.main, s'.main) && TrailGrows(s.reserve, s'.reserve)
  }

  predicate TrailGrows(t: Trail, t': Trail) {
    t.latched <= t'.latched && t.shown <= t'.shown
  }

  lemma StepGrows(b: IoStack.Board, s: System, step: Step, before: nat, now: nat)
    requires Inv(b, s, before) && Enabled(b, s, step)
    ensures Grows(s, Next(b, s, step, now), now)
  {
    match step
    case Operate(cmd) => CommandExtends(s.cfg, s.avr, cmd, now);
    case _ =>
  }

  /** The same over many steps, the first of them at time `since`. */
  predicate Grown(s: System, s': System, since: nat) {
    && SameWiring(s.cfg, s'.cfg)
    && Asks(s) <= Asks(s') && (forall i :: |Asks(s)| <= i < |Asks(s')| ==> Asks(s')[i].at >= since)
    && TrailGrows(s.main, s'.main) && TrailGrows(s.reserve, s'.reserve)
  }

  lemma GrownFurther(s: System, s1: System, s2: System, since: nat, now: nat)
    requires Grown(s, s1, since) && Grows(s1, s2, now) && since <= now
    ensures Grown(s, s2, since)
  {
  }

  lemma {:induction false} RunGrows(r: Run, j: nat, k: nat)
    requires IsRun(r) && j <= k <= |r.steps|
    ensures Grown(r.states[j], r.states[k], r.until[j])
    decreases k
  {
    if j == k {
    } else {
      RunGrows(r, j, k - 1);
      RunKeepsInv(r, k - 1);
      assert StepAt(r, k - 1);
      StepGrows(r.board, r.states[k - 1], r.steps[k - 1], Entered(r, k - 1), r.until[k - 1]);
      TimesOrdered(r, j, k - 1);
      GrownFurther(r.states[j], r.states[k - 1], r.states[k], r.until[j], r.until[k - 1]);
    }
  }

  lemma {:induction false} TimesOrdered(r: Run, j: nat, k: nat)
    requires IsRun(r) && j <= k <= |r.steps|
    ensures r.until[j] <= r.until[k] && Entered(r, k) <= r.until[k]
    decreases k
  {
    if k < |r.steps| { assert StepAt(r, k); }
    if j >= k {
    } else {
      TimesOrdered(r, j, k - 1);
    }
  }

  // ----- what a whole pass does

  /** A pass of the applier began after write `n` had reached the image, and what it has done so far for port `p`. */
  predicate Carrying(b: IoStack.Board, p: nat, at: IoStack.Applier, t: Trail, n: nat)
    requires IoStack.Drives(b, p)
  {
    match at
    case Resting => false
    case At(q) => p < q ==> Carried(b, p, t, n)
    case Copied(q, _, _) => (p == q ==> t.copied > n) && (p < q ==> Carried(b, p, t, n))
    case Wrote(q, _) => p <= q ==> Carried(b, p, t, n)
    case Flushing(r) => Carried(b, p, t, n) && (b.ports[p].Expander? && b.ports[p].reg < r ==> t.shown > n)
  }

  predicate Carried(b: IoStack.Board, p: nat, t: Trail, n: nat)
    requires IoStack.Drives(b, p)
  {
    t.latched > n && (b.ports[p].Direct? ==> t.shown > n)
  }

  lemma CarryingGoesOn(b: IoStack.Board, p: nat, io: IoStack.State, st: IoStack.Step, done: nat, t: Trail, n: nat)
    requires IoStack.Inv(b, io) && IoStack.Drives(b, p) && IoStack.Enabled(b, io, st)
    requires Carrying(b, p, io.at, t, n) && done > n
    ensures var t' := Followed(b, p, io, st, done, t);
      if st.End? then t'.latched > n && t'.shown > n else Carrying(b, p, IoStack.Next(b, io, st).at, t', n)
  {
  }

  /** Once write `n` has been carried by a whole pass, the pin shows it, or a later one. */
  ghost predicate PassedSince(r: Run, n: nat, j: nat)
    requires j <= |r.steps| < |r.states|
  {
    exists i, e :: 0 <= i < e < j && PassFrom(r, n, i, e)
  }

  predicate PassFrom(r: Run, n: nat, i: nat, e: nat)
    requires i < |r.steps| && e < |r.steps| < |r.states|
  {
    r.steps[i] == Scan(IoStack.Begin) && r.steps[e] == Scan(IoStack.End) && r.states[i].done > n
  }

  predicate Shown(s: System, which: Source, n: nat) {
    TrailOf(s, which).latched > n && TrailOf(s, which).shown > n
  }

  predicate UnderWay(b: IoStack.Board, s: System, which: Source, n: nat) {
    && Fitted(b, s.cfg, which) && s.done > n
    && (Shown(s, which, n) || Carrying(b, PortOf(s.cfg, which), s.io.at, TrailOf(s, which), n))
  }

  lemma UnderWayGoesOn(b: IoStack.Board, s: System, step: Step, which: Source, n: nat, before: nat, now: nat)
    requires Inv(b, s, before) && Enabled(b, s, step) && IsContactor(which) && UnderWay(b, s, which, n)
    ensures UnderWay(b, Next(b, s, step, now), which, n)
    ensures step == Scan(IoStack.End) ==> Shown(Next(b, s, step, now), which, n)
  {
    StepGrows(b, s, step, before, now);
    if step.Scan? && !Shown(s, which, n) {
      CarryingGoesOn(b, PortOf(s.cfg, which), s.io, step.step, s.done, TrailOf(s, which), n);
    }
  }

  lemma StaysFitted(r: Run, which: Source, k: nat)
    requires IsRun(r) && k <= |r.steps|
    ensures Fitted(r.board, r.states[k].cfg, which) <==> Fitted(r.board, r.states[0].cfg, which)
  {
    RunGrows(r, 0, k);
  }

  lemma BeginCarries(b: IoStack.Board, s: System, which: Source, n: nat, now: nat)
    requires Shaped(b, s) && Enabled(b, s, Scan(IoStack.Begin)) && IsContactor(which) && Fitted(b, s.cfg, which) &&
      s.done > n
    ensures UnderWay(b, Next(b, s, Scan(IoStack.Begin), now), which, n)
  {
  }

  lemma StepUnderWay(r: Run, which: Source, n: nat, k: nat)
    requires IsRun(r) && k < |r.steps| && IsContactor(which) && UnderWay(r.board, r.states[k], which, n)
    ensures UnderWay(r.board, r.states[k + 1], which, n)
    ensures r.steps[k] == Scan(IoStack.End) ==> Shown(r.states[k + 1], which, n)
  {
    RunKeepsInv(r, k);
    assert StepAt(r, k);
    UnderWayGoesOn(r.board, r.states[k], r.steps[k], which, n, Entered(r, k), r.until[k]);
  }

  lemma PassStarts(r: Run, which: Source, n: nat, i: nat)
    requires IsRun(r) && IsContactor(which) && i < |r.steps|
    requires r.steps[i] == Scan(IoStack.Begin) && r.states[i].done > n && Fitted(r.board, r.states[0].cfg, which)
    ensures UnderWay(r.board, r.states[i + 1], which, n)
  {
    StaysFitted(r, which, i);
    assert StepAt(r, i);
    BeginCarries(r.board, r.states[i], which, n, r.until[i]);
  }

  lemma {:induction false} PassUnderWay(r: Run, which: Source, n: nat, i: nat, j: nat)
    requires IsRun(r) && IsContactor(which) && i < j <= |r.steps|
    requires r.steps[i] == Scan(IoStack.Begin) && r.states[i].done > n && Fitted(r.board, r.states[0].cfg, which)
    ensures UnderWay(r.board, r.states[j], which, n)
    decreases j
  {
    if i + 1 == j {
      PassStarts(r, which, n, i);
    } else {
      PassUnderWay(r, which, n, i, j - 1);
      StepUnderWay(r, which, n, j - 1);
    }
  }

  /** A whole pass shows on the pins every write made before it began. */
  lemma {:induction false} PassShows(r: Run, which: Source, n: nat, j: nat)
    requires IsRun(r) && IsContactor(which) && j <= |r.steps|
    requires PassedSince(r, n, j) && Fitted(r.board, r.states[0].cfg, which)
    ensures TrailOf(r.states[j], which).shown > n
  {
    var i, e :| 0 <= i < e < j && PassFrom(r, n, i, e);
    PassUnderWay(r, which, n, i, e);
    StepUnderWay(r, which, n, e);
    RunGrows(r, e + 1, j);
  }

  // ----- the record of asks

  /** Since which entry the contactor has been asked closed. */
  lemma ClosedSince(t: seq<Ask>, m: nat, which: Source) returns (k: nat)
    requires AskedAt(t, m, which)
    ensures k <= m && (if which.Main? then MainCloses(t, k) else ReserveCloses(t, k))
    ensures forall i :: k <= i <= m ==> AskedAt(t, i, which)
  {
    if m == 0 || !AskedAt(t, m - 1, which) {
      k := m;
    } else {
      k := ClosedSince(t, m - 1, which);
    }
  }

  function DelayOf(c: Config, which: Source): nat { c.break_ms + if which.Main? then 0 else c.warmup_ms }

  /** Where the open interval before a closing starts. */
  lemma OpenBefore(c: Config, t: seq<Ask>, m: nat, which: Source) returns (q: nat, k: nat)
    requires TraceOk(c, t) && AskedAt(t, m, which) && IsContactor(which)
    ensures q < k <= m && t[q].at + DelayOf(c, which) <= t[m].at
    ensures forall i :: q <= i < k ==> Open(t[i])
    ensures forall i :: k <= i <= m ==> AskedAt(t, i, which)
  {
    k := ClosedSince(t, m, which);
    assert EntryOk(c, t, k);
    q :| 0 <= q < k && t[q].at + DelayOf(c, which) <= t[k].at && forall j :: q <= j < k ==> Open(t[j]);
    RecordOrdered(c, t, k, m);
  }

  lemma RecordOrdered(c: Config, t: seq<Ask>, i: nat, j: nat)
    requires TraceOk(c, t) && i <= j < |t|
    ensures t[i].at <= t[j].at
    decreases j
  {
    if i >= j {
    } else {
      RecordOrdered(c, t, i, j - 1);
      assert EntryOk(c, t, j);
    }
  }

  function OtherThan(which: Source): Source { if which.Main? then Reserve else Main }

  /** A contactor asked closed after the other was: the opening between them came at least the break time earlier. */
  lemma {:induction false} Gap(c: Config, t: seq<Ask>, n: nat, m: nat, which: Source)
    requires TraceOk(c, t) && n < m && IsContactor(which)
    requires AskedAt(t, n, OtherThan(which)) && AskedAt(t, m, which)
    ensures t[n + 1].at + c.break_ms <= t[m].at
  {
    var q, k := OpenBefore(c, t, m, which);
    assert EntryOk(c, t, n);
    assert !Open(t[n]) && !AskedAt(t, n, which);
    RecordOrdered(c, t, n + 1, q);
  }

  // ----- the contactors

  /** The contactor itself: a fitted relay whose pin closes it. */
  predicate Closed(b: IoStack.Board, s: System, which: Source)
    requires Shaped(b, s)
  {
    Fitted(b, s.cfg, which) && s.io.hw[PortOf(s.cfg, which)] != InvertOf(s.cfg, which)
  }

  /** Every relay write is carried by a whole pass of the applier within `lag` of the time the controller made it. */
  ghost predicate Prompt(r: Run, lag: nat)
    requires |r.states| == |r.until| == |r.steps| + 1
  {
    forall n: nat, j: nat :: j <= |r.steps| && Overdue(r.states[j], r.until[j], n, lag) ==> PassedSince(r, n, j)
  }

  predicate Overdue(s: System, until: nat, n: nat, lag: nat) {
    n < |Asks(s)| && Asks(s)[n].at + lag < until
  }

  /** Relay writes reach the image within `w` of the time the controller made them. */
  ghost predicate ReachesImage(r: Run, w: nat)
    requires |r.states| == |r.until|
  {
    forall n: nat, j: nat :: j < |r.states| && Overdue(r.states[j], r.until[j], n, w) ==> ReachedBy(r, n, j, w)
  }

  ghost predicate ReachedBy(r: Run, n: nat, j: nat, w: nat)
    requires j < |r.states| == |r.until| && n < |Asks(r.states[j])|
  {
    exists x :: 0 <= x <= j && r.states[x].done > n && Entered(r, x) <= Asks(r.states[j])[n].at + w
  }

  /** In every stretch of time longer than `p` the applier makes a whole pass. */
  ghost predicate PassesEvery(r: Run, p: nat)
    requires |r.until| == |r.steps| + 1
  {
    forall x: nat, j: nat :: x <= j <= |r.steps| && Longer(r, x, j, p) ==> PassWithin(r, x, j)
  }

  predicate Longer(r: Run, x: nat, j: nat, p: nat)
    requires x <= |r.until| && j < |r.until|
  {
    Entered(r, x) + p < r.until[j]
  }

  ghost predicate PassWithin(r: Run, x: nat, j: nat)
    requires j <= |r.steps|
  {
    exists i, e :: x <= i < e < j && IsPass(r, i, e)
  }

  predicate IsPass(r: Run, i: nat, e: nat)
    requires i < |r.steps| && e < |r.steps|
  {
    r.steps[i] == Scan(IoStack.Begin) && r.steps[e] == Scan(IoStack.End)
  }

  /** Promptness from the two delays a write meets: reaching the image, and waiting for a whole pass. */
  lemma {:induction false} FrequentPassesArePrompt(r: Run, w: nat, p: nat)
    requires IsRun(r)
    requires ReachesImage(r, w) && PassesEvery(r, p)
    ensures Prompt(r, w + p)
  {
    forall n: nat, j: nat | j <= |r.steps| && Overdue(r.states[j], r.until[j], n, w + p)
      ensures PassedSince(r, n, j)
    {
      assert Overdue(r.states[j], r.until[j], n, w);
      var x :| 0 <= x <= j && r.states[x].done > n && Entered(r, x) <= Asks(r.states[j])[n].at + w;
      assert Longer(r, x, j, p);
      var i, e :| x <= i < e < j && IsPass(r, i, e);
      DoneGrows(r, x, i);
      assert PassFrom(r, n, i, e);
    }
  }

  lemma {:induction false} DoneGrows(r: Run, j: nat, k: nat)
    requires IsRun(r) && j <= k <= |r.steps|
    ensures r.states[j].done <= r.states[k].done
    decreases k
  {
    if j == k {
    } else {
      DoneGrows(r, j, k - 1);
      assert StepAt(r, k - 1);
    }
  }

  /** A contactor that is closed shows a write that asks for it, and the write after that is recent. */
  lemma ClosedShows(r: Run, lag: nat, which: Source, k: nat) returns (n: nat)
    requires IsRun(r) && Prompt(r, lag) && IsContactor(which)
    requires k <= |r.steps| && Closed(r.board, r.states[k], which)
    ensures n + 1 == TrailOf(r.states[k], which).shown && AskedAt(Asks(r.states[k]), n, which)
    ensures n + 1 < |Asks(r.states[k])| ==> r.until[k] <= Asks(r.states[k])[n + 1].at + lag
  {
    RunKeepsInv(r, k);
    n := TrailOf(r.states[k], which).shown - 1;
    if Overdue(r.states[k], r.until[k], n + 1, lag) {
      RunGrows(r, 0, k);
      PassShows(r, which, n + 1, k);
    }
  }

  lemma RecordIsPast(r: Run, k: nat, n: nat)
    requires IsRun(r) && k <= |r.steps| && n < |Asks(r.states[k])|
    ensures TraceOk(r.states[k].cfg, Asks(r.states[k])) && Asks(r.states[k])[n].at <= Entered(r, k) <= r.until[k]
  {
    RunKeepsInv(r, k);
    RecordOrdered(r.states[k].cfg, Asks(r.states[k]), n, |Asks(r.states[k])| - 1);
    TimesOrdered(r, k, k);
  }

  /** If relay writes take less than the break time to the pins, the two contactors are never both closed, under every
      interleaving of controller, applier and other writers. */
  lemma {:induction false} NeverBothClosed(r: Run, lag: nat, k: nat)
    requires IsRun(r) && Prompt(r, lag)
    requires lag < r.states[0].cfg.break_ms && k <= |r.steps|
    ensures !(Closed(r.board, r.states[k], Main) && Closed(r.board, r.states[k], Reserve))
  {
    if Closed(r.board, r.states[k], Main) && Closed(r.board, r.states[k], Reserve) {
      var n := ClosedShows(r, lag, Main, k);
      var m := ClosedShows(r, lag, Reserve, k);
      var t := Asks(r.states[k]);
      RecordIsPast(r, k, n);
      RecordIsPast(r, k, m);
      RunGrows(r, 0, k);
      NotBoth(r.states[k].cfg, t, n, m);
      if n < m { Gap(r.states[k].cfg, t, n, m, Reserve); } else { Gap(r.states[k].cfg, t, m, n, Main); }
    }
  }

  lemma NotBoth(c: Config, t: seq<Ask>, n: nat, m: nat)
    requires TraceOk(c, t) && AskedAt(t, n, Main) && AskedAt(t, m, Reserve)
    ensures n != m
  {
    assert EntryOk(c, t, n);
  }

  /** From `lag` after a write on, the pins show it or a later one. */
  lemma ShownByNow(r: Run, lag: nat, which: Source, j: nat, k: nat, q: nat)
    requires IsRun(r) && Prompt(r, lag) && IsContactor(which)
    requires j <= k <= |r.steps| && Fitted(r.board, r.states[j].cfg, which)
    requires q < |Asks(r.states[k])| && Asks(r.states[k])[q].at + lag < r.until[j]
    ensures TrailOf(r.states[j], which).shown > q
  {
    RunGrows(r, 0, j);
    RunGrows(r, j, k);
    assert Overdue(r.states[j], r.until[j], q, lag);
    PassShows(r, which, q, j);
  }

  /** While the pin is open, what it shows comes before the closing that is still to come. */
  lemma ShownBeforeClosing(r: Run, which: Source, j: nat, k: nat, t: seq<Ask>, first: nat, m: nat)
    requires IsRun(r) && IsContactor(which) && j <= k < |r.steps| && t == Asks(r.states[k + 1])
    requires Fitted(r.board, r.states[k].cfg, which) && !Closed(r.board, r.states[k], which)
    requires TrailOf(r.states[k + 1], which).shown == m + 1
    requires forall i :: first <= i <= m ==> AskedAt(t, i, which)
    ensures TrailOf(r.states[j], which).shown <= first
  {
    RunGrows(r, j, k);
    RunGrows(r, k, k + 1);
    RunKeepsInv(r, k);
    var n := TrailOf(r.states[k], which).shown;
    assert !AskedAfter(Asks(r.states[k]), n, which);
    assert n > 0 ==> !AskedAt(t, n - 1, which);
  }

  /** The facts a closing at step `k` rests on: write `m` is shown after it, both were asked open from write `q` to the
      one before `first`, and the contactor asked closed from `first` to `m`. */
  ghost predicate ClosesOn(r: Run, lag: nat, which: Source, k: nat, m: nat, q: nat, first: nat)
    requires k + 1 < |r.states| == |r.until|
  {
    var c, t := r.states[k + 1].cfg, Asks(r.states[k + 1]);
    && TraceOk(c, t) && q < first <= m < |t| && TrailOf(r.states[k + 1], which).shown == m + 1
    && (forall i :: q <= i < first ==> Open(t[i]))
    && (forall i :: first <= i <= m ==> AskedAt(t, i, which))
    && t[q].at + DelayOf(c, which) <= t[m].at <= r.until[k]
    && (m + 1 < |t| ==> r.until[k + 1] <= t[m + 1].at + lag)
  }

  lemma SameStaysOpen(r: Run, lag: nat, which: Source, k: nat, j: nat, m: nat, q: nat, first: nat)
    requires IsRun(r) && Prompt(r, lag) && IsContactor(which) && j <= k < |r.steps|
    requires ClosesOn(r, lag, which, k, m, q, first) && Asks(r.states[k + 1])[q].at + lag < r.until[j]
    requires !Closed(r.board, r.states[k], which)
    ensures !Closed(r.board, r.states[j], which)
  {
    var t := Asks(r.states[k + 1]);
    RunGrows(r, j, k + 1);
    RunGrows(r, j, k);
    if Closed(r.board, r.states[j], which) {
      var n := ClosedShows(r, lag, which, j);
      NotOpen(t, n, which);
      ShownByNow(r, lag, which, j, k + 1, q);
      ShownBeforeClosing(r, which, j, k, t, first, m);
    }
  }

  lemma NotOpen(t: seq<Ask>, n: nat, which: Source)
    requires AskedAt(t, n, which)
    ensures !Open(t[n])
  {
  }

  lemma OtherStaysOpen(r: Run, lag: nat, which: Source, k: nat, j: nat, m: nat, q: nat, first: nat)
    requires IsRun(r) && Prompt(r, lag) && IsContactor(which) && j <= k < |r.steps|
    requires ClosesOn(r, lag, which, k, m, q, first) && Asks(r.states[k + 1])[q].at + lag < r.until[j]
    requires lag < r.states[k + 1].cfg.break_ms
    ensures !Closed(r.board, r.states[j], OtherThan(which))
  {
    var c, t, other := r.states[k + 1].cfg, Asks(r.states[k + 1]), OtherThan(which);
    RunGrows(r, j, k + 1);
    if Closed(r.board, r.states[j], other) {
      var n := ClosedShows(r, lag, other, j);
      RecordIsPast(r, k + 1, n);
      NotOpen(t, n, other);
      NeverSame(c, t, n, other);
      ShownByNow(r, lag, other, j, k + 1, q);
      LateGap(c, t, m, n, other);
    }
  }

  lemma NeverSame(c: Config, t: seq<Ask>, n: nat, which: Source)
    requires TraceOk(c, t) && AskedAt(t, n, which) && IsContactor(which)
    ensures !AskedAt(t, n, OtherThan(which))
  {
    assert EntryOk(c, t, n);
  }

  lemma LateGap(c: Config, t: seq<Ask>, m: nat, n: nat, which: Source)
    requires TraceOk(c, t) && IsContactor(which)
    requires AskedAt(t, m, OtherThan(which)) && AskedAt(t, n, which)
    ensures m < n ==> t[m + 1].at + c.break_ms <= t[n].at
  {
    if m < n { Gap(c, t, m, n, which); }
  }

  /** A contactor closes only after both have been open for the break time, and the reserve for the warm-up besides,
      short of `lag`: in every state of which any part lies in that time, both are open. */
  lemma {:induction false} ClosingFollowsBreak(r: Run, lag: nat, which: Source, k: nat, j: nat)
    requires IsRun(r) && Prompt(r, lag) && IsContactor(which)
    requires lag < r.states[0].cfg.break_ms && j <= k < |r.steps|
    requires !Closed(r.board, r.states[k], which) && Closed(r.board, r.states[k + 1], which)
    requires r.until[k] + lag < r.until[j] + DelayOf(r.states[0].cfg, which)
    ensures !Closed(r.board, r.states[j], which) && !Closed(r.board, r.states[j], OtherThan(which))
  {
    var m := ClosedShows(r, lag, which, k + 1);
    RecordIsPast(r, k + 1, m);
    RunGrows(r, 0, k + 1);
    var q, first := OpenBefore(r.states[k + 1].cfg, Asks(r.states[k + 1]), m, which);
    assert ClosesOn(r, lag, which, k, m, q, first);
    SameStaysOpen(r, lag, which, k, j, m, q, first);
    OtherStaysOpen(r, lag, which, k, j, m, q, first);
  }
}
