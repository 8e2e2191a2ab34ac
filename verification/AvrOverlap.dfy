/** The bound of `AvrContactors` is exact. On every board with two outputs, and for every break time, there is a run
    from power-up in which each relay write is carried by a whole pass within the break time, and both contactors are
    closed. */
module AvrOverlap {
  import opened Clock
  import opened Options
  import opened Avr
  import opened AvrSafety
  import opened AvrContactors
  import IoStack

  // ----- runs made step by step

  function Last(r: Run): System
    requires |r.states| == |r.steps| + 1
  {
    r.states[|r.steps|]
  }

  function Now(r: Run): nat
    requires |r.until| == |r.steps| + 1
  {
    Entered(r, |r.steps|)
  }

  /** A prompt run up to now. The first `carried` writes have been carried by a whole pass, the others were made at
      `since` or later. */
  ghost predicate Fine(r: Run, lag: nat, since: nat, carried: nat) {
    && IsRun(r) && Prompt(r, lag)
    && since <= Now(r) == r.until[|r.steps|]
    && (carried > 0 ==> PassedSince(r, carried - 1, |r.steps|))
    && forall n :: carried <= n < |Asks(Last(r))| ==> Asks(Last(r))[n].at >= since
  }

  function Extended(r: Run, step: Step, now: nat): Run
    requires |r.states| == |r.until| == |r.steps| + 1 && Shaped(r.board, Last(r)) && Enabled(r.board, Last(r), step)
  {
    r.(states := r.states + [Next(r.board, Last(r), step, now)], steps := r.steps + [step],
       until := r.until[..|r.steps|] + [now, now])
  }

  predicate Prolongs(r: Run, r': Run) {
    && r'.board == r.board && r'.from == r.from
    && r.states <= r'.states && r.steps <= r'.steps && |r'.states| == |r'.steps| + 1
  }

  lemma PassedLonger(r: Run, r': Run, n: nat, n': nat, j: nat, j': nat)
    requires |r.states| == |r.steps| + 1 && Prolongs(r, r') && n' <= n && j <= j' && j <= |r.steps| && j' <= |r'.steps|
    requires PassedSince(r, n, j)
    ensures PassedSince(r', n', j')
  {
    var i, e :| 0 <= i < e < j && PassFrom(r, n, i, e);
    assert PassFrom(r', n', i, e);
  }

  predicate Follows(r: Run, step: Step, now: nat)
    requires |r.states| == |r.until| == |r.steps| + 1 && Shaped(r.board, Last(r))
  {
    && Enabled(r.board, Last(r), step) && Now(r) <= now
    && (step.Operate? && step.cmd.Tick? ==> Now(r) <= step.cmd.sampled <= now)
  }

  lemma ExtendedIsRun(r: Run, step: Step, now: nat)
    requires IsRun(r) && Follows(r, step, now)
    ensures IsRun(Extended(r, step, now)) && Prolongs(r, Extended(r, step, now))
    ensures Grows(Last(r), Last(Extended(r, step, now)), now)
  {
    var r', k := Extended(r, step, now), |r.steps|;
    RunKeepsInv(r, k);
    StepKeepsInv(r.board, Last(r), step, Now(r), now);
    StepGrows(r.board, Last(r), step, Now(r), now);
    forall i | 0 <= i < |r'.steps| ensures StepAt(r', i) {
      if i < k { assert StepAt(r, i); }
    }
  }

  /** A step no later than `lag` after `since` keeps the run prompt. */
  lemma Extend(r: Run, step: Step, now: nat, lag: nat, since: nat, carried: nat)
    requires Fine(r, lag, since, carried) && Follows(r, step, now) && now <= since + lag
    ensures var r' := Extended(r, step, now);
      Fine(r', lag, since, carried) && Prolongs(r, r') && Now(r') == now && Grows(Last(r), Last(r'), now)
  {
    var r', k := Extended(r, step, now), |r.steps|;
    ExtendedIsRun(r, step, now);
    if carried > 0 { PassedLonger(r, r', carried - 1, carried - 1, k, k + 1); }
    forall n: nat, j: nat | j <= |r'.steps| && Overdue(r'.states[j], r'.until[j], n, lag)
      ensures PassedSince(r', n, j)
    {
      if j < k {
        assert Overdue(r.states[j], r.until[j], n, lag);
        PassedLonger(r, r', n, n, j, j);
      } else {
        PassedLonger(r, r', carried - 1, n, k, j);
      }
    }
  }

  // ----- driving the applier

  /** The step the applier takes by itself. */
  function NextScan(b: IoStack.Board, io: IoStack.State): (st: IoStack.Step)
    requires IoStack.Shaped(b, io) && !io.at.Resting?
    ensures IoStack.Enabled(b, io, st) && !st.Write?
  {
    match io.at
    case At(i) =>
      if i == |b.ports| then IoStack.StartFlush else if IoStack.Drives(b, i) then IoStack.Copy else IoStack.Skip
    case Copied(_, _, due) => if due then IoStack.Drive else IoStack.Pass
    case Wrote(_, _) => IoStack.Commit
    case Flushing(g) => if g == b.regs then IoStack.End else IoStack.Flush
  }

  /** How many steps the pass has to go, at most. */
  function ToGo(b: IoStack.Board, io: IoStack.State): nat
    requires IoStack.Shaped(b, io)
  {
    match io.at
    case Resting => 0
    case At(i) => 3 * (|b.ports| - i) + b.regs + 2
    case Copied(i, _, _) => 3 * (|b.ports| - i) + b.regs + 1
    case Wrote(i, _) => 3 * (|b.ports| - i) + b.regs
    case Flushing(g) => b.regs - g + 1
  }

  predicate Visited(at: IoStack.Applier, p: nat) {
    match at
    case Resting => false
    case At(i) => p < i
    case Copied(i, _, _) => p < i
    case Wrote(i, _) => p < i
    case Flushing(_) => true
  }

  /** The applier has gone on: the controller has not, and a port already visited keeps its copy and its latch. */
  predicate GoneOn(s: System, s': System) {
    && s'.cfg == s.cfg && s'.avr == s.avr && s'.done == s.done
    && TrailGrows(s.main, s'.main) && TrailGrows(s.reserve, s'.reserve)
    && (Visited(s.io.at, s.cfg.relay_reserve_port) ==> s'.reserve.latched == s.reserve.latched)
  }

  lemma ScanGoesOn(b: IoStack.Board, s: System, before: nat, now: nat)
    requires Inv(b, s, before) && !s.io.at.Resting?
    ensures var s' := Next(b, s, Scan(NextScan(b, s.io)), now);
      && IoStack.Shaped(b, s'.io) && ToGo(b, s'.io) < ToGo(b, s.io)
      && (Grows(s, s', now) ==> GoneOn(s, s'))
  {
  }

  lemma ScanOnce(r: Run, lag: nat, since: nat, carried: nat) returns (r': Run)
    requires Fine(r, lag, since, carried) && !Last(r).io.at.Resting? && Now(r) <= since + lag
    ensures Fine(r', lag, since, carried) && Prolongs(r, r') && Now(r') == Now(r)
    ensures r' == Extended(r, Scan(NextScan(r.board, Last(r).io)), Now(r)) && GoneOn(Last(r), Last(r'))
    ensures IoStack.Shaped(r.board, Last(r').io) && ToGo(r.board, Last(r').io) < ToGo(r.board, Last(r).io)
    ensures UnderWay(r.board, Last(r), Main, 7) ==> UnderWay(r.board, Last(r'), Main, 7)
    ensures UnderWay(r.board, Last(r), Main, 7) && Last(r').io.at.Resting? ==> Shown(Last(r'), Main, 7)
  {
    var step := Scan(NextScan(r.board, Last(r).io));
    RunKeepsInv(r, |r.steps|);
    Extend(r, step, Now(r), lag, since, carried);
    r' := Extended(r, step, Now(r));
    ScanGoesOn(r.board, Last(r), Now(r), Now(r));
    if UnderWay(r.board, Last(r), Main, 7) { UnderWayGoesOn(r.board, Last(r), step, Main, 7, Now(r), Now(r)); }
  }

  predicate UpTo(at: IoStack.Applier, x: nat) {
    match at
    case At(i) => i <= x
    case Copied(i, _, _) => i < x
    case Wrote(i, _) => i < x
    case _ => false
  }

  /** The applier goes on to port `x`. */
  lemma AdvanceTo(r: Run, x: nat, lag: nat, since: nat, carried: nat) returns (r': Run)
    requires Fine(r, lag, since, carried) && Now(r) <= since + lag && UpTo(Last(r).io.at, x) && x <= |r.board.ports|
    ensures Fine(r', lag, since, carried) && Prolongs(r, r') && Now(r') == Now(r)
    ensures Last(r').io.at == IoStack.At(x) && GoneOn(Last(r), Last(r'))
    decreases ToGo(r.board, Last(r).io)
  {
    if Last(r).io.at == IoStack.At(x) {
      r' := r;
    } else {
      var r1 := ScanOnce(r, lag, since, carried);
      r' := AdvanceTo(r1, x, lag, since, carried);
    }
  }

  /** The applier ends its pass. */
  lemma FinishPass(r: Run, lag: nat, since: nat, carried: nat) returns (r': Run)
    requires Fine(r, lag, since, carried) && Now(r) <= since + lag && !Last(r).io.at.Resting?
    ensures Fine(r', lag, since, carried) && Prolongs(r, r') && Now(r') == Now(r)
    ensures Last(r').io.at.Resting? && |r'.steps| > |r.steps| && r'.steps[|r'.steps| - 1] == Scan(IoStack.End)
    ensures GoneOn(Last(r), Last(r'))
    ensures UnderWay(r.board, Last(r), Main, 7) ==> Shown(Last(r'), Main, 7)
    decreases ToGo(r.board, Last(r).io)
  {
    var r1 := ScanOnce(r, lag, since, carried);
    if Last(r1).io.at.Resting? {
      r' := r1;
    } else {
      r' := FinishPass(r1, lag, since, carried);
    }
  }

  // ----- the controller

  const NEVER: uint32 := 0xFFFF_FFFF
  const NOTHING := Sample(None, None, None, None)

  /** Manual mode, the given break time, no warm-up; main on port `q`, reserve on port `p`. */
  function ManualConfig(brk: uint32, p: nat, q: nat): Config {
    Config(true, false, true, true, q, p, INVALID_PORT, INVALID_PORT, false, false, 0, 0, 0, brk, 0, NEVER)
  }

  predicate IdleOn(a: State, active: Source, manual: Source) {
    !a.in_progress && a.phase.Idle? && a.active == active && a.manual == manual && a.fault == NoFault
  }

  predicate Moving(a: State, phase: Phase, target: Source, start: nat, manual: Source) {
    && a.in_progress && a.phase == phase && a.target == target && a.start == start && a.manual == manual
    && a.fault == NoFault && (phase.Break? ==> a.step == start)
  }

  /** A new manual source starts a transfer with two relay writes. */
  lemma ManualStarts(c: Config, a: State, src: Source, now: nat)
    requires !c.auto_mode && IdleOn(a, a.active, a.manual) && src != a.manual && src != a.active
    ensures var a' := SetManual(c, a, src, now);
      Moving(a', Break, src, now, src) && |a'.relays.trace| == |a.relays.trace| + 2 && a'.active == a.active
  {
  }

  lemma NothingSampled(c: Config, a: State, now: nat)
    ensures var a1 := ApplySample(c, a, NOTHING, now); a1 == a.(inputs := a1.inputs)
  {
  }

  /** The first tick at the end of the break time ends the break. */
  lemma TickAdvances(brk: uint32, p: nat, q: nat, a: State, start: nat, target: Source)
    requires Moving(a, Break, target, start, target) && !BothAsked(a.relays)
    ensures var a' := Task(ManualConfig(brk, p, q), a, NOTHING, start + brk, start + brk);
      Moving(a', Phase.Apply, target, start, target) && a'.relays == a.relays && a'.active == a.active
  {
    NothingSampled(ManualConfig(brk, p, q), a, start + brk);
    ElapsedNeverOverstates(start, start + brk);
  }

  /** And the next, at the same time, closes the contactor. */
  lemma TickApplies(brk: uint32, p: nat, q: nat, a: State, start: nat, target: Source)
    requires Moving(a, Phase.Apply, target, start, target) && IsContactor(target)
    requires p != q && p != INVALID_PORT && q != INVALID_PORT
    requires Safe(ManualConfig(brk, p, q), a, start + brk)
    ensures var a' := Task(ManualConfig(brk, p, q), a, NOTHING, start + brk, start + brk);
      && IdleOn(a', target, target) && |a'.relays.trace| == |a.relays.trace| + 2
      && AskedAfter(a'.relays.trace, |a.relays.trace| + 2, target)
  {
    var c, now := ManualConfig(brk, p, q), start + brk;
    NothingSampled(c, a, now);
    ElapsedNeverOverstates(start, now);
    RelaysDriven(c, a.relays, now, target.Main?, target.Reserve?);
  }

  // ----- the run

  /** Two outputs that relays can be connected to. */
  predicate Outputs(b: IoStack.Board, p: nat, q: nat) {
    IoStack.BoardOk(b) && p < q && IoStack.Drives(b, p) && IoStack.Drives(b, q) && p != INVALID_PORT &&
      q != INVALID_PORT
  }

  /** The controller runs a command, and its two relay writes reach the image. */
  lemma Commanded(r: Run, cmd: Command, now: nat, lag: nat, since: nat, carried: nat) returns (r': Run)
    requires Fine(r, lag, since, carried) && Last(r).done == |Asks(Last(r))| && Now(r) <= now <= since + lag
    requires cmd.Tick? ==> cmd.sampled == now
    requires |Do(Last(r).cfg, Last(r).avr, cmd, now).1.relays.trace| == |Asks(Last(r))| + 2
    ensures Fine(r', lag, since, carried) && Prolongs(r, r') && Now(r') == now
    ensures var (c, a) := Do(Last(r).cfg, Last(r).avr, cmd, now); Last(r').cfg == c && Last(r').avr == a
    ensures Last(r').done == |Asks(Last(r'))| == |Asks(Last(r))| + 2 && Asks(Last(r)) <= Asks(Last(r'))
    ensures Last(r').io.at == Last(r).io.at && Last(r').main == Last(r).main && Last(r').reserve == Last(r).reserve
  {
    var r1 := Quiet(r, cmd, now, lag, since, carried);
    RunKeepsInv(r1, |r1.steps|);
    Extend(r1, Output, now, lag, since, carried);
    var r2 := Extended(r1, Output, now);
    RunKeepsInv(r2, |r2.steps|);
    Extend(r2, Output, now, lag, since, carried);
    r' := Extended(r2, Output, now);
  }

  /** The controller runs a command. */
  lemma Quiet(r: Run, cmd: Command, now: nat, lag: nat, since: nat, carried: nat) returns (r': Run)
    requires Fine(r, lag, since, carried) && Last(r).done == |Asks(Last(r))| && Now(r) <= now <= since + lag
    requires cmd.Tick? ==> cmd.sampled == now
    ensures Fine(r', lag, since, carried) && Prolongs(r, r') && Now(r') == now
    ensures var (c, a) := Do(Last(r).cfg, Last(r).avr, cmd, now); Last(r') == Last(r).(cfg := c, avr := a)
    ensures Asks(Last(r)) <= Asks(Last(r'))
  {
    RunKeepsInv(r, |r.steps|);
    Extend(r, Operate(cmd), now, lag, since, carried);
    r' := Extended(r, Operate(cmd), now);
  }

  /** Where a transfer stands that has begun and not been applied. */
  ghost predicate Transferred(r: Run, brk: uint32, p: nat, q: nat, target: Source, writes: nat) {
    && IsRun(r) && Last(r).cfg == ManualConfig(brk, p, q) && IdleOn(Last(r).avr, target, target)
    && Last(r).done == |Asks(Last(r))| == writes && AskedAfter(Asks(Last(r)), writes, target)
  }

  /** What a controller step leaves alone. */
  predicate SameApplier(s: System, s': System) {
    s'.io.at == s.io.at && s'.main == s.main && s'.reserve == s.reserve && Asks(s) <= Asks(s')
  }

  /** A manual transfer starts. */
  lemma TransferStarts(r: Run, brk: uint32, p: nat, q: nat, src: Source, since: nat, carried: nat) returns (r': Run)
    requires Fine(r, brk, since, carried) && Now(r) == since && Last(r).cfg == ManualConfig(brk, p, q)
    requires Last(r).done == |Asks(Last(r))| && IdleOn(Last(r).avr, Last(r).avr.active, Last(r).avr.manual)
    requires src != Last(r).avr.active && src != Last(r).avr.manual
    ensures Fine(r', brk, since, carried) && Prolongs(r, r') && Now(r') == since &&
      Last(r').cfg == ManualConfig(brk, p, q)
    ensures Moving(Last(r').avr, Break, src, since, src) && SameApplier(Last(r), Last(r'))
    ensures Last(r').done == |Asks(Last(r'))| == |Asks(Last(r))| + 2
  {
    ManualStarts(Last(r).cfg, Last(r).avr, src, since);
    r' := Commanded(r, Manual(src), since, brk, since, carried);
  }

  /** It comes to the end of its break. */
  lemma BreakEnds(r: Run, brk: uint32, p: nat, q: nat, src: Source, since: nat, carried: nat) returns (r': Run)
    requires Fine(r, brk, since, carried) && Now(r) == since && Last(r).cfg == ManualConfig(brk, p, q)
    requires Last(r).done == |Asks(Last(r))| && Moving(Last(r).avr, Break, src, since, src)
    ensures Fine(r', brk, since, carried) && Prolongs(r, r') && Now(r') == since + brk
    ensures Last(r').cfg == ManualConfig(brk, p, q) && Last(r').done == |Asks(Last(r'))| == |Asks(Last(r))|
    ensures Moving(Last(r').avr, Phase.Apply, src, since, src) && SameApplier(Last(r), Last(r'))
  {
    var now := since + brk;
    RunKeepsInv(r, |r.steps|);
    TickAdvances(brk, p, q, Last(r).avr, since, src);
    r' := Quiet(r, Command.Tick(NOTHING, now), now, brk, since, carried);
  }

  /** And it closes its contactor at the same time. */
  lemma TransferEnds(r: Run, brk: uint32, p: nat, q: nat, src: Source, since: nat, carried: nat) returns (r': Run)
    requires Fine(r, brk, since, carried) && Now(r) == since + brk && Outputs(r.board, p, q) && IsContactor(src)
    requires Last(r).cfg == ManualConfig(brk, p, q) && Last(r).done == |Asks(Last(r))|
    requires Moving(Last(r).avr, Phase.Apply, src, since, src)
    ensures Fine(r', brk, since, carried) && Prolongs(r, r') && Now(r') == since + brk
    ensures Transferred(r', brk, p, q, src, |Asks(Last(r))| + 2) && SameApplier(Last(r), Last(r'))
  {
    var now := since + brk;
    RunKeepsInv(r, |r.steps|);
    TickApplies(brk, p, q, Last(r).avr, since, src);
    r' := Commanded(r, Command.Tick(NOTHING, now), now, brk, since, carried);
  }

  /** A whole manual transfer, from its start at the present time to its end after the break time. */
  lemma Transfers(r: Run, brk: uint32, p: nat, q: nat, src: Source, since: nat, carried: nat) returns (r': Run)
    requires Fine(r, brk, since, carried) && Now(r) == since && Outputs(r.board, p, q) && IsContactor(src)
    requires Last(r).cfg == ManualConfig(brk, p, q) && Last(r).done == |Asks(Last(r))|
    requires IdleOn(Last(r).avr, Last(r).avr.active, Last(r).avr.manual)
    requires src != Last(r).avr.active && src != Last(r).avr.manual
    ensures Fine(r', brk, since, carried) && Prolongs(r, r') && Now(r') == since + brk
    ensures Transferred(r', brk, p, q, src, |Asks(Last(r))| + 4) && SameApplier(Last(r), Last(r'))
  {
    var r1 := TransferStarts(r, brk, p, q, src, since, carried);
    var r2 := BreakEnds(r1, brk, p, q, src, since, carried);
    r' := TransferEnds(r2, brk, p, q, src, since, carried);
  }

  function RawIo(b: IoStack.Board): IoStack.State {
    var low := seq(|b.ports|, i => false);
    IoStack.State(low, low, low, low, low, IoStack.Resting)
  }

  /** Power-up: nothing written, every pin low. */
  lemma PowersUp(b: IoStack.Board, brk: uint32, p: nat, q: nat) returns (r: Run)
    requires Outputs(b, p, q)
    ensures Fine(r, brk, 0, 0) && Now(r) == 0 && r.board == b && |r.steps| == 0
    ensures Last(r).cfg == ManualConfig(brk, p, q) && IdleOn(Last(r).avr, Off, Off) && Last(r).io.at.Resting?
    ensures Last(r).done == |Asks(Last(r))| == 0
  {
    var c := ManualConfig(brk, p, q);
    PowerUpComesUp(b, c, RAW, RawIo(b), 0);
    r := Run(b, [System(c, Booted(c, RAW, 0), 0, RawIo(b), Trail(0, 0, 0), Trail(0, 0, 0))], [], [0], 0);
  }

  /** A whole pass carries every write made so far. */
  lemma WholePass(r: Run, lag: nat, since: nat, carried: nat) returns (r': Run)
    requires Fine(r, lag, since, carried) && Now(r) <= since + lag && Last(r).io.at.Resting?
    requires Last(r).done == |Asks(Last(r))| > 0
    ensures Fine(r', lag, Now(r), |Asks(Last(r))|) && Prolongs(r, r') && Now(r') == Now(r)
    ensures Last(r').cfg == Last(r).cfg && Last(r').avr == Last(r).avr && Last(r').done == Last(r).done
    ensures Last(r').io.at.Resting? && PassedSince(r', Last(r).done - 1, |r'.steps|)
  {
    RunKeepsInv(r, |r.steps|);
    Extend(r, Scan(IoStack.Begin), Now(r), lag, since, carried);
    var r1 := Extended(r, Scan(IoStack.Begin), Now(r));
    r' := FinishPass(r1, lag, since, carried);
    var i, e := |r.steps|, |r'.steps| - 1;
    assert r'.steps[i] == r1.steps[i] && r'.states[i] == r1.states[i];
    assert PassFrom(r', Last(r).done - 1, i, e);
  }

  /** The next pass has come past the reserve relay, whose pin and latch show the first transfer. */
  lemma HalfPass(r: Run, brk: uint32, p: nat, q: nat) returns (r': Run)
    requires Fine(r, brk, brk, 4) && Now(r) == brk && Outputs(r.board, p, q) && Last(r).io.at.Resting?
    requires Transferred(r, brk, p, q, Reserve, 4) && PassedSince(r, 3, |r.steps|)
    ensures Fine(r', brk, brk, 4) && Now(r') == brk && r'.board == r.board && Transferred(r', brk, p, q, Reserve, 4)
    ensures Last(r').io.at == IoStack.At(p + 1) && Last(r').reserve.latched == 4 && Last(r').reserve.shown == 4
    ensures r'.states[0] == r.states[0]
  {
    RunKeepsInv(r, |r.steps|);
    SameFit(r, Reserve);
    PassShows(r, Reserve, 3, |r.steps|);
    Extend(r, Scan(IoStack.Begin), brk, brk, brk, 4);
    var r1 := Extended(r, Scan(IoStack.Begin), brk);
    r' := AdvanceTo(r1, p + 1, brk, brk, 4);
    RunKeepsInv(r', |r'.steps|);
  }

  lemma SameFit(r: Run, which: Source)
    requires IsRun(r)
    ensures Fitted(r.board, Last(r).cfg, which) <==> Fitted(r.board, r.states[0].cfg, which)
  {
    StaysFitted(r, which, |r.steps|);
  }

  /** The rest of that pass finds the second transfer complete, and brings only the main relay's part of it to the
      pins. */
  lemma SecondHalf(r: Run, brk: uint32, p: nat, q: nat) returns (r': Run)
    requires Fine(r, brk, brk, 4) && Now(r) == brk + brk && Outputs(r.board, p, q) && Transferred(r, brk, p, q, Main, 8)
    requires Last(r).io.at == IoStack.At(p + 1) && Last(r).reserve.latched == 4 && Last(r).reserve.shown == 4
    requires AskedAfter(Asks(Last(r)), 4, Reserve)
    ensures Fine(r', brk, brk, 4) && r'.board == r.board && r'.states[0] == r.states[0]
    ensures BothClosed(r', |r'.steps|)
  {
    assert UnderWay(r.board, Last(r), Main, 7);
    r' := FinishPass(r, brk, brk, 4);
    RunKeepsInv(r', |r'.steps|);
  }

  ghost predicate BothClosed(r: Run, k: nat)
    requires IsRun(r) && k <= |r.steps|
  {
    Closed(r.board, r.states[k], Main) && Closed(r.board, r.states[k], Reserve)
  }

  /** A run from power-up in which every relay write is carried by a whole pass within the break time, and both
      contactors are closed in the end: the applier was between the two relays' ports when the second transfer was
      made. */
  lemma {:induction false} LateOpeningOverlaps(b: IoStack.Board, brk: uint32, p: nat, q: nat) returns (r: Run)
    requires Outputs(b, p, q)
    ensures IsRun(r) && r.board == b && r.states[0].cfg == ManualConfig(brk, p, q) && Prompt(r, brk)
    ensures BothClosed(r, |r.steps|)
  {
    var r0 := PowersUp(b, brk, p, q);
    var r1 := Transfers(r0, brk, p, q, Reserve, 0, 0);
    var r2 := WholePass(r1, brk, 0, 0);
    var r3 := HalfPass(r2, brk, p, q);
    var r4 := Transfers(r3, brk, p, q, Main, brk, 4);
    AskedStill(Asks(Last(r3)), Asks(Last(r4)), 4, Reserve);
    r := SecondHalf(r4, brk, p, q);
  }

  lemma AskedStill(t: seq<Ask>, t': seq<Ask>, n: nat, which: Source)
    requires t <= t' && AskedAfter(t, n, which)
    ensures AskedAfter(t', n, which)
  {
  }

  // ----- the bound

  predicate TwoOutputs(b: IoStack.Board) {
    exists p, q :: 0 <= p < q < |b.ports| && Outputs(b, p, q)
  }

  /** No prompt run on this board, under whatever configuration with this break time, ever has both contactors
      closed. */
  ghost predicate AlwaysApart(b: IoStack.Board, brk: uint32, lag: nat) {
    forall r: Run, k: nat :: IsRun(r) && r.board == b && r.states[0].cfg.break_ms == brk && Prompt(r, lag) &&
      k <= |r.steps|
      ==> !BothClosed(r, k)
  }

  lemma PromptEnough(r: Run, lag: nat, more: nat)
    requires IsRun(r) && Prompt(r, lag) && lag <= more
    ensures Prompt(r, more)
  {
    forall n: nat, j: nat | j <= |r.steps| && Overdue(r.states[j], r.until[j], n, more)
      ensures PassedSince(r, n, j)
    {
      assert Overdue(r.states[j], r.until[j], n, lag);
    }
  }

  lemma BothNeedTwo(r: Run, k: nat)
    requires IsRun(r) && k <= |r.steps| && BothClosed(r, k)
    ensures TwoOutputs(r.board)
  {
    RunKeepsInv(r, k);
    var p, q := r.states[k].cfg.relay_main_port, r.states[k].cfg.relay_reserve_port;
    if p < q { assert Outputs(r.board, p, q); } else { assert Outputs(r.board, q, p); }
  }

  /** The exact bound. On a board, and for a break time, the contactors are kept apart in every run in which each
      relay write is carried by a whole pass within `lag`, if and only if `lag` is less than the break time, or the
      board has not two outputs to connect them to. */
  lemma {:induction false} BoundIsExact(b: IoStack.Board, brk: uint32, lag: nat)
    ensures AlwaysApart(b, brk, lag) <==> lag < brk || !TwoOutputs(b)
  {
    if lag < brk || !TwoOutputs(b) {
      forall r: Run, k: nat | IsRun(r) && r.board == b && r.states[0].cfg.break_ms == brk && Prompt(r, lag) &&
        k <= |r.steps|
        ensures !BothClosed(r, k)
      {
        if lag < brk { NeverBothClosed(r, lag, k); } else if BothClosed(r, k) { BothNeedTwo(r, k); }
      }
    } else {
      var p, q :| 0 <= p < q < |b.ports| && Outputs(b, p, q);
      var r := LateOpeningOverlaps(b, brk, p, q);
      PromptEnough(r, brk, lag);
    }
  }
}
