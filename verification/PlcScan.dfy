/** The PLC scan clock: a deadline on a wrapping microsecond counter, overruns counted as missed cycles. */
module PlcScan {
  import opened Clock

  const DEFAULT_CYCLE: uint32 := 1000

  /** The scan as an account kept in real time: `deadline` is the time of the next run, `drift` what overruns have
      shifted the phase by. */
  datatype Scan = Scan(start: nat, cycle: uint32, deadline: nat, runs: nat, missed: nat, drift: nat, overruns: nat)

  function Begun(cycle: uint32, t: nat): Scan {
    Scan(t, if cycle == 0 then DEFAULT_CYCLE else cycle, t, 0, 0, 0, 0)
  }

  /** `tick` at time `t`, deciding by the low words as the code does. */
  function Ticked(s: Scan, t: nat): Scan
    requires s.cycle > 0
  {
    if !NotBefore(Low(t), Low(s.deadline)) then s else Run(s, t, Sub(Low(t), Low(s.deadline)))
  }

  /** One run, `late` being the measured lateness. */
  function Run(s: Scan, t: nat, late: uint32): Scan
    requires s.cycle > 0
  {
    if late >= s.cycle
    then s.(missed := s.missed + Skipped(late, s.cycle), drift := s.drift + late % s.cycle, overruns := s.overruns + 1,
            deadline := t + s.cycle, runs := s.runs + 1)
    else s.(deadline := s.deadline + s.cycle, runs := s.runs + 1)
  }

  /** How many whole cycles were missed. */
  function Skipped(late: uint32, cycle: uint32): uint32
    requires cycle > 0
  {
    late / cycle
  }

  /** Adding to a word follows adding to the number it is the low word of. */
  lemma WordAdd(x: nat, d: uint32)
    ensures Add(Low(x), d) == Low(x + d)
  {
    AddOfLows(x, d);
    assert Low(d) == d;
  }

  /** A tick is within half the counter's range of the deadline. */
  predicate Near(s: Scan, t: nat) { -HALF <= t - s.deadline < HALF }

  predicate Accounted(s: Scan) {
    && s.cycle > 0
    && s.deadline == s.start + s.cycle * (s.runs + s.missed) + s.drift
    && s.drift <= s.overruns * (s.cycle - 1)
  }

  lemma TickLateness(s: Scan, t: nat)
    requires Near(s, t)
    ensures NotBefore(Low(t), Low(s.deadline)) <==> t >= s.deadline
    ensures t >= s.deadline ==> Sub(Low(t), Low(s.deadline)) == t - s.deadline
  {
    NotBeforeIsOrder(t, s.deadline);
    if t >= s.deadline { ElapsedNeverOverstates(s.deadline, t); }
  }

  lemma Overrun(cycle: nat, runs: nat, missed: nat, late: nat)
    requires cycle > 0
    ensures cycle * (runs + missed) + late + cycle == cycle * (runs + 1 + (missed + late / cycle)) + late % cycle
  {
    assert late == cycle * (late / cycle) + late % cycle;
    assert cycle * (runs + 1 + (missed + late / cycle)) == cycle * (runs + missed) + cycle + cycle * (late / cycle);
  }

  lemma OneMore(cycle: nat, n: nat)
    ensures cycle * (n + 1) == cycle * n + cycle
  {
  }

  lemma DriftGrows(overruns: nat, bound: nat, drift: nat, more: nat)
    requires drift <= overruns * bound && more <= bound
    ensures drift + more <= (overruns + 1) * bound
  {
  }

  /** Every tick keeps the account: the deadline has moved by one cycle for each run and each missed cycle, plus one
      residue smaller than a cycle for each overrun. */
  lemma {:induction false} TickKeepsAccount(s: Scan, t: nat)
    requires Accounted(s) && Near(s, t)
    ensures Accounted(Ticked(s, t))
    ensures t < s.deadline ==> Ticked(s, t) == s
    ensures t >= s.deadline ==> Ticked(s, t).runs == s.runs + 1 && Ticked(s, t).deadline > t
  {
    TickLateness(s, t);
    if t >= s.deadline {
      var late := t - s.deadline;
      if late >= s.cycle {
        Overrun(s.cycle, s.runs, s.missed, late);
        DriftGrows(s.overruns, s.cycle - 1, s.drift, late % s.cycle);
      } else {
        OneMore(s.cycle, s.runs + s.missed);
      }
    }
  }

  ghost predicate TickAt(scans: seq<Scan>, times: seq<nat>, k: nat)
    requires k < |times| && |scans| == |times| + 1
  {
    scans[k].cycle > 0 && Near(scans[k], times[k]) && scans[k + 1] == Ticked(scans[k], times[k])
  }

  ghost predicate IsRun(cycle: uint32, scans: seq<Scan>, times: seq<nat>, start: nat) {
    && |scans| == |times| + 1 && scans[0] == Begun(cycle, start)
    && forall k :: 0 <= k < |times| ==> TickAt(scans, times, k)
  }

  lemma {:induction false} RunIsAccounted(cycle: uint32, scans: seq<Scan>, times: seq<nat>, start: nat, k: nat)
    requires IsRun(cycle, scans, times, start) && k <= |times|
    ensures Accounted(scans[k]) && scans[k].start == start
  {
    if k == 0 {
    } else {
      RunIsAccounted(cycle, scans, times, start, k - 1);
      assert TickAt(scans, times, k - 1);
      TickKeepsAccount(scans[k - 1], times[k - 1]);
    }
  }

  lemma QuotientBound(x: nat, d: nat, n: nat)
    requires d > 0 && d * n <= x
    ensures n <= x / d
  {
    var q := x / d;
    OneMore(d, q);
    assert d * n < d * (q + 1);
    Cancel(d, n, q + 1);
  }

  lemma Cancel(d: nat, a: nat, b: nat)
    ensures d * a < d * b ==> a < b
  {
    TimesMonotone(d, b, a);
  }

  lemma TimesMonotone(d: nat, b: nat, a: nat)
    ensures a >= b ==> d * a >= d * b
  {
  }

  /** Scans never run faster than their cycle: by any time at which one runs, no more than one run per cycle since
      the start, and the first. */
  lemma {:induction false} RunsAreBounded(cycle: uint32, scans: seq<Scan>, times: seq<nat>, start: nat, k: nat)
    requires IsRun(cycle, scans, times, start) && k < |times| && scans[k + 1].runs > scans[k].runs
    ensures times[k] >= start && scans[k].cycle > 0
    ensures scans[k + 1].runs <= (times[k] - start) / scans[k].cycle + 1
  {
    RunIsAccounted(cycle, scans, times, start, k);
    assert TickAt(scans, times, k);
    TickKeepsAccount(scans[k], times[k]);
    var s := scans[k];
    assert s.cycle * (s.runs + s.missed) >= s.cycle * s.runs by { MoreIsMore(s.cycle, s.runs, s.missed); }
    QuotientBound(times[k] - start, s.cycle, s.runs);
  }

  lemma MoreIsMore(c: nat, a: nat, b: nat)
    ensures c * (a + b) >= c * a
  {
  }

  class PlcScanLoop {
    var cycle_us: uint32
    var next_us: uint32
    var missed: uint32
    ghost var scan: Scan

    constructor ()
      ensures cycle_us == DEFAULT_CYCLE && next_us == 0 && missed == 0
    {
      cycle_us, next_us, missed := DEFAULT_CYCLE, 0, 0;
      scan := Begun(DEFAULT_CYCLE, 0);
    }

    /** The object's words are the low words of the account. */
    ghost predicate Valid()
      reads this
    {
      cycle_us == scan.cycle > 0 && next_us == Low(scan.deadline) && missed == Low(scan.missed)
    }

    method Begin(cycle: uint32, t: nat)
      modifies this
      ensures Valid() && scan == Begun(cycle, t)
      ensures cycle_us == (if cycle == 0 then 1000 else cycle) && next_us == Low(t) && missed == 0
    {
      cycle_us := if cycle == 0 then DEFAULT_CYCLE else cycle;
      next_us := Low(t);
      missed := 0;
      scan := Begun(cycle, t);
    }

    /** `tick`; `ran` tells whether the cycle was run. */
    method Tick(t: nat) returns (ran: bool)
      requires Valid()
      modifies this
      ensures Valid() && scan == Ticked(old(scan), t)
      ensures ran <==> scan.runs == old(scan).runs + 1
    {
      var now := Low(t);
      if !NotBefore(now, next_us) { return false; }
      ghost var deadline := scan.deadline;
      ghost var scan' := Run(scan, t, Sub(now, next_us));
      if cycle_us > 0 {
        var late := Sub(now, next_us);
        if late >= cycle_us {
          WordAdd(scan.missed, Skipped(late, cycle_us));
          missed := Add(missed, Skipped(late, cycle_us));
          next_us := now;
          deadline := t;
        }
      }
      WordAdd(deadline, cycle_us);
      next_us := Add(next_us, cycle_us);
      scan := scan';
      return true;
    }

    /** `timeToNextUs`. */
    method TimeToNextUs(t: nat) returns (left: uint32)
      requires Valid() && -HALF < scan.deadline - t < HALF
      ensures left == if scan.deadline > t then scan.deadline - t else 0
    {
      var now := Low(t);
      SubOfLows(scan.deadline, t);
      SubOfLows(t, scan.deadline);
      if Sub(next_us, now) == 0 || Sub(next_us, now) >= HALF { return 0; }
      return Sub(next_us, now);
    }
  }
}
