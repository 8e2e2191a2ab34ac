/** The input image of the I/O stack: a level enters the image only after it has been read unchanged for the debounce
    time. `changed` is a real time; the code stores and compares its low 32 bits. */
module IoInputs {
  import opened Clock
  import opened Options
  import opened Readings

  const DEBOUNCE_MS := 100

  datatype Input = Input(image: bool, raw: bool, changed: nat)

  /** One scan of one port; no reading leaves it alone. */
  function Scan(p: Input, reading: Option<bool>, now: nat): Input {
    if reading.None? then p else
    var p1 := if reading.value != p.raw then p.(raw := reading.value, changed := now) else p;
    var p2 := if Low(p1.changed) == 0 then p1.(changed := now) else p1;
    if Sub(Low(now), Low(p2.changed)) >= DEBOUNCE_MS then p2.(image := p2.raw) else p2
  }

  class IoInputs {
    const inputs: array<bool>
    const raw_inputs: array<bool>
    const last_change_ms: array<nat>
    const can_input: seq<bool>

    constructor (can_input: seq<bool>)
      ensures Valid() && this.can_input == can_input
      ensures forall i :: 0 <= i < |can_input| ==> At(i) == Input(false, false, 0)
    {
      this.can_input := can_input;
      inputs := new bool[|can_input|](_ => false);
      raw_inputs := new bool[|can_input|](_ => false);
      last_change_ms := new nat[|can_input|](_ => 0);
    }

    ghost predicate Valid() {
      && inputs.Length == |can_input| && raw_inputs.Length == |can_input| && last_change_ms.Length == |can_input|
      && inputs != raw_inputs
    }

    ghost function At(i: nat): Input
      requires Valid() && i < |can_input|
      reads inputs, raw_inputs, last_change_ms
    {
      Input(inputs[i], raw_inputs[i], last_change_ms[i])
    }

    /** `scanInputs`; `readings[i]` is none where the port cannot be read. */
    method ScanInputs(readings: seq<Option<bool>>, now: nat)
      requires Valid() && |readings| == |can_input|
      modifies inputs, raw_inputs, last_change_ms
      ensures forall i :: 0 <= i < |can_input| ==>
        At(i) == if can_input[i] then Scan(old(At(i)), readings[i], now) else old(At(i))
    {
      for i := 0 to |can_input|
        invariant forall j :: 0 <= j < i ==>
          At(j) == if can_input[j] then Scan(old(At(j)), readings[j], now) else old(At(j))
        invariant forall j :: i <= j < |can_input| ==> At(j) == old(At(j))
      {
        if can_input[i] && readings[i].Some? {
          var raw := readings[i].value;
          if raw != raw_inputs[i] {
            raw_inputs[i] := raw;
            last_change_ms[i] := now;
          }
          if Low(last_change_ms[i]) == 0 { last_change_ms[i] := now; }
          if Sub(Low(now), Low(last_change_ms[i])) >= DEBOUNCE_MS { inputs[i] := raw_inputs[i]; }
        }
      }
    }
  }

  // ----- what a run of scans means

  ghost predicate ScanAt(states: seq<Input>, readings: seq<Reading>, k: nat)
    requires k < |readings| && |states| == |readings| + 1
  {
    states[k + 1] == Scan(states[k], readings[k].level, readings[k].now)
  }

  /** A run of scans of one port since its image was set from a first reading. */
  ghost predicate Scans(states: seq<Input>, readings: seq<Reading>) {
    && |states| == |readings| + 1 && states[0].changed == 0 && Chronological(readings)
    && forall k :: 0 <= k < |readings| ==> ScanAt(states, readings, k)
  }

  lemma {:induction false} ChangeTimeMeans(states: seq<Input>, readings: seq<Reading>, k: nat)
    requires Scans(states, readings) && k < |readings|
    ensures Low(states[k + 1].changed) != 0 ==> SteadySince(readings, k, states[k + 1].changed, states[k + 1].raw)
  {
    assert ScanAt(states, readings, k);
    if k == 0 {
    } else {
      ChangeTimeMeans(states, readings, k - 1);
    }
    if Low(states[k + 1].changed) != 0 {
      if states[k + 1].changed == readings[k].now && readings[k].level.Some? {
        SteadyFromNow(readings, k, states[k + 1].raw);
      } else {
        assert ScanAt(states, readings, k - 1);
        SteadyLonger(readings, k - 1, states[k + 1].changed, states[k + 1].raw);
      }
    }
  }

  /** The image changes only to a level that every successful reading of the last 100 ms has shown, across clock
      wraps. */
  lemma {:induction false} ImageChangesOnlyWhenSteady(
      states: seq<Input>, readings: seq<Reading>, k: nat) returns (j: nat)
    requires Scans(states, readings) && k < |readings| && states[k + 1].image != states[k].image
    ensures j <= k && readings[j].now + DEBOUNCE_MS <= readings[k].now
    ensures readings[j].level == Some(states[k + 1].image) && Steady(readings, j, k, states[k + 1].image)
  {
    assert ScanAt(states, readings, k);
    ChangeTimeMeans(states, readings, k);
    var since := states[k + 1].changed;
    assert Low(since) != 0;
    j :| 0 <= j <= k && readings[j].now == since && readings[j].level == Some(states[k + 1].raw)
      && Steady(readings, j, k, states[k + 1].raw);
    TimesOrdered(readings, j, k);
    ElapsedNeverOverstates(since, readings[k].now);
  }

  // ----- and that the image follows

  /** The first reading from `i` on that counts for the change: it succeeds, and not at a time whose low word is zero,
      which the code takes for an unset change time. */
  predicate Counts(r: Reading) { r.level.Some? && r.now % 0x1_0000_0000 != 0 }

  ghost predicate FirstCounting(readings: seq<Reading>, i: nat, e: nat)
    requires i <= e < |readings|
  {
    Counts(readings[e]) && forall d :: i <= d < e ==> !Counts(readings[d])
  }

  /** A level is new at `i`: the run starts there, or the reading before was another one. */
  predicate NewAt(readings: seq<Reading>, i: nat, level: bool)
    requires i < |readings|
  {
    i == 0 || readings[i - 1].level == Some(!level)
  }

  lemma RawFollows(states: seq<Input>, readings: seq<Reading>, i: nat)
    requires Scans(states, readings) && 0 < i <= |readings| && readings[i - 1].level.Some?
    ensures states[i].raw == readings[i - 1].level.value
  {
    assert ScanAt(states, readings, i - 1);
  }

  /** Before the first reading that counts, the change time is unset, or the level is not known to be new. */
  lemma {:induction false} UnsetTill(
      states: seq<Input>, readings: seq<Reading>, i: nat, e: nat, n: nat, level: bool)
    requires Scans(states, readings) && i <= n <= e < |readings| && FirstCounting(readings, i, e)
    requires NewAt(readings, i, level) && Steady(readings, i, e, level)
    ensures states[n].raw != level || Low(states[n].changed) == 0
  {
    if n == i {
      if i > 0 { RawFollows(states, readings, i); }
    } else {
      UnsetTill(states, readings, i, e, n - 1, level);
      assert ScanAt(states, readings, n - 1) && !Counts(readings[n - 1]);
      assert readings[n - 1].level == Some(level) || readings[n - 1].level.None?;
    }
  }

  /** From it on the change time is its time. */
  lemma {:induction false} SetFrom(
      states: seq<Input>, readings: seq<Reading>, i: nat, e: nat, n: nat, level: bool)
    requires Scans(states, readings) && i <= e <= n < |readings| && FirstCounting(readings, i, e)
    requires NewAt(readings, i, level) && Steady(readings, i, n, level)
    ensures states[n + 1].raw == level && states[n + 1].changed == readings[e].now
  {
    assert ScanAt(states, readings, n);
    assert readings[n].level == Some(level) || readings[n].level.None?;
    if n == e {
      UnsetTill(states, readings, i, e, e, level);
    } else {
      SetFrom(states, readings, i, e, n - 1, level);
    }
  }

  /** A level that stays gets into the image, whichever it is: if all successful readings from its change at `i` on show
      it, the first successful one that lies 100 ms or more after the change does it. A change read at a time whose low
      word is zero dates from the next reading. */
  lemma {:induction false} ImageFollowsSteady(
      states: seq<Input>, readings: seq<Reading>, i: nat, e: nat, k: nat, level: bool)
    requires Scans(states, readings) && i <= e <= k < |readings| && FirstCounting(readings, i, e)
    requires NewAt(readings, i, level) && Steady(readings, i, k, level) && readings[k].level.Some?
    requires readings[e].now + 100 <= readings[k].now < readings[e].now + 0x1_0000_0000
    ensures states[k + 1].image == level
  {
    SetFrom(states, readings, i, e, k, level);
    assert ScanAt(states, readings, k);
    ElapsedNeverOverstates(readings[e].now, readings[k].now);
  }
}
