/** The meteo controller's round-robin: each task call reads the first due sensor from the scan index on, cyclically. */
module Meteo {
  import opened Clock
  import opened Options

  const SENSORS := 50

  const REMOTE_INTERVAL_MS := 2000
  const DHT22_INTERVAL_MS := 3000
  const DS18B20_INTERVAL_MS := 1000

  datatype SensorType = NoSensor | Ds18b20 | Dht22

  /** The part of a sensor's configuration that decides when it is read. */
  datatype Sensor = Sensor(enabled: bool, kind: SensorType, source_node: nat, source_sensor: nat)

  predicate IsRemote(s: Sensor) { s.source_node != 0 && s.source_sensor != 0 }

  function Interval(s: Sensor): uint32 {
    if IsRemote(s) then REMOTE_INTERVAL_MS else if s.kind.Dht22? then DHT22_INTERVAL_MS else DS18B20_INTERVAL_MS
  }

  /** Less than the interval has been measured since the last read; a last read at zero counts as none. */
  predicate ReadLately(s: Sensor, last: nat, now: nat) {
    Low(last) != 0 && Sub(Low(now), Low(last)) < Interval(s)
  }

  /** A DS18B20 sensor also waits for the bus conversion: `ready` tells that one is complete when the scan comes to
      it. */
  predicate IsDue(s: Sensor, last: nat, now: nat, ready: bool) {
    && s.enabled && (IsRemote(s) || !s.kind.NoSensor?)
    && !ReadLately(s, last, now)
    && (!IsRemote(s) && s.kind.Ds18b20? ==> ready)
  }

  /** What one call finds: the time, and for each sensor whether a conversion is complete. */
  datatype Call = Call(now: nat, ready: seq<bool>)

  function DueAt(sensors: seq<Sensor>, last: seq<nat>, call: Call): (due: seq<bool>)
    requires |sensors| == |last| == |call.ready| == SENSORS
    ensures |due| == SENSORS
  {
    seq(SENSORS, i requires 0 <= i < SENSORS => IsDue(sensors[i], last[i], call.now, call.ready[i]))
  }

  function Place(scan: nat, i: nat): nat { (scan + i) % SENSORS }

  /** The first due sensor at cyclic distance `i` or more; `due[s]` tells whether sensor s passes the checks if the scan
      comes to it. */
  function Selected(due: seq<bool>, scan: nat, i: nat): (s: Option<nat>)
    requires |due| == SENSORS && i <= SENSORS
    ensures s.Some? ==> s.value < SENSORS && due[s.value]
    decreases SENSORS - i
  {
    if i == SENSORS then None
    else if due[Place(scan, i)] then Some(Place(scan, i))
    else Selected(due, scan, i + 1)
  }

  /** The scan index after a call; it stays if nothing was selected or the controller was switched off meanwhile. */
  function Advanced(due: seq<bool>, scan: nat, enabled_after: bool): nat
    requires |due| == SENSORS
  {
    match Selected(due, scan, 0)
    case Some(s) => if enabled_after then (s + 1) % SENSORS else scan
    case None => scan
  }

  /** How many places the scan index is before sensor `s`. */
  function Distance(scan: nat, s: nat): (d: nat)
    ensures d < SENSORS
  {
    (s - scan) % SENSORS
  }

  lemma PlaceAtDistance(scan: nat, s: nat)
    requires s < SENSORS
    ensures Place(scan, Distance(scan, s)) == s
  {
    var q := (s - scan) / SENSORS;
    assert scan + Distance(scan, s) == s + (-q) * SENSORS;
  }

  lemma DistanceOfPlace(scan: nat, i: nat)
    requires i < SENSORS
    ensures Distance(scan, Place(scan, i)) == i
  {
    var q := (scan + i) / SENSORS;
    assert Place(scan, i) - scan == i + (-q) * SENSORS;
  }

  // ----- the bus conversion of the DS18B20 sensors

  /** `_ds_conv_pending`, `_ds_conv_ready`, `_ds_last_conv_ms`. */
  datatype Conversion = Conversion(pending: bool, ready: bool, last: nat)

  const NO_CONVERSION := Conversion(false, false, 0)

  /** What the bus would answer at each place of a scan: whether the conversion is done, and whether a new one
      starts. */
  datatype Answer = Answer(done: bool, starts: bool)

  datatype Bus = Bus(there: bool, answers: seq<Answer>)

  predicate AnswersAll(bus: Bus) { |bus.answers| == SENSORS }

  /** `updateDs18Conversion_`. */
  function UpdateConversion(v: Conversion, there: bool, a: Answer, now: nat): Conversion {
    if !there then v
    else if v.pending then if a.done then Conversion(false, true, now) else v
    else if !v.ready || Sub(Low(now), Low(v.last)) >= DS18B20_INTERVAL_MS then
      if a.starts then v.(pending := true) else v.(ready := false)
    else v
  }

  /** The scan asks the bus for this sensor. */
  predicate AsksBus(s: Sensor, last: nat, now: nat) {
    s.enabled && !IsRemote(s) && s.kind.Ds18b20? && !ReadLately(s, last, now)
  }

  /** What a scan starts from. */
  datatype Scene = Scene(sensors: seq<Sensor>, last: seq<nat>, scan: nat, now: nat, bus: Bus, conversion: Conversion)

  predicate Set(c: Scene) { |c.sensors| == |c.last| == |c.bus.answers| == SENSORS }

  /** The conversion after the first `i` places, none of them selected. */
  function ConversionAfter(c: Scene, i: nat): Conversion
    requires Set(c) && i <= SENSORS
  {
    if i == 0 then c.conversion else
    var v, p := ConversionAfter(c, i - 1), Place(c.scan, i - 1);
    if AsksBus(c.sensors[p], c.last[p], c.now) then UpdateConversion(v, c.bus.there, c.bus.answers[i - 1], c.now) else v
  }

  /** A complete conversion, when the scan comes to sensor `s`. */
  predicate CompleteAt(c: Scene, s: nat)
    requires Set(c) && s < SENSORS
  {
    var v := ConversionAfter(c, Distance(c.scan, s) + 1);
    !v.pending && v.ready
  }

  function CallOf(c: Scene): (call: Call)
    requires Set(c)
    ensures |call.ready| == SENSORS
  {
    Call(c.now, seq(SENSORS, s requires 0 <= s < SENSORS => CompleteAt(c, s)))
  }

  function DueIn(c: Scene): (due: seq<bool>)
    requires Set(c)
    ensures |due| == SENSORS
  {
    DueAt(c.sensors, c.last, CallOf(c))
  }

  /** The conversion after the check of the `i`-th place. */
  function Touched(c: Scene, i: nat, v: Conversion): Conversion
    requires Set(c) && i < SENSORS
  {
    var p := Place(c.scan, i);
    if AsksBus(c.sensors[p], c.last[p], c.now) then UpdateConversion(v, c.bus.there, c.bus.answers[i], c.now) else v
  }

  /** The scan from the `i`-th place on, with the conversion as it then is: the sensor selected, and the conversion
      left. */
  function Scanned(c: Scene, i: nat, v: Conversion): (r: (Option<nat>, Conversion))
    requires Set(c) && i <= SENSORS
    ensures r.0.Some? ==> r.0.value < SENSORS
    decreases SENSORS - i
  {
    if i == SENSORS then (None, v) else
    var p, v' := Place(c.scan, i), Touched(c, i, v);
    if IsDue(c.sensors[p], c.last[p], c.now, !v'.pending && v'.ready) then (Some(p), v') else Scanned(c, i + 1, v')
  }

  lemma PlaceDue(c: Scene, i: nat)
    requires Set(c) && i < SENSORS
    ensures var p, v := Place(c.scan, i), ConversionAfter(c, i + 1);
      v == Touched(c, i, ConversionAfter(c, i)) &&
        DueIn(c)[p] == IsDue(c.sensors[p], c.last[p], c.now, !v.pending && v.ready)
  {
    DistanceOfPlace(c.scan, i);
  }

  /** The scan selects the first sensor that is due, each being judged by the conversion as the scan finds it there. */
  lemma {:induction false} ScanSelects(c: Scene, i: nat)
    requires Set(c) && i <= SENSORS
    ensures Scanned(c, i, ConversionAfter(c, i)).0 == Selected(DueIn(c), c.scan, i)
    decreases SENSORS - i
  {
    if i == SENSORS {
    } else {
      PlaceDue(c, i);
      ScanSelects(c, i + 1);
    }
  }

  /** When a sensor is due: enabled, remote or of a type, and not read for 2 s if remote, else 3 s for a DHT22, 1 s for
      a DS18B20, which also needs a conversion. A last read whose word is zero counts as none. */
  lemma {:induction false} DueIff(s: Sensor, last: nat, now: nat, ready: bool)
    requires last <= now < last + 0x1_0000_0000
    ensures var remote := s.source_node != 0 && s.source_sensor != 0;
      IsDue(s, last, now, ready) <==>
        && s.enabled && (remote || s.kind.Dht22? || (s.kind.Ds18b20? && ready))
        && (last % 0x1_0000_0000 == 0 ||
            now - last >= if remote then 2000 else if s.kind.Dht22? then 3000 else 1000)
  {
    ElapsedNeverOverstates(last, now);
  }

  /** No sensor is selected before its interval has passed since its last read, also across clock wraps. */
  lemma {:induction false} NotSelectedEarly(c: Scene)
    requires Set(c)
    ensures var r := Scanned(c, 0, c.conversion).0;
      r.Some? && c.last[r.value] <= c.now && c.last[r.value] % 0x1_0000_0000 != 0 ==>
        var s := c.sensors[r.value];
        c.now - c.last[r.value] >= if s.source_node != 0 && s.source_sensor != 0 then 2000
                                   else if s.kind.Dht22? then 3000 else 1000
  {
    ScanSelects(c, 0);
    var r := Selected(DueIn(c), c.scan, 0);
    if r.Some? && c.last[r.value] <= c.now { ElapsedNeverOverstates(c.last[r.value], c.now); }
  }

  /** The scan moves the conversion on only for an enabled DS18B20 of its own bus that was not read within the last
      second. */
  lemma {:induction false} MovesOnlyFor(c: Scene, i: nat, v: Conversion)
    requires Set(c) && i < SENSORS && Touched(c, i, v) != v
    ensures var p := Place(c.scan, i);
      var s := c.sensors[p];
      && s.enabled && (s.source_node == 0 || s.source_sensor == 0) && s.kind.Ds18b20? && c.bus.there
      && (c.last[p] <= c.now && c.last[p] % 0x1_0000_0000 != 0 ==> c.last[p] + 1000 <= c.now)
  {
    var p := Place(c.scan, i);
    if c.last[p] <= c.now { ElapsedNeverOverstates(c.last[p], c.now); }
  }

  /** The sensor at the `i`-th place of a scan is a DS18B20 of its own bus whose interval has passed. */
  predicate WantsBus(c: Scene, i: nat)
    requires Set(c) && i < SENSORS
  {
    var p := Place(c.scan, i);
    var s := c.sensors[p];
    && s.enabled && (s.source_node == 0 || s.source_sensor == 0) && s.kind.Ds18b20?
    && c.last[p] <= c.now && c.last[p] + 1000 <= c.now < c.last[p] + 0x1_0000_0000
  }

  /** Such a sensor is due exactly if the bus completes a conversion when the scan comes to it, or one was completed
      less than a second before. */
  lemma {:induction false} DueByConversion(c: Scene, i: nat)
    requires Set(c) && i < SENSORS && WantsBus(c, i) && c.bus.there
    requires var v := ConversionAfter(c, i); v.last <= c.now < v.last + 0x1_0000_0000
    ensures var v := ConversionAfter(c, i);
      DueIn(c)[Place(c.scan, i)] <==>
        if v.pending then c.bus.answers[i].done else v.ready && c.now - v.last < 1000
  {
    PlaceDue(c, i);
    ElapsedNeverOverstates(c.last[Place(c.scan, i)], c.now);
    ElapsedNeverOverstates(ConversionAfter(c, i).last, c.now);
  }

  /** Of any two visits in a row of sensors on a bus that starts and completes conversions when it is asked, at least
      one finds a complete conversion. */
  lemma {:induction false} TwoVisitsComplete(v: Conversion, now: nat, later: nat, a: Answer, a': Answer)
    requires (!v.pending ==> a.starts) && (v.pending ==> a.done) && a'.done
    ensures var v1 := UpdateConversion(v, true, a, now);
      var v2 := UpdateConversion(v1, true, a', later);
      (!v1.pending && v1.ready) || (!v2.pending && v2.ready && v2.last == later)
  {
  }

  class MeteoController {
    var controller_enabled: bool
    var scan_index: nat
    var conversion: Conversion
    const sensors: array<Sensor>
    const last_read: array<nat>

    constructor ()
      ensures Valid() && !controller_enabled && scan_index == 0 && conversion == NO_CONVERSION
      ensures fresh(sensors) && fresh(last_read)
    {
      controller_enabled, scan_index, conversion := false, 0, NO_CONVERSION;
      sensors := new Sensor[SENSORS](_ => Sensor(false, NoSensor, 0, 0));
      last_read := new nat[SENSORS](_ => 0);
    }

    ghost predicate Valid() { sensors.Length == SENSORS && last_read.Length == SENSORS }

    ghost function SceneAt(now: nat, bus: Bus): (c: Scene)
      requires Valid() && AnswersAll(bus)
      ensures Set(c)
      reads this, sensors, last_read
    {
      Scene(sensors[..], last_read[..], scan_index, now, bus, conversion)
    }

    /** The scan loop of `task`. */
    method Scan(now: nat, bus: Bus) returns (selected: Option<nat>)
      requires Valid() && AnswersAll(bus)
      modifies this`conversion
      ensures (selected, conversion) == Scanned(old(SceneAt(now, bus)), 0, old(conversion))
    {
      ghost var c := SceneAt(now, bus);
      var i := 0;
      while i < SENSORS
        invariant i <= SENSORS && Scanned(c, 0, old(conversion)) == Scanned(c, i, conversion)
      {
        var idx := (scan_index + i) % SENSORS;
        var due := IsDueNow(idx, now, bus.there, bus.answers[i]);
        if due { return Some(idx); }
        i := i + 1;
      }
      return None;
    }

    /** The checks of the loop body; a DS18B20 sensor moves the conversion on. */
    method IsDueNow(idx: nat, now: nat, there: bool, a: Answer) returns (due: bool)
      requires Valid() && idx < SENSORS
      modifies this`conversion
      ensures conversion == if AsksBus(sensors[idx], last_read[idx], now)
                            then UpdateConversion(old(conversion), there, a, now) else old(conversion)
      ensures due == IsDue(sensors[idx], last_read[idx], now, !conversion.pending && conversion.ready)
    {
      var cfg, last := sensors[idx], last_read[idx];
      if !cfg.enabled { return false; }
      if cfg.source_node != 0 && cfg.source_sensor != 0 {
        return !(Low(last) != 0 && Sub(Low(now), Low(last)) < REMOTE_INTERVAL_MS);
      }
      if cfg.kind == NoSensor { return false; }
      var interval := if cfg.kind == Dht22 then DHT22_INTERVAL_MS else DS18B20_INTERVAL_MS;
      if Low(last) != 0 && Sub(Low(now), Low(last)) < interval { return false; }
      if cfg.kind == Ds18b20 {
        UpdateConversion_(there, a, now);
        return !conversion.pending && conversion.ready;
      }
      return true;
    }

    method UpdateConversion_(there: bool, a: Answer, now: nat)
      modifies this`conversion
      ensures conversion == UpdateConversion(old(conversion), there, a, now)
    {
      if !there { return; }
      if conversion.pending {
        if a.done { conversion := Conversion(false, true, now); }
        return;
      }
      if !conversion.ready || Sub(Low(now), Low(conversion.last)) >= DS18B20_INTERVAL_MS {
        if a.starts {
          conversion := conversion.(pending := true);
        } else {
          conversion := conversion.(ready := false);
        }
      }
    }

    /** `task`. While the sensor is read without the lock the controller may be switched off, or the sensor's
        configuration changed; `lost` tells that a DS18B20 read failed on the bus, which starts its conversions over. */
    method Task(now: nat, bus: Bus, off_meanwhile: bool, changed: bool, lost: bool) returns (selected: Option<nat>)
      requires Valid() && AnswersAll(bus)
      modifies this, last_read
      ensures selected ==
        if old(controller_enabled) then Scanned(old(SceneAt(now, bus)), 0, old(conversion)).0 else None
      ensures controller_enabled == (old(controller_enabled) && !(off_meanwhile && selected.Some?))
      ensures scan_index == if selected.Some? && !off_meanwhile then (selected.value + 1) % SENSORS else old(scan_index)
      ensures last_read[..] == if selected.Some? && !off_meanwhile && !changed
                               then old(last_read[..])[selected.value := now] else old(last_read[..])
      ensures conversion == if !old(controller_enabled) then old(conversion)
                            else if selected.Some? && !off_meanwhile && !changed && lost &&
                              sensors[selected.value].kind.Ds18b20?
                            then NO_CONVERSION else Scanned(old(SceneAt(now, bus)), 0, old(conversion)).1
    {
      if !controller_enabled { return None; }
      selected := Scan(now, bus);
      if selected == None { return; }
      if off_meanwhile { controller_enabled := false; }
      if !controller_enabled { return; }
      scan_index := (selected.value + 1) % SENSORS;
      if changed { return; }
      if sensors[selected.value].kind == Ds18b20 && lost { conversion := NO_CONVERSION; }
      last_read[selected.value] := now;
    }
  }

  // ----- no starvation

  lemma {:induction false} SelectsNearest(due: seq<bool>, scan: nat, i: nat, s: nat)
    requires |due| == SENSORS && s < SENSORS && due[s] && i <= Distance(scan, s)
    ensures var r := Selected(due, scan, i); r.Some? && Distance(scan, r.value) <= Distance(scan, s)
    decreases SENSORS - i
  {
    PlaceAtDistance(scan, s);
    DistanceOfPlace(scan, i);
    if due[Place(scan, i)] {
    } else {
      SelectsNearest(due, scan, i + 1, s);
    }
  }

  lemma PastIsNearer(scan: nat, r: nat, s: nat)
    requires r < SENSORS && s < SENSORS && r != s && Distance(scan, r) <= Distance(scan, s)
    ensures Distance((r + 1) % SENSORS, s) < Distance(scan, s)
  {
    PlaceAtDistance(scan, r);
    PlaceAtDistance(scan, s);
    var d, e := Distance(scan, r), Distance(scan, s);
    assert d != e;
    var q, p := (scan + d) / SENSORS, (scan + e) / SENSORS;
    assert s - (r + 1) == e - d - 1 + (q - p) * SENSORS;
    Cycle(r + 1, s, e - d - 1, q - p);
  }

  lemma Cycle(from: nat, s: nat, d: nat, k: int)
    requires d < SENSORS && s - from == d + k * SENSORS
    ensures Distance(from % SENSORS, s) == d
  {
    var q := from / SENSORS;
    assert s - from % SENSORS == d + (k + q) * SENSORS;
  }

  ghost predicate CallAt(scans: seq<nat>, dues: seq<seq<bool>>, k: nat)
    requires k < |dues| && |scans| == |dues| + 1
  {
    |dues[k]| == SENSORS && scans[k + 1] == Advanced(dues[k], scans[k], true)
  }

  /** Consecutive calls that each end with the controller enabled. */
  ghost predicate IsRun(scans: seq<nat>, dues: seq<seq<bool>>) {
    |scans| == |dues| + 1 && forall k :: 0 <= k < |dues| ==> CallAt(scans, dues, k)
  }

  /** While a sensor stays due and is not chosen, every call brings the scan index nearer to it. */
  lemma {:induction false} WaitingDescends(scans: seq<nat>, dues: seq<seq<bool>>, s: nat, k: nat)
    requires IsRun(scans, dues) && s < SENSORS && k <= |dues|
    requires forall j :: 0 <= j < k ==> |dues[j]| == SENSORS && dues[j][s] && Selected(dues[j], scans[j], 0) != Some(s)
    ensures Distance(scans[k], s) + k <= Distance(scans[0], s)
  {
    if k == 0 {
    } else {
      WaitingDescends(scans, dues, s, k - 1);
      assert CallAt(scans, dues, k - 1);
      SelectsNearest(dues[k - 1], scans[k - 1], 0, s);
      PastIsNearer(scans[k - 1], Selected(dues[k - 1], scans[k - 1], 0).value, s);
    }
  }

  /** No sensor starves: one that stays due for fifty calls is chosen in one of them, whatever the others do. */
  lemma {:induction false} ChosenWithinFifty(scans: seq<nat>, dues: seq<seq<bool>>, s: nat)
    requires IsRun(scans, dues) && s < SENSORS && |dues| == SENSORS
    requires forall j :: 0 <= j < |dues| ==> |dues[j]| == SENSORS && dues[j][s]
    ensures exists k :: 0 <= k < |dues| && Selected(dues[k], scans[k], 0) == Some(s)
  {
    if forall k :: 0 <= k < |dues| ==> Selected(dues[k], scans[k], 0) != Some(s) {
      WaitingDescends(scans, dues, s, SENSORS);
      assert false;
    }
  }

  // ----- sensors that need nothing but time

  /** One enabled call: the index advances, and the sensor read, if any, gets the time of the call. */
  ghost predicate ReadsAt(sensors: seq<Sensor>, scans: seq<nat>, lasts: seq<seq<nat>>, calls: seq<Call>, k: nat)
    requires k < |calls| && |scans| == |lasts| == |calls| + 1
  {
    && |sensors| == |lasts[k]| == |calls[k].ready| == SENSORS
    && (k > 0 ==> calls[k - 1].now <= calls[k].now)
    && var due := DueAt(sensors, lasts[k], calls[k]);
    && scans[k + 1] == Advanced(due, scans[k], true)
    && match Selected(due, scans[k], 0)
       case None => lasts[k + 1] == lasts[k]
       case Some(i) => lasts[k + 1] == lasts[k][i := calls[k].now] || lasts[k + 1] == lasts[k]
  }

  ghost predicate Reads(sensors: seq<Sensor>, scans: seq<nat>, lasts: seq<seq<nat>>, calls: seq<Call>) {
    |scans| == |lasts| == |calls| + 1 && forall k :: 0 <= k < |calls| ==> ReadsAt(sensors, scans, lasts, calls, k)
  }

  predicate ChosenAt(sensors: seq<Sensor>, scans: seq<nat>, lasts: seq<seq<nat>>, calls: seq<Call>, s: nat, k: nat)
    requires k < |calls| && |scans| == |lasts| == |calls| + 1 && |sensors| == |lasts[k]| == |calls[k].ready| == SENSORS
  {
    Selected(DueAt(sensors, lasts[k], calls[k]), scans[k], 0) == Some(s)
  }

  /** A sensor that was due stays due, until the clock has gone all the way round since its last read. */
  lemma StaysDue(s: Sensor, last: nat, now: nat, later: nat, ready: bool, ready': bool)
    requires IsDue(s, last, now, ready) && (IsRemote(s) || s.kind.Dht22?) && last <= now <= later
    requires Low(last) != 0 ==> later < last + WORD
    ensures IsDue(s, last, later, ready')
  {
    if Low(last) != 0 {
      ElapsedNeverOverstates(last, now);
      ElapsedNeverOverstates(last, later);
    }
  }

  /** A remote or DHT22 sensor. */
  predicate NeedsOnlyTime(s: Sensor) { s.enabled && (IsRemote(s) || s.kind.Dht22?) }

  lemma {:induction false} UnchosenStaysDue(
      sensors: seq<Sensor>, scans: seq<nat>, lasts: seq<seq<nat>>, calls: seq<Call>, s: nat, k: nat)
    requires Reads(sensors, scans, lasts, calls) && k < |calls| && s < SENSORS == |sensors| && NeedsOnlyTime(sensors[s])
    requires |lasts[0]| == SENSORS == |calls[0].ready| && lasts[0][s] <= calls[0].now
    requires IsDue(sensors[s], lasts[0][s], calls[0].now, calls[0].ready[s])
    requires Low(lasts[0][s]) != 0 ==> calls[k].now < lasts[0][s] + WORD
    requires forall j :: 0 <= j < k ==>
      ReadsAt(sensors, scans, lasts, calls, j) && !ChosenAt(sensors, scans, lasts, calls, s, j)
    ensures |lasts[k]| == |calls[k].ready| == SENSORS && lasts[k][s] == lasts[0][s] && calls[0].now <= calls[k].now
    ensures DueAt(sensors, lasts[k], calls[k])[s]
  {
    assert ReadsAt(sensors, scans, lasts, calls, k);
    if k == 0 {
    } else {
      assert ReadsAt(sensors, scans, lasts, calls, k - 1) && !ChosenAt(sensors, scans, lasts, calls, s, k - 1);
      UnchosenStaysDue(sensors, scans, lasts, calls, s, k - 1);
      StaysDue(sensors[s], lasts[0][s], calls[0].now, calls[k].now, calls[0].ready[s], calls[k].ready[s]);
    }
  }

  /** So an enabled remote or DHT22 sensor that is due is read within fifty enabled calls, whatever the others do, as
      long as they come within 2^32 ms of its last read. */
  lemma {:induction false} DueIsReadWithinFifty(
      sensors: seq<Sensor>, scans: seq<nat>, lasts: seq<seq<nat>>, calls: seq<Call>, s: nat)
    requires Reads(sensors, scans, lasts, calls) && |calls| == SENSORS && s < SENSORS == |sensors| &&
      NeedsOnlyTime(sensors[s])
    requires |lasts[0]| == SENSORS == |calls[0].ready| && lasts[0][s] <= calls[0].now
    requires IsDue(sensors[s], lasts[0][s], calls[0].now, calls[0].ready[s])
    requires Low(lasts[0][s]) != 0 ==> forall k :: 0 <= k < |calls| ==> calls[k].now < lasts[0][s] + WORD
    ensures exists k ::
      0 <= k < |calls| && ReadsAt(sensors, scans, lasts, calls, k) && ChosenAt(sensors, scans, lasts, calls, s, k)
  {
    var dues := DuesOf(sensors, scans, lasts, calls);
    if forall j :: 0 <= j < |calls| ==>
      ReadsAt(sensors, scans, lasts, calls, j) && !ChosenAt(sensors, scans, lasts, calls, s, j)
    {
      forall k | 0 <= k < |calls| ensures |dues[k]| == SENSORS && dues[k][s] && CallAt(scans, dues, k) {
        assert ReadsAt(sensors, scans, lasts, calls, k);
        UnchosenStaysDue(sensors, scans, lasts, calls, s, k);
      }
      ChosenWithinFifty(scans, dues, s);
      assert false;
    }
  }

  ghost function DuesOf(
      sensors: seq<Sensor>, scans: seq<nat>, lasts: seq<seq<nat>>, calls: seq<Call>): (dues: seq<seq<bool>>)
    requires Reads(sensors, scans, lasts, calls)
    ensures |dues| == |calls|
  {
    seq(|calls|, k requires 0 <= k < |calls| =>
      if ReadsAt(sensors, scans, lasts, calls, k) then DueAt(sensors, lasts[k], calls[k]) else [])
  }
}
