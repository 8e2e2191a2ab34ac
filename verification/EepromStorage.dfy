/** Wear-levelled snapshots. Each kind is a ring of slots; a save takes the next slot with the next
    sequence number, a load scans the ring for the newest header. */
module EepromStorage {
  import opened Clock
  import opened At24lc512
  import opened EepromLayout
  import opened Options

  // ----- headers

  datatype Header = Header(magic: int, version: int, count: int, seqno: uint32)

  function Le(x: int, n: nat): (s: seq<byte>)
    ensures |s| == n
    decreases n
  {
    if n == 0 then [] else [x % 256] + Le(x / 256, n - 1)
  }

  function FromLe(s: seq<byte>): nat {
    if s == [] then 0 else s[0] + 256 * FromLe(s[1..])
  }

  function Pow256(n: nat): (p: nat)
    ensures p >= 1
  {
    if n == 0 then 1 else 256 * Pow256(n - 1)
  }

  lemma {:induction false} LeRoundTrip(x: nat, n: nat)
    requires x < Pow256(n)
    ensures FromLe(Le(x, n)) == x
  {
    if n == 0 {
    } else {
      LeRoundTrip(x / 256, n - 1);
      assert Le(x, n)[1..] == Le(x / 256, n - 1);
    }
  }

  lemma {:induction false} FromLeBound(s: seq<byte>)
    ensures FromLe(s) < Pow256(|s|)
  {
    if s == [] {
    } else {
      FromLeBound(s[1..]);
    }
  }

  function Encode(h: Header): (s: seq<byte>)
    ensures |s| == HEADER_BYTES
  {
    Le(h.magic, 4) + Le(h.version, 2) + Le(h.count, 2) + Le(h.seqno, 4)
  }

  function Decode(s: seq<byte>): Header
    requires |s| == HEADER_BYTES
  {
    FromLeBound(s[8..12]);
    Pow256Of4();
    Header(FromLe(s[0..4]), FromLe(s[4..6]), FromLe(s[6..8]), FromLe(s[8..12]))
  }

  lemma Pow256Of4()
    ensures Pow256(4) == WORD && Pow256(2) == 65536
  {
    assert Pow256(1) == 256 * Pow256(0);
    assert Pow256(2) == 256 * Pow256(1);
    assert Pow256(3) == 256 * Pow256(2);
  }

  function HeaderFor(k: Kind, seqno: uint32): Header {
    Header(Magic(k), Version(k), Count(k), seqno)
  }

  /** The checks every load makes; the security load does not look at its reserved field. */
  predicate Matches(h: Header, k: Kind) {
    h.magic == Magic(k) && h.version == Version(k) && (k.Security? || h.count == Count(k))
  }

  lemma {:induction false} HeaderRoundTrip(k: Kind, seqno: uint32)
    ensures Decode(Encode(HeaderFor(k, seqno))) == HeaderFor(k, seqno)
  {
    var h := HeaderFor(k, seqno);
    var s := Encode(h);
    Pow256Of4();
    LeRoundTrip(h.magic, 4);
    LeRoundTrip(h.version, 2);
    LeRoundTrip(h.count, 2);
    LeRoundTrip(h.seqno, 4);
    assert s[0..4] == Le(h.magic, 4) && s[4..6] == Le(h.version, 2);
    assert s[6..8] == Le(h.count, 2) && s[8..12] == Le(h.seqno, 4);
  }

  // ----- one kind's log as a value

  /** `_last_slot`, `_last_seq`, `_has_seq`. */
  datatype Cursor = Cursor(slot: nat, seqno: uint32, known: bool)

  const FRESH := Cursor(0, 0, false)

  datatype Log = Log(chip: Image, cur: Cursor)

  /** The slot and sequence number the next save will use. */
  function Next(slots: nat, cur: Cursor): (r: (nat, uint32))
    requires slots > 0
    ensures r.0 < slots
  {
    if slots > 1 && cur.known then ((cur.slot + 1) % slots, Add(cur.seqno, 1)) else (0, 1)
  }

  /** The bytes a save stores, header first. */
  function Record(k: Kind, seqno: uint32, payload: seq<byte>): (s: seq<byte>)
    ensures |s| == HEADER_BYTES + |payload|
  {
    Encode(HeaderFor(k, seqno)) + payload
  }

  function Saved(c: Config, k: Kind, log: Log, payload: seq<byte>): Log
    requires c.Valid() && |payload| == PayloadSize(k)
  {
    var (slot, seqno) := Next(c.slots, log.cur);
    Log(FlatWrite(log.chip, SlotBase(c, k, slot), Record(k, seqno, payload)), Cursor(slot, seqno, true))
  }

  /** A save cut off after `n` bytes: the cursor does not move. */
  function Torn(c: Config, k: Kind, log: Log, payload: seq<byte>, n: nat): Log
    requires c.Valid() && |payload| == PayloadSize(k) && n <= SlotSize(k)
  {
    var (slot, seqno) := Next(c.slots, log.cur);
    log.(chip := FlatWrite(log.chip, SlotBase(c, k, slot), Record(k, seqno, payload)[..n]))
  }

  type RawHeader = s: seq<byte> | |s| == 12 witness [0, 0, 0, 0, 0, 0, 0, 0, 0, 0, 0, 0]

  /** What a slot reads as. */
  datatype Slot = Slot(header: RawHeader, payload: seq<byte>)

  function SlotAt(c: Config, k: Kind, chip: Image, i: nat): Slot
    requires c.Valid()
  {
    Slot(FlatRead(chip, SlotBase(c, k, i), HEADER_BYTES),
         FlatRead(chip, (SlotBase(c, k, i) + HEADER_BYTES) % SIZE, PayloadSize(k)))
  }

  /** The ring of kind `k` as it reads. */
  function Ring(c: Config, k: Kind, chip: Image): (r: seq<Slot>)
    requires c.Valid()
    ensures |r| == c.slots
  {
    seq(c.slots, i requires 0 <= i < c.slots => SlotAt(c, k, chip, i))
  }

  /** The sequence number of a header of kind `k`; none if the header is not of that kind. */
  function Stamp(k: Kind, raw: RawHeader): Option<uint32> {
    var h := Decode(raw);
    if Matches(h, k) then Some(h.seqno) else None
  }

  function Stamps(k: Kind, ring: seq<Slot>): (r: seq<Option<uint32>>)
    ensures |r| == |ring|
  {
    seq(|ring|, i requires 0 <= i < |ring| => Stamp(k, ring[i].header))
  }

  /** The slot the scan has settled on after looking at the first `n` slots. */
  function Newest(stamps: seq<Option<uint32>>, n: nat): (r: Option<nat>)
    requires n <= |stamps|
    ensures r.Some? ==> r.value < n && stamps[r.value].Some?
  {
    if n == 0 then None else
      var best := Newest(stamps, n - 1);
      if stamps[n - 1].None? then best
      else if best.None? || NotBefore(stamps[n - 1].value, stamps[best.value].value) then Some(n - 1)
      else best
  }

  predicate IsLegacy(k: Kind, h: Header) {
    k.Sockets? && h.magic == Magic(Sockets) && h.version == LEGACY_VERSION && h.count == Count(Sockets)
  }

  /** The version-1 socket record a first load falls back to. */
  function Legacy(c: Config, k: Kind, chip: Image): Option<seq<byte>>
    requires c.Valid()
  {
    if IsLegacy(k, Decode(FlatRead(chip, c.base, HEADER_BYTES)))
    then Some(FlatRead(chip, (c.base + HEADER_BYTES) % SIZE, PayloadSize(Sockets)))
    else None
  }

  function Loaded(c: Config, k: Kind, log: Log): (Option<seq<byte>>, Log)
    requires c.Valid()
  {
    LoadedFrom(k, Ring(c, k, log.chip), Legacy(c, k, log.chip), log)
  }

  function LoadedFrom(k: Kind, ring: seq<Slot>, legacy: Option<seq<byte>>, log: Log): (Option<seq<byte>>, Log) {
    Picked(ring, Stamps(k, ring), legacy, log)
  }

  /** The payload of the newest slot, to which the cursor moves. */
  function Picked(
      ring: seq<Slot>, stamps: seq<Option<uint32>>, legacy: Option<seq<byte>>, log: Log): (Option<seq<byte>>, Log)
    requires |stamps| == |ring|
  {
    match Newest(stamps, |stamps|)
    case Some(i) => (Some(ring[i].payload), log.(cur := Cursor(i, stamps[i].value, true)))
    case None => (legacy, log)
  }

  /** What the scan has to go by when the headers of the slots in `unread` could not be read. */
  function Masked(stamps: seq<Option<uint32>>, unread: set<nat>): (r: seq<Option<uint32>>)
    ensures |r| == |stamps|
    ensures unread == {} ==> r == stamps
  {
    seq(|stamps|, i requires 0 <= i < |stamps| => if i in unread then None else stamps[i])
  }

  /** A load on a bus that fails for the headers in `unread`. */
  function LoadedWithout(c: Config, k: Kind, log: Log, unread: set<nat>): (Option<seq<byte>>, Log)
    requires c.Valid()
  {
    var ring := Ring(c, k, log.chip);
    Picked(ring, Masked(Stamps(k, ring), unread), Legacy(c, k, log.chip), log)
  }

  // ----- how chip writes move the ring

  /** A write leaves bytes outside its own range as they were. */
  lemma ReadElsewhere(m: Image, a: nat, data: seq<byte>, b: nat, len: nat)
    requires a + |data| <= SIZE && b + len <= SIZE
    requires Disjoint(a, |data|, b, len)
    ensures FlatRead(FlatWrite(m, a, data), b, len) == FlatRead(m, b, len)
  {
    forall j | 0 <= j < len
      ensures FlatRead(FlatWrite(m, a, data), b, len)[j] == FlatRead(m, b, len)[j]
    {
      assert (b + j) % SIZE == b + j;
      if b + j < a {
        ModUnique(b + j - a, -1, b + j - a + SIZE);
      }
    }
  }

  lemma ReadEitherSide(m: Image, a: nat, data: seq<byte>, b: nat, n: nat)
    requires a + |data| <= SIZE && b + HEADER_BYTES + n <= SIZE && n > 0
    requires Disjoint(a, |data|, b, HEADER_BYTES + n)
    ensures FlatRead(FlatWrite(m, a, data), b, HEADER_BYTES) == FlatRead(m, b, HEADER_BYTES)
    ensures FlatRead(FlatWrite(m, a, data), (b + HEADER_BYTES) % SIZE, n) == FlatRead(m, (b + HEADER_BYTES) % SIZE, n)
  {
    ReadElsewhere(m, a, data, b, HEADER_BYTES);
    assert (b + HEADER_BYTES) % SIZE == b + HEADER_BYTES;
    ReadElsewhere(m, a, data, b + HEADER_BYTES, n);
  }

  /** Writing in one slot leaves every other slot, of any kind, as it was. */
  lemma {:induction false} SlotUntouched(c: Config, k: Kind, slot: nat, data: seq<byte>, k': Kind, i: nat, m: Image)
    requires c.Valid() && WellPlaced(c) && slot < c.slots && i < c.slots
    requires !SameSlot(k, slot, k', i) && |data| <= SlotSize(k)
    ensures SlotAt(c, k', FlatWrite(m, SlotBase(c, k, slot), data), i) == SlotAt(c, k', m, i)
  {
    var a, b := SlotBase(c, k, slot), SlotBase(c, k', i);
    assert ShareNothing(c, k, slot, k', i) && InMemory(c, k, slot) && InMemory(c, k', i);
    ReadEitherSide(m, a, data, b, PayloadSize(k'));
  }

  lemma ReadParts(m: Image, a: nat, header: seq<byte>, payload: seq<byte>)
    requires |header| + |payload| <= SIZE
    ensures FlatRead(FlatWrite(m, a, header + payload), a, |header|) == header
    ensures FlatRead(FlatWrite(m, a, header + payload), (a + |header|) % SIZE, |payload|) == payload
  {
    var all := header + payload;
    var m' := FlatWrite(m, a, all);
    ReadBack(m, a, all);
    ReadJoin(m', a, |header|, |payload|);
    var first, second := FlatRead(m', a, |header|), FlatRead(m', (a + |header|) % SIZE, |payload|);
    assert first == (first + second)[..|header|] && second == (first + second)[|header|..];
  }

  /** A save replaces one slot of its own ring. */
  lemma {:induction false} SavedRing(c: Config, k: Kind, log: Log, payload: seq<byte>)
    requires c.Valid() && WellPlaced(c) && |payload| == PayloadSize(k)
    ensures var (slot, seqno) := Next(c.slots, log.cur);
      Ring(c, k, Saved(c, k, log, payload).chip)
      == Ring(c, k, log.chip)[slot := Slot(Encode(HeaderFor(k, seqno)), payload)]
  {
    var (slot, seqno) := Next(c.slots, log.cur);
    ReadParts(log.chip, SlotBase(c, k, slot), Encode(HeaderFor(k, seqno)), payload);
    OthersUntouched(c, k, slot, Record(k, seqno, payload), log.chip);
  }

  lemma OthersUntouched(c: Config, k: Kind, slot: nat, data: seq<byte>, m: Image)
    requires c.Valid() && WellPlaced(c) && slot < c.slots && |data| <= SlotSize(k)
    ensures forall i :: 0 <= i < c.slots && i != slot ==>
      Ring(c, k, FlatWrite(m, SlotBase(c, k, slot), data))[i] == Ring(c, k, m)[i]
  {
    forall i | 0 <= i < c.slots && i != slot
      ensures Ring(c, k, FlatWrite(m, SlotBase(c, k, slot), data))[i] == Ring(c, k, m)[i]
    {
      SlotUntouched(c, k, slot, data, k, i, m);
    }
  }

  /** Saving one kind never changes what another kind's ring reads as. */
  lemma {:induction false} OtherRing(c: Config, k: Kind, slot: nat, data: seq<byte>, k': Kind, m: Image)
    requires c.Valid() && WellPlaced(c) && slot < c.slots && |data| <= SlotSize(k) && k != k'
    ensures Ring(c, k', FlatWrite(m, SlotBase(c, k, slot), data)) == Ring(c, k', m)
  {
    forall i | 0 <= i < c.slots
      ensures Ring(c, k', FlatWrite(m, SlotBase(c, k, slot), data))[i] == Ring(c, k', m)[i]
    {
      SlotUntouched(c, k, slot, data, k', i, m);
    }
  }

  // ----- the invariant of a ring after `n` saves

  /** How many saves ago slot `i` was last written, if it was. */
  function Age(slots: nat, last: nat, i: nat): nat
    requires last < slots && i < slots
  {
    if i <= last then last - i else last - i + slots
  }

  ghost predicate SlotHolds(stamps: seq<Option<uint32>>, cur: Cursor, n: nat, i: nat)
    requires i < |stamps| && cur.slot < |stamps|
  {
    var age := Age(|stamps|, cur.slot, i);
    stamps[i] == if age < n then Some(Low(cur.seqno - age)) else None
  }

  /** `n` saves so far: the live slots hold consecutive sequence numbers, whatever the counter's
      wrap. After a torn save (`clean` false) the slot the next save will use holds anything. */
  ghost predicate Holds(stamps: seq<Option<uint32>>, cur: Cursor, n: nat, clean: bool) {
    && cur.slot < |stamps|
    && (cur.known <==> n > 0)
    && forall i :: 0 <= i < |stamps| && (clean || i != Next(|stamps|, cur).0) ==> SlotHolds(stamps, cur, n, i)
  }

  lemma SeqOneOlder(s: uint32, age: nat)
    ensures Low(Add(s, 1) - (age + 1)) == Low(s - age)
  {
    if s + 1 == WORD {
      ModOfMultiple(s - age, -1);
    }
  }

  /** A successful save, also one that repeats a torn save, leaves a clean ring one save longer. */
  lemma {:induction false} SaveKeeps(stamps: seq<Option<uint32>>, cur: Cursor, n: nat, clean: bool)
    requires Holds(stamps, cur, n, clean)
    ensures var (slot, seqno) := Next(|stamps|, cur);
      Holds(stamps[slot := Some(seqno)], Cursor(slot, seqno, true), n + 1, true)
  {
    var (slot, seqno) := Next(|stamps|, cur);
    var stamps', cur', m := stamps[slot := Some(seqno)], Cursor(slot, seqno, true), n + 1;
    assert Low(seqno) == seqno;
    forall i | 0 <= i < |stamps'|
      ensures SlotHolds(stamps', cur', m, i)
    {
      if i != slot {
        assert SlotHolds(stamps, cur, n, i);
        OneOlder(|stamps|, cur, n, i);
      }
    }
  }

  /** One save makes every slot it does not write one save older. */
  lemma OneOlder(slots: nat, cur: Cursor, n: nat, i: nat)
    requires cur.slot < slots && (cur.known <==> n > 0)
    requires i < slots && i != Next(slots, cur).0
    ensures var (slot, seqno) := Next(slots, cur);
      if n > 0 then
        && Age(slots, slot, i) == Age(slots, cur.slot, i) + 1
        && Low(seqno - Age(slots, slot, i)) == Low(cur.seqno - Age(slots, cur.slot, i))
      else Age(slots, slot, i) >= 1
  {
    var (slot, seqno) := Next(slots, cur);
    if n > 0 {
      NextInRing(slots, cur.slot, slot);
      AgeGrows(slots, cur.slot, slot, i);
      if slots > 1 { SeqOneOlder(cur.seqno, Age(slots, cur.slot, i)); }
    }
  }

  lemma NextInRing(slots: nat, slot: nat, next: nat)
    requires slot < slots && next == (if slots > 1 then (slot + 1) % slots else 0)
    ensures next == if slot + 1 < slots then slot + 1 else 0
  {
    if slots > 1 {
      if slot + 1 < slots { SmallMod(slot + 1, slots); } else { assert slot + 1 == slots; }
    }
  }

  lemma SmallMod(x: nat, n: nat)
    requires x < n
    ensures x % n == x
  {
  }

  lemma AgeGrows(slots: nat, last: nat, next: nat, i: nat)
    requires last < slots && i < slots && i != next && next == if last + 1 < slots then last + 1 else 0
    ensures Age(slots, next, i) == Age(slots, last, i) + 1
  {
  }

  /** Although the sequence comparison is not transitive, on a clean ring the scan always holds
      the youngest live slot it has seen. */
  lemma {:induction false} ScanFindsYoungest(stamps: seq<Option<uint32>>, cur: Cursor, n: nat, upto: nat)
    requires Holds(stamps, cur, n, true) && upto <= |stamps| < HALF
    ensures var r := Newest(stamps, upto);
      && (r.Some? ==> Age(|stamps|, cur.slot, r.value) < n)
      && forall i :: 0 <= i < upto && Age(|stamps|, cur.slot, i) < n ==>
           r.Some? && Age(|stamps|, cur.slot, r.value) <= Age(|stamps|, cur.slot, i)
  {
    if upto == 0 {
    } else {
      ScanFindsYoungest(stamps, cur, n, upto - 1);
      var best := Newest(stamps, upto - 1);
      var j := upto - 1;
      assert SlotHolds(stamps, cur, n, j);
      if best.Some? && Age(|stamps|, cur.slot, j) < n {
        assert SlotHolds(stamps, cur, n, best.value);
        NotBeforeIsOrder(cur.seqno - Age(|stamps|, cur.slot, j), cur.seqno - Age(|stamps|, cur.slot, best.value));
      }
    }
  }

  /** So a full scan of a clean ring ends on the slot saved last. */
  lemma {:induction false} NewestIsLastSaved(stamps: seq<Option<uint32>>, cur: Cursor, n: nat)
    requires Holds(stamps, cur, n, true) && |stamps| < HALF
    ensures Newest(stamps, |stamps|) == if n > 0 then Some(cur.slot) else None
    ensures n > 0 ==> stamps[cur.slot] == Some(cur.seqno)
  {
    ScanFindsYoungest(stamps, cur, n, |stamps|);
    assert SlotHolds(stamps, cur, n, cur.slot);
    assert Age(|stamps|, cur.slot, cur.slot) == 0;
  }

  // ----- whole runs

  /** What can happen to one kind's log. `Other` is any write, whole or torn, by another kind. */
  datatype Event =
    | Save(payload: seq<byte>)
    | TornSave(payload: seq<byte>, cut: nat)
    | Load
    | RebootAndLoad
    | Other(kind: Kind, slot: nat, data: seq<byte>)

  ghost predicate Possible(c: Config, k: Kind, e: Event, clean: bool) {
    match e
    case Save(p) => |p| == PayloadSize(k)
    case TornSave(p, cut) => |p| == PayloadSize(k) && cut <= SlotSize(k)
    case Load => clean
    case RebootAndLoad => clean
    case Other(k', slot, data) => k' != k && slot < c.slots && |data| <= SlotSize(k')
  }

  /** What a run has done to the log so far: its successful saves, the payload of the last one,
      and whether nothing has been torn since. */
  datatype History = History(saves: nat, last: Option<seq<byte>>, clean: bool)

  ghost function Note(h: History, e: Event): History {
    match e
    case Save(p) => History(h.saves + 1, Some(p), true)
    case TornSave(_, _) => h.(clean := false)
    case _ => h
  }

  ghost function HistoryOf(events: seq<Event>): History {
    if events == [] then History(0, None, true)
    else Note(HistoryOf(events[..|events| - 1]), events[|events| - 1])
  }

  /** Runs in which no load falls between a torn save and the save that repeats it. */
  ghost predicate LegalRun(c: Config, k: Kind, events: seq<Event>) {
    events != [] ==>
      LegalRun(c, k, events[..|events| - 1]) &&
      Possible(c, k, events[|events| - 1], HistoryOf(events[..|events| - 1]).clean)
  }

  function Step(c: Config, k: Kind, log: Log, e: Event): Log
    requires c.Valid()
  {
    match e
    case Save(p) => if |p| == PayloadSize(k) then Saved(c, k, log, p) else log
    case TornSave(p, cut) => if |p| == PayloadSize(k) && cut <= SlotSize(k) then Torn(c, k, log, p, cut) else log
    case Load => Loaded(c, k, log).1
    case RebootAndLoad => Loaded(c, k, log.(cur := FRESH)).1
    case Other(k', slot, data) =>
      if |data| <= SIZE then log.(chip := FlatWrite(log.chip, SlotBase(c, k', slot), data)) else log
  }

  function After(c: Config, k: Kind, chip: Image, events: seq<Event>): Log
    requires c.Valid()
  {
    if events == [] then Log(chip, FRESH)
    else Step(c, k, After(c, k, chip, events[..|events| - 1]), events[|events| - 1])
  }

  ghost predicate NoHeaders(c: Config, k: Kind, chip: Image)
    requires c.Valid()
  {
    forall stamp <- Stamps(k, Ring(c, k, chip)) :: stamp.None?
  }

  ghost predicate LogHolds(c: Config, k: Kind, log: Log, h: History)
    requires c.Valid()
  {
    RingHolds(k, Ring(c, k, log.chip), log.cur, h)
  }

  ghost predicate RingHolds(k: Kind, ring: seq<Slot>, cur: Cursor, h: History) {
    && (h.saves > 0 <==> h.last.Some?)
    && (h.saves == 0 ==> cur == FRESH)
    && Holds(Stamps(k, ring), cur, h.saves, h.clean)
    && (h.clean && h.last.Some? ==> ring[cur.slot].payload == h.last.value)
  }

  lemma {:induction false} RunHolds(c: Config, k: Kind, chip: Image, events: seq<Event>)
    requires c.Valid() && WellPlaced(c) && NoHeaders(c, k, chip) && LegalRun(c, k, events)
    ensures LogHolds(c, k, After(c, k, chip, events), HistoryOf(events))
  {
    if events == [] {
      var stamps := Stamps(k, Ring(c, k, chip));
      forall i | 0 <= i < c.slots ensures stamps[i].None? { assert stamps[i] in stamps; }
    } else {
      var before, e := events[..|events| - 1], events[|events| - 1];
      RunHolds(c, k, chip, before);
      StepHolds(c, k, After(c, k, chip, before), HistoryOf(before), e);
    }
  }

  ghost predicate StaysHeld(c: Config, k: Kind, log: Log, h: History, e: Event)
    requires c.Valid()
  {
    LogHolds(c, k, Step(c, k, log, e), Note(h, e))
  }

  /** Every event keeps the invariant of the ring. */
  lemma {:induction false} StepHolds(c: Config, k: Kind, log: Log, h: History, e: Event)
    requires c.Valid() && WellPlaced(c) && LogHolds(c, k, log, h) && Possible(c, k, e, h.clean)
    ensures StaysHeld(c, k, log, h, e)
  {
    if e.Save? {
      SaveHolds(c, k, log, h, e);
    } else if e.TornSave? {
      TornStepHolds(c, k, log, h, e.payload, e.cut);
      assert Step(c, k, log, e) == Torn(c, k, log, e.payload, e.cut);
    } else {
      OthersHold(c, k, log, h, e);
    }
  }

  lemma SaveHolds(c: Config, k: Kind, log: Log, h: History, e: Event)
    requires c.Valid() && WellPlaced(c) && LogHolds(c, k, log, h) && e.Save? && |e.payload| == PayloadSize(k)
    ensures StaysHeld(c, k, log, h, e)
  {
    SaveStepHolds(c, k, log, h, e.payload);
    StepOfSave(c, k, log, h, e);
  }

  lemma StepOfSave(c: Config, k: Kind, log: Log, h: History, e: Event)
    requires c.Valid() && e.Save? && |e.payload| == PayloadSize(k)
    ensures Step(c, k, log, e) == Saved(c, k, log, e.payload)
    ensures Note(h, e) == History(h.saves + 1, Some(e.payload), true)
  {
  }

  lemma OthersHold(c: Config, k: Kind, log: Log, h: History, e: Event)
    requires c.Valid() && WellPlaced(c) && LogHolds(c, k, log, h) && Possible(c, k, e, h.clean)
    requires e.Load? || e.RebootAndLoad? || e.Other?
    ensures StaysHeld(c, k, log, h, e)
  {
    if e.Other? { OtherKeeps(c, k, log, h, e.kind, e.slot, e.data); }
    else { LoadKeeps(c, k, log, h, if e.Load? then log.cur else FRESH); }
  }

  lemma LoadKeeps(c: Config, k: Kind, log: Log, h: History, cur: Cursor)
    requires c.Valid() && LogHolds(c, k, log, h) && h.clean
    requires cur == FRESH || cur == log.cur
    ensures LogHolds(c, k, Loaded(c, k, log.(cur := cur)).1, h)
  {
    LoadStepHolds(c, k, log, h, cur);
  }

  lemma OtherKeeps(c: Config, k: Kind, log: Log, h: History, k': Kind, slot: nat, data: seq<byte>)
    requires c.Valid() && WellPlaced(c) && LogHolds(c, k, log, h)
    requires k' != k && slot < c.slots && |data| <= SlotSize(k')
    ensures LogHolds(c, k, log.(chip := FlatWrite(log.chip, SlotBase(c, k', slot), data)), h)
  {
    OtherRing(c, k', slot, data, k, log.chip);
  }

  lemma StampsUpdate(k: Kind, ring: seq<Slot>, slot: nat, seqno: uint32, payload: seq<byte>)
    requires slot < |ring|
    ensures Stamps(k, ring[slot := Slot(Encode(HeaderFor(k, seqno)), payload)]) == Stamps(k, ring)[slot := Some(seqno)]
  {
    HeaderRoundTrip(k, seqno);
  }

  lemma SaveStepHolds(c: Config, k: Kind, log: Log, h: History, p: seq<byte>)
    requires c.Valid() && WellPlaced(c) && LogHolds(c, k, log, h) && |p| == PayloadSize(k)
    ensures LogHolds(c, k, Saved(c, k, log, p), History(h.saves + 1, Some(p), true))
  {
    SavedRing(c, k, log, p);
    RingSave(k, Ring(c, k, log.chip), log.cur, h, p);
  }

  lemma RingSave(k: Kind, ring: seq<Slot>, cur: Cursor, h: History, p: seq<byte>)
    requires RingHolds(k, ring, cur, h)
    ensures var (slot, seqno) := Next(|ring|, cur);
      RingHolds(k, ring[slot := Slot(Encode(HeaderFor(k, seqno)), p)], Cursor(slot, seqno, true),
                History(h.saves + 1, Some(p), true))
  {
    var (slot, seqno) := Next(|ring|, cur);
    StampsUpdate(k, ring, slot, seqno, p);
    SaveKeeps(Stamps(k, ring), cur, h.saves, h.clean);
  }

  /** A torn save disturbs only the slot the next save will take. */
  lemma TornStepHolds(c: Config, k: Kind, log: Log, h: History, p: seq<byte>, cut: nat)
    requires c.Valid() && WellPlaced(c) && LogHolds(c, k, log, h) && |p| == PayloadSize(k) && cut <= SlotSize(k)
    ensures LogHolds(c, k, Torn(c, k, log, p, cut), h.(clean := false))
  {
    var (slot, seqno) := Next(c.slots, log.cur);
    var ring, ring' := Ring(c, k, log.chip), Ring(c, k, Torn(c, k, log, p, cut).chip);
    OthersUntouched(c, k, slot, Record(k, seqno, p)[..cut], log.chip);
    TornHolds(Stamps(k, ring), Stamps(k, ring'), log.cur, h.saves, h.clean);
  }

  lemma TornHolds(stamps: seq<Option<uint32>>, stamps': seq<Option<uint32>>, cur: Cursor, n: nat, clean: bool)
    requires Holds(stamps, cur, n, clean) && |stamps'| == |stamps|
    requires forall i :: 0 <= i < |stamps| && i != Next(|stamps|, cur).0 ==> stamps'[i] == stamps[i]
    ensures Holds(stamps', cur, n, false)
  {
    forall i | 0 <= i < |stamps'| && i != Next(|stamps'|, cur).0
      ensures SlotHolds(stamps', cur, n, i)
    {
      assert SlotHolds(stamps, cur, n, i);
    }
  }

  /** A load of a clean log leaves it as it was, also when a reboot has cleared the cursor. */
  lemma LoadStepHolds(c: Config, k: Kind, log: Log, h: History, cur: Cursor)
    requires c.Valid() && LogHolds(c, k, log, h) && h.clean
    requires cur == FRESH || cur == log.cur
    ensures Loaded(c, k, log.(cur := cur)) == (if h.last.Some? then h.last else Legacy(c, k, log.chip), log)
  {
    NewestIsLastSaved(Stamps(k, Ring(c, k, log.chip)), log.cur, h.saves);
  }

  /** Over any run that ends cleanly, a load, with or without a reboot before it, returns exactly
      the last saved snapshot; before the first save it finds no current record. */
  lemma {:induction false} LoadReturnsLastSaved(c: Config, k: Kind, chip: Image, events: seq<Event>, rebooted: bool)
    requires c.Valid() && WellPlaced(c) && NoHeaders(c, k, chip)
    requires LegalRun(c, k, events) && HistoryOf(events).clean
    ensures var log := After(c, k, chip, events);
      var r := Loaded(c, k, if rebooted then log.(cur := FRESH) else log).0;
      var last := HistoryOf(events).last;
      if last.Some? then r == last else r == Legacy(c, k, log.chip)
  {
    RunHolds(c, k, chip, events);
    var log := After(c, k, chip, events);
    LoadStepHolds(c, k, log, HistoryOf(events), if rebooted then FRESH else log.cur);
  }

  /** The same for the default layout, for every slot count it has room for. */
  lemma {:induction false} DefaultLayoutLoadsLastSaved(
      c: Config, k: Kind, chip: Image, events: seq<Event>, rebooted: bool)
    requires c.Valid() && DefaultPlacement(c) && c.slots <= 156
    requires NoHeaders(c, k, chip) && LegalRun(c, k, events) && HistoryOf(events).clean && HistoryOf(events).last.Some?
    ensures var log := After(c, k, chip, events);
      Loaded(c, k, if rebooted then log.(cur := FRESH) else log).0 == HistoryOf(events).last
  {
    DefaultLayoutFits(c);
    LoadReturnsLastSaved(c, k, chip, events, rebooted);
  }

  /** Saving one kind, wholly or in part, never changes what loading any other kind returns, the
      version-1 socket record included. */
  lemma {:induction false} OtherKindsLoadTheSame(
      c: Config, k: Kind, log: Log, payload: seq<byte>, cut: nat, k': Kind, cur': Cursor)
    requires c.Valid() && WellPlaced(c) && k' != k && |payload| == PayloadSize(k) && cut <= SlotSize(k)
    ensures Loaded(c, k', Log(Torn(c, k, log, payload, cut).chip, cur')).0 == Loaded(c, k', Log(log.chip, cur')).0
    ensures Loaded(c, k', Log(Saved(c, k, log, payload).chip, cur')).0 == Loaded(c, k', Log(log.chip, cur')).0
  {
    var (slot, seqno) := Next(c.slots, log.cur);
    var all := Record(k, seqno, payload);
    LoadsTheSame(c, k, slot, all, log.chip, k', cur');
    LoadsTheSame(c, k, slot, all[..cut], log.chip, k', cur');
  }

  lemma LoadsTheSame(c: Config, k: Kind, slot: nat, data: seq<byte>, m: Image, k': Kind, cur': Cursor)
    requires c.Valid() && WellPlaced(c) && slot < c.slots && |data| <= SlotSize(k) && k != k'
    ensures Loaded(c, k', Log(FlatWrite(m, SlotBase(c, k, slot), data), cur')).0 == Loaded(c, k', Log(m, cur')).0
  {
    OtherRing(c, k, slot, data, k', m);
    LegacyFromRing(c, k', m);
    LegacyFromRing(c, k', FlatWrite(m, SlotBase(c, k, slot), data));
  }

  /** A version-1 socket record lies in slot 0 of the socket ring. */
  lemma LegacyFromRing(c: Config, k: Kind, m: Image)
    requires c.Valid()
    ensures Legacy(c, k, m) == LegacyIn(k, Ring(c, k, m)[0])
  {
    if k.Sockets? { assert SlotBase(c, k, 0) == c.base; }
  }

  function LegacyIn(k: Kind, first: Slot): Option<seq<byte>> {
    if IsLegacy(k, Decode(first.header)) then Some(first.payload) else None
  }

  // ----- the storage object

  lemma SumFirst(x: nat, s: seq<nat>)
    ensures Sum([x] + s) == x + Sum(s)
  {
    assert ([x] + s)[1..] == s;
  }

  lemma SumOfOne(a: nat)
    ensures Sum([a]) == a
  {
    SumFirst(a, []);
    assert [a] == [a] + [];
  }

  lemma SumOfTwo(a: nat, b: nat)
    ensures Sum([a, b]) == a + b
  {
    SumOfOne(b);
    SumFirst(a, [b]);
    assert [a, b] == [a] + [b];
  }

  lemma SumOfFour(a: nat, b: nat, c: nat, d: nat)
    ensures Sum([a, b, c, d]) == a + b + c + d
  {
    SumOfTwo(c, d);
    SumFirst(b, [c, d]);
    SumFirst(a, [b] + [c, d]);
    assert [a, b, c, d] == [a] + ([b] + [c, d]);
  }

  lemma FieldsFill(k: Kind)
    ensures Sum(Fields(k)) == PayloadSize(k)
  {
    match k
    case Sockets => SumOfTwo(9, 9);
    case Lights => SumOfTwo(9, 9);
    case Thermo => SumOfTwo(3, 40);
    case Tanks => SumOfOne(3);
    case Security => SumOfOne(1);
    case Watering => SumOfOne(4);
    case WateringRuntime => SumOfFour(4, 4, 120, 120);
  }

  lemma SumSplit(s: seq<nat>, i: nat)
    requires i < |s|
    ensures Sum(s[..i + 1]) == Sum(s[..i]) + s[i] <= Sum(s)
  {
    if i == 0 {
      assert s[..1] == [s[0]] && s[..0] == [];
      assert s[..1][1..] == [];
    } else {
      SumSplit(s[1..], i - 1);
      assert s[..i + 1][1..] == s[1..][..i] && s[..i][1..] == s[1..][..i - 1];
    }
  }

  lemma SliceJoin(s: seq<byte>, done: nat, n: nat, cut: nat)
    requires done + n <= |s| && cut <= n
    ensures s[..done] + s[done..done + n][..cut] == s[..done + cut]
  {
  }

  lemma SaveLands(c: Config, k: Kind, log: Log, payload: seq<byte>, landed: nat, slot: nat, seqno: uint32, chip: Image)
    requires c.Valid() && |payload| == PayloadSize(k) && landed <= SlotSize(k)
    requires (slot, seqno) == Next(c.slots, log.cur)
    requires chip == FlatWrite(log.chip, SlotBase(c, k, slot), (Encode(HeaderFor(k, seqno)) + payload)[..landed])
    ensures log.(chip := chip) == Torn(c, k, log, payload, landed)
    ensures landed == SlotSize(k) ==> Log(chip, Cursor(slot, seqno, true)) == Saved(c, k, log, payload)
  {
    var all := Record(k, seqno, payload);
    assert all[..|all|] == all;
  }

  /** What the scan loop holds after `n` slots: the newest sequence number and its slot. */
  ghost function Found(stamps: seq<Option<uint32>>, n: nat): (r: Option<(uint32, nat)>)
    requires n <= |stamps|
    ensures r.Some? ==> r.value.1 < n
  {
    var r := Newest(stamps, n);
    if r.Some? then Some((stamps[r.value].value, r.value)) else None
  }

  /** What one turn of the scan loop does to it. */
  lemma ScanStep(c: Config, k: Kind, m: Image, i: nat, raw: RawHeader, best: Option<(uint32, nat)>, unread: set<nat>)
    requires c.Valid() && i < c.slots && raw == FlatRead(m, SlotBase(c, k, i), HEADER_BYTES) && i !in unread
    requires best == Found(Masked(Stamps(k, Ring(c, k, m)), unread), i)
    ensures var h := Decode(raw);
      Found(Masked(Stamps(k, Ring(c, k, m)), unread), i + 1) ==
        if Matches(h, k) && (best.None? || NotBefore(h.seqno, best.value.0)) then Some((h.seqno, i)) else best
  {
    assert Masked(Stamps(k, Ring(c, k, m)), unread)[i] == Stamp(k, raw);
  }

  /** A header that cannot be read changes nothing. */
  lemma ScanMisses(stamps: seq<Option<uint32>>, i: nat, unread: set<nat>)
    requires i < |stamps|
    ensures Found(Masked(stamps, unread + {i}), i + 1) == Found(Masked(stamps, unread), i)
  {
    NewestSame(Masked(stamps, unread + {i}), Masked(stamps, unread), i);
  }

  lemma {:induction false} NewestSame(s: seq<Option<uint32>>, t: seq<Option<uint32>>, n: nat)
    requires |s| == |t| && n <= |s| && forall j :: 0 <= j < n ==> s[j] == t[j]
    ensures Newest(s, n) == Newest(t, n)
  {
    if n == 0 {
    } else {
      NewestSame(s, t, n - 1);
    }
  }

  lemma LoadFinds(c: Config, k: Kind, log: Log, unread: set<nat>)
    requires c.Valid()
    ensures LoadedWithout(c, k, log, unread) ==
      match Found(Masked(Stamps(k, Ring(c, k, log.chip)), unread), c.slots)
      case None => (Legacy(c, k, log.chip), log)
      case Some((seqno, i)) =>
        (Some(SlotAt(c, k, log.chip, i).payload), log.(cur := Cursor(i, seqno, true)))
    ensures unread == {} ==> LoadedWithout(c, k, log, unread) == Loaded(c, k, log)
  {
    var ring := Ring(c, k, log.chip);
    RingFinds(ring, Masked(Stamps(k, ring), unread), Legacy(c, k, log.chip), log);
  }

  lemma RingFinds(ring: seq<Slot>, stamps: seq<Option<uint32>>, legacy: Option<seq<byte>>, log: Log)
    requires |stamps| == |ring|
    ensures Picked(ring, stamps, legacy, log) ==
      match Found(stamps, |ring|)
      case None => (legacy, log)
      case Some((seqno, i)) => (Some(ring[i].payload), log.(cur := Cursor(i, seqno, true)))
  {
  }

  // ----- loads on any bus

  /** Which headers of the first `n` slots cannot be read, and the bus after trying. */
  ghost function Scanned(wired: bool, bus: seq<Outcome>, n: nat): (set<nat>, seq<Outcome>) {
    if n == 0 then ({}, bus) else
    var (unread, bus1) := Scanned(wired, bus, n - 1);
    var (ok, bus2) := ReadTakes(wired, bus1, HEADER_BYTES);
    (if ok then unread else unread + {n - 1}, bus2)
  }

  /** Whether the snapshot members can be read one after the other, and the bus after that. */
  ghost function FieldsTake(wired: bool, bus: seq<Outcome>, fields: seq<nat>): (bool, seq<Outcome>)
    decreases |fields|
  {
    if fields == [] then (true, bus) else
    var (ok, bus1) := ReadTakes(wired, bus, fields[0]);
    if ok then FieldsTake(wired, bus1, fields[1..]) else (false, bus1)
  }

  ghost function LegacyOn(c: Config, chip: Image, wired: bool, bus: seq<Outcome>): Option<seq<byte>>
    requires c.Valid()
  {
    var (ok, bus1) := ReadTakes(wired, bus, HEADER_BYTES);
    if ok && FieldsTake(wired, bus1, Fields(Sockets)).0 then Legacy(c, Sockets, chip) else None
  }

  /** A load on any bus: the newest record among those whose headers can be read, if its members can be read too. */
  ghost function LoadedOn(c: Config, k: Kind, log: Log, wired: bool, bus: seq<Outcome>): (Option<seq<byte>>, Log)
    requires c.Valid()
  {
    var (unread, bus1) := Scanned(wired, bus, c.slots);
    match Found(Masked(Stamps(k, Ring(c, k, log.chip)), unread), c.slots)
    case None => (if k.Sockets? then LegacyOn(c, log.chip, wired, bus1) else None, log)
    case Some((seqno, i)) =>
      if FieldsTake(wired, bus1, Fields(k)).0
      then (Some(SlotAt(c, k, log.chip, i).payload), log.(cur := Cursor(i, seqno, true))) else (None, log)
  }

  ghost predicate AllAck(bus: seq<Outcome>) { forall o <- bus :: o.Ack? }

  lemma {:induction false} TakenOnAcks(bus: seq<Outcome>, n: nat)
    requires AllAck(bus)
    ensures Taken(bus, n).0 && AllAck(Taken(bus, n).1)
    decreases n
  {
    if n == 0 || bus == [] {
    } else {
      assert bus[0] in bus;
      TakenOnAcks(bus[1..], n - 1);
    }
  }

  lemma {:induction false} ScannedOnAcks(bus: seq<Outcome>, n: nat)
    requires AllAck(bus)
    ensures Scanned(true, bus, n).0 == {} && AllAck(Scanned(true, bus, n).1)
  {
    if n == 0 {
    } else {
      ScannedOnAcks(bus, n - 1);
      TakenOnAcks(Scanned(true, bus, n - 1).1, 2 + Chunks(HEADER_BYTES));
    }
  }

  lemma {:induction false} FieldsOnAcks(bus: seq<Outcome>, fields: seq<nat>)
    requires AllAck(bus)
    ensures FieldsTake(true, bus, fields).0 && AllAck(FieldsTake(true, bus, fields).1)
    decreases |fields|
  {
    if fields == [] {
    } else {
      TakenOnAcks(bus, 2 + Chunks(fields[0]));
      FieldsOnAcks(Taken(bus, 2 + Chunks(fields[0])).1, fields[1..]);
    }
  }

  /** On a bus that acknowledges everything this is the load specified. */
  lemma {:induction false} LoadsOnAcks(c: Config, k: Kind, log: Log, bus: seq<Outcome>)
    requires c.Valid() && AllAck(bus)
    ensures LoadedOn(c, k, log, true, bus) == Loaded(c, k, log)
  {
    ScannedOnAcks(bus, c.slots);
    var bus1 := Scanned(true, bus, c.slots).1;
    FieldsOnAcks(bus1, Fields(k));
    LoadFinds(c, k, log, {});
    TakenOnAcks(bus1, 2 + Chunks(HEADER_BYTES));
    FieldsOnAcks(Taken(bus1, 2 + Chunks(HEADER_BYTES)).1, Fields(Sockets));
  }

  class EepromStorage {
    var eeprom: At24?
    var ready: bool
    var cfg: Config
    var cursors: map<Kind, Cursor>

    constructor ()
      ensures Valid() && eeprom == null && !ready && cfg == Config(0, 1, map[])
      ensures forall k :: cursors[k] == FRESH
    {
      eeprom, ready, cfg := null, false, Config(0, 1, map[]);
      cursors := map k: Kind | k in AllKinds() :: FRESH;
    }

    static function AllKinds(): (s: set<Kind>)
      ensures forall k: Kind :: k in s
    {
      var s := {Sockets, Lights, Thermo, Tanks, Security, Watering, WateringRuntime};
      assert forall k: Kind :: k in s by {
        forall k: Kind ensures k in s { OrderInjective(k, k); }
      }
      s
    }

    ghost predicate Valid()
      reads this
    {
      cfg.Valid() && forall k :: k in cursors
    }

    predicate Available()
      reads this
    {
      ready && eeprom != null
    }

    ghost predicate Healthy()
      reads this, eeprom
    {
      Available() && eeprom.Healthy()
    }

    ghost function LogOf(k: Kind): Log
      requires Valid() && eeprom != null
      reads this, eeprom
    {
      Log(eeprom.chip, cursors[k])
    }

    /** `setWearLevelSlots`: zero means one. */
    method SetWearLevelSlots(slots: nat)
      requires Valid() && slots < SPACE
      modifies this`cfg
      ensures Valid() && cfg == old(cfg).(slots := if slots == 0 then 1 else slots)
    {
      cfg := cfg.(slots := if slots == 0 then 1 else slots);
    }

    /** The seven `save*` methods, which differ only in their kind. */
    method Save(k: Kind, payload: seq<byte>) returns (ok: bool, ghost landed: nat)
      requires Valid() && |payload| == PayloadSize(k)
      modifies this`cursors, if eeprom != null then {eeprom} else {}
      ensures Valid() && forall k' :: k' != k ==> cursors[k'] == old(cursors[k'])
      ensures landed <= SlotSize(k)
      ensures ok ==> old(Available()) && LogOf(k) == Saved(cfg, k, old(LogOf(k)), payload)
      ensures !ok ==> cursors[k] == old(cursors[k])
      ensures !ok && old(Available()) ==> LogOf(k) == Torn(cfg, k, old(LogOf(k)), payload, landed)
      ensures old(Healthy()) ==> ok && Healthy()
    {
      landed := 0;
      if !Available() { return false, landed; }
      ghost var before := LogOf(k);
      var slot, seqno := NextSlot(cursors[k]);
      ok, landed := WriteRecord(k, SlotBase(cfg, k, slot), Encode(HeaderFor(k, seqno)), payload);
      SaveLands(cfg, k, before, payload, landed, slot, seqno, eeprom.chip);
      if ok { cursors := cursors[k := Cursor(slot, seqno, true)]; }
    }

    /** The slot and sequence number of the next save. */
    method NextSlot(cur: Cursor) returns (slot: nat, seqno: uint32)
      requires Valid()
      ensures (slot, seqno) == Next(cfg.slots, cur)
    {
      slot, seqno := 0, 1;
      if cfg.slots > 1 && cur.known {
        slot := (cur.slot + 1) % cfg.slots;
        seqno := Add(cur.seqno, 1);
      }
    }

    /** Writes the header, then the snapshot members. */
    method WriteRecord(k: Kind, base: nat, header: RawHeader, payload: seq<byte>) returns (ok: bool, ghost landed: nat)
      requires eeprom != null && base < SIZE && |payload| == PayloadSize(k)
      modifies eeprom
      ensures landed <= SlotSize(k) && (ok ==> landed == SlotSize(k))
      ensures eeprom.chip == FlatWrite(old(eeprom.chip), base, (header + payload)[..landed])
      ensures ok ==> eeprom.chip == FlatWrite(old(eeprom.chip), base, header + payload)
      ensures old(eeprom.Healthy()) ==> ok && eeprom.Healthy()
    {
      ghost var chip := eeprom.chip;
      ok, landed := eeprom.Write(base, header);
      assert header[..landed] == (header + payload)[..landed];
      if !ok { return; }
      assert header[..landed] == header;
      FieldsFill(k);
      ok, landed := WriteFields(Fields(k), (base + HEADER_BYTES) % SIZE, payload);
      WriteJoin(chip, base, header, payload[..landed]);
      landed := HEADER_BYTES + landed;
      assert header + payload[..landed - HEADER_BYTES] == (header + payload)[..landed];
      assert (header + payload)[..SlotSize(k)] == header + payload;
    }

    /** Writes the snapshot members one after the other. */
    method WriteFields(fields: seq<nat>, start: nat, payload: seq<byte>) returns (ok: bool, ghost landed: nat)
      requires eeprom != null && start < SIZE && |payload| == Sum(fields) < SIZE
      modifies eeprom
      ensures landed <= |payload| && (ok ==> landed == |payload|)
      ensures eeprom.chip == FlatWrite(old(eeprom.chip), start, payload[..landed])
      ensures old(eeprom.Healthy()) ==> ok && eeprom.Healthy()
    {
      var off, done := start, 0;
      ghost var chip := eeprom.chip;
      WriteNothing(chip, start);
      landed, ok := 0, true;
      for f := 0 to |fields|
        invariant old(eeprom.Healthy()) ==> eeprom.Healthy()
        invariant ok && landed == done == Sum(fields[..f]) <= |payload|
        invariant off == (start + done) % SIZE
        invariant eeprom.chip == FlatWrite(chip, start, payload[..done])
      {
        SumSplit(fields, f);
        var n := fields[f];
        ok, landed := eeprom.Write(off, payload[done..done + n]);
        SliceJoin(payload, done, n, landed);
        WriteJoin(chip, start, payload[..done], payload[done..done + n][..landed]);
        landed := done + landed;
        if !ok { return; }
        AddressAdvance(start, done, n);
        off := (off + n) % SIZE;
        done := done + n;
      }
      assert fields[..|fields|] == fields;
    }

    /** The seven `load*` methods. A header that cannot be read is skipped; whatever the bus does, the result and the
        cursor are those of `LoadedOn`. */
    method Load(k: Kind) returns (out: Option<seq<byte>>)
      requires Valid()
      modifies this`cursors, if eeprom != null then {eeprom} else {}
      ensures Valid() && forall k' :: k' != k ==> cursors[k'] == old(cursors[k'])
      ensures eeprom != null ==> eeprom.chip == old(eeprom.chip)
      ensures !old(Available()) ==> out.None? && cursors == old(cursors)
      ensures old(Available()) ==>
        (out, LogOf(k)) == LoadedOn(cfg, k, old(LogOf(k)), old(eeprom.wired), old(eeprom.bus))
      ensures old(Healthy()) ==> Healthy() && (out, LogOf(k)) == Loaded(cfg, k, old(LogOf(k)))
    {
      if !Available() { return None; }
      if Healthy() { LoadsOnAcks(cfg, k, LogOf(k), eeprom.bus); }
      out := LoadAvailable(k);
    }

    /** A load with the chip there. */
    method LoadAvailable(k: Kind) returns (out: Option<seq<byte>>)
      requires Valid() && Available()
      modifies this`cursors, eeprom
      ensures Valid() && forall k' :: k' != k ==> cursors[k'] == old(cursors[k'])
      ensures eeprom.chip == old(eeprom.chip)
      ensures (out, LogOf(k)) == LoadedOn(cfg, k, old(LogOf(k)), old(eeprom.wired), old(eeprom.bus))
      ensures old(Healthy()) ==> Healthy()
    {
      ghost var unread;
      var best;
      best, unread := Scan(k);
      match best
      case None => if k.Sockets? { out := LoadLegacy(); } else { out := None; }
      case Some((seqno, slot)) => out := Fetch(k, slot, seqno);
    }

    /** Reads the snapshot found and moves the cursor to it. */
    method Fetch(k: Kind, slot: nat, seqno: uint32) returns (out: Option<seq<byte>>)
      requires Valid() && Available() && slot < cfg.slots
      modifies this`cursors, eeprom
      ensures Valid() && eeprom.chip == old(eeprom.chip) && eeprom.wired == old(eeprom.wired)
      ensures cursors == if out.Some? then old(cursors)[k := Cursor(slot, seqno, true)] else old(cursors)
      ensures out == if FieldsTake(eeprom.wired, old(eeprom.bus), Fields(k)).0
                     then Some(SlotAt(cfg, k, eeprom.chip, slot).payload) else None
      ensures old(Healthy()) ==> Healthy() && out.Some?
    {
      FieldsFill(k);
      var ok, payload := ReadFields(Fields(k), (SlotBase(cfg, k, slot) + HEADER_BYTES) % SIZE);
      if !ok { return None; }
      cursors := cursors[k := Cursor(slot, seqno, true)];
      return Some(payload);
    }

    /** The scan loop of a load: the sequence number of the newest matching header, and its slot. */
    method Scan(k: Kind) returns (best: Option<(uint32, nat)>, ghost unread: set<nat>)
      requires Valid() && Available()
      modifies eeprom
      ensures eeprom.chip == old(eeprom.chip)
      ensures eeprom.wired == old(eeprom.wired)
      ensures (unread, eeprom.bus) == Scanned(eeprom.wired, old(eeprom.bus), cfg.slots)
      ensures best == Found(Masked(Stamps(k, Ring(cfg, k, eeprom.chip)), unread), cfg.slots)
      ensures old(eeprom.Healthy()) ==> eeprom.Healthy() && unread == {}
    {
      ghost var stamps := Stamps(k, Ring(cfg, k, eeprom.chip));
      best, unread := None, {};
      for i := 0 to cfg.slots
        invariant eeprom.chip == old(eeprom.chip) && eeprom.wired == old(eeprom.wired)
        invariant (unread, eeprom.bus) == Scanned(eeprom.wired, old(eeprom.bus), i)
        invariant old(eeprom.Healthy()) ==> eeprom.Healthy() && unread == {}
        invariant forall j :: j in unread ==> j < i
        invariant best == Found(Masked(stamps, unread), i)
      {
        best, unread := Look(k, i, best, unread);
      }
    }

    /** One turn of the scan loop. */
    method Look(
        k: Kind, i: nat, found: Option<(uint32, nat)>, ghost missed: set<nat>)
        returns (best: Option<(uint32, nat)>, ghost unread: set<nat>)
      requires Valid() && Available() && i < cfg.slots && forall j :: j in missed ==> j < i
      requires found == Found(Masked(Stamps(k, Ring(cfg, k, eeprom.chip)), missed), i)
      modifies eeprom
      ensures eeprom.chip == old(eeprom.chip)
      ensures best == Found(Masked(Stamps(k, Ring(cfg, k, eeprom.chip)), unread), i + 1)
      ensures eeprom.wired == old(eeprom.wired)
      ensures eeprom.bus == ReadTakes(eeprom.wired, old(eeprom.bus), HEADER_BYTES).1
      ensures unread == if ReadTakes(eeprom.wired, old(eeprom.bus), HEADER_BYTES).0 then missed else missed + {i}
      ensures old(eeprom.Healthy()) ==> eeprom.Healthy() && unread == missed
    {
      best, unread := found, missed;
      var ok, bytes := eeprom.Read(SlotBase(cfg, k, i), HEADER_BYTES);
      if !ok {
        ScanMisses(Stamps(k, Ring(cfg, k, eeprom.chip)), i, missed);
        unread := missed + {i};
        return;
      }
      ScanStep(cfg, k, eeprom.chip, i, bytes, found, missed);
      var h := Decode(bytes);
      if Matches(h, k) {
        if best.None? || NotBefore(h.seqno, best.value.0) {
          best := Some((h.seqno, i));
        }
      }
    }

    /** Reads the snapshot members one after the other. */
    method ReadFields(fields: seq<nat>, start: nat) returns (ok: bool, payload: seq<byte>)
      requires eeprom != null && start < SIZE && Sum(fields) < SIZE
      modifies eeprom
      ensures eeprom.chip == old(eeprom.chip)
      ensures eeprom.wired == old(eeprom.wired)
      ensures (ok, eeprom.bus) == FieldsTake(eeprom.wired, old(eeprom.bus), fields)
      ensures ok ==> payload == FlatRead(eeprom.chip, start, Sum(fields))
      ensures old(eeprom.Healthy()) ==> ok && eeprom.Healthy()
    {
      payload := [];
      var off := start;
      for f := 0 to |fields|
        invariant eeprom.chip == old(eeprom.chip) && eeprom.wired == old(eeprom.wired)
        invariant FieldsTake(eeprom.wired, old(eeprom.bus), fields) == FieldsTake(eeprom.wired, eeprom.bus, fields[f..])
        invariant old(eeprom.Healthy()) ==> eeprom.Healthy()
        invariant |payload| == Sum(fields[..f]) && off == (start + |payload|) % SIZE
        invariant payload == FlatRead(eeprom.chip, start, |payload|)
      {
        SumSplit(fields, f);
        var n := fields[f];
        var part;
        ok, part := eeprom.Read(off, n);
        if !ok { return false, payload; }
        ReadJoin(eeprom.chip, start, |payload|, n);
        AddressAdvance(start, |payload|, n);
        payload := payload + part;
        off := (off + n) % SIZE;
      }
      assert fields[..|fields|] == fields;
      return true, payload;
    }

    method LoadLegacy() returns (out: Option<seq<byte>>)
      requires Valid() && Available()
      modifies eeprom
      ensures eeprom.chip == old(eeprom.chip)
      ensures out == LegacyOn(cfg, eeprom.chip, eeprom.wired, old(eeprom.bus)) && eeprom.wired == old(eeprom.wired)
      ensures old(eeprom.Healthy()) ==> eeprom.Healthy() && out == Legacy(cfg, Sockets, eeprom.chip)
    {
      var ok, bytes := eeprom.Read(cfg.base, HEADER_BYTES);
      if !ok { return None; }
      var h := Decode(bytes);
      if h.magic != Magic(Sockets) || h.version != LEGACY_VERSION || h.count != Count(Sockets) { return None; }
      var payload;
      FieldsFill(Sockets);
      ok, payload := ReadFields(Fields(Sockets), (cfg.base + HEADER_BYTES) % SIZE);
      if !ok { return None; }
      return Some(payload);
    }
  }
}
