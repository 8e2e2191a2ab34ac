/** The stored format byte by byte, low bytes first: what marks a record of each kind, and what loads make of a memory
    that holds none. */
module EepromBytes {
  import opened Clock
  import opened At24lc512
  import opened EepromLayout
  import opened EepromStorage
  import opened Options

  /** The eight bytes every record of a kind begins with: `1PSE` to `7PSE`, the version, and the item count or zero. */
  function Mark(k: Kind): (s: seq<byte>)
    ensures |s| == 8
  {
    match k
    case Sockets => [0x31, 0x50, 0x53, 0x45, 2, 0, 72, 0]
    case Lights => [0x35, 0x50, 0x53, 0x45, 1, 0, 72, 0]
    case Thermo => [0x32, 0x50, 0x53, 0x45, 2, 0, 20, 0]
    case Tanks => [0x33, 0x50, 0x53, 0x45, 1, 0, 20, 0]
    case Security => [0x34, 0x50, 0x53, 0x45, 1, 0, 0, 0]
    case Watering => [0x36, 0x50, 0x53, 0x45, 1, 0, 30, 0]
    case WateringRuntime => [0x37, 0x50, 0x53, 0x45, 1, 0, 30, 0]
  }

  /** The mark of the version-1 socket record. */
  const OLD_SOCKETS: seq<byte> := [0x31, 0x50, 0x53, 0x45, 1, 0, 72, 0]

  /** The security load does not look at the last two bytes of the mark. */
  function Checked(k: Kind): nat { if k.Security? then 6 else 8 }

  /** The number stored in four bytes. */
  function LowFirst(a: int, b: int, c: int, d: int): int { a + 0x100 * b + 0x1_0000 * c + 0x100_0000 * d }

  lemma {:induction false} LeOfFromLe(s: seq<byte>)
    ensures Le(FromLe(s), |s|) == s
  {
    if s == [] {
    } else {
      LeOfFromLe(s[1..]);
      assert FromLe(s) / 256 == FromLe(s[1..]) && FromLe(s) % 256 == s[0];
    }
  }

  lemma SameNumber(s: seq<byte>, t: seq<byte>)
    requires |s| == |t|
    ensures FromLe(s) == FromLe(t) <==> s == t
  {
    LeOfFromLe(s);
    LeOfFromLe(t);
  }

  lemma NumberOf2(s: seq<byte>)
    requires |s| == 2
    ensures FromLe(s) == LowFirst(s[0], s[1], 0, 0)
  {
    assert FromLe(s[1..]) == s[1] + 256 * FromLe(s[1..][1..]);
  }

  lemma NumberOf4(s: seq<byte>)
    requires |s| == 4
    ensures FromLe(s) == LowFirst(s[0], s[1], s[2], s[3])
  {
    NumberOf2(s[2..]);
    assert FromLe(s[1..]) == s[1] + 256 * FromLe(s[1..][1..]) && s[1..][1..] == s[2..];
  }

  lemma NumbersIn(s: seq<byte>)
    requires |s| >= 8
    ensures FromLe(s[0..4]) == LowFirst(s[0], s[1], s[2], s[3])
    ensures FromLe(s[4..6]) == LowFirst(s[4], s[5], 0, 0) && FromLe(s[6..8]) == LowFirst(s[6], s[7], 0, 0)
  {
    NumberOf4(s[0..4]);
    NumberOf2(s[4..6]);
    NumberOf2(s[6..8]);
  }

  /** A mark is the kind's identifying numbers. */
  lemma MarkNumbers(k: Kind)
    ensures FromLe(Mark(k)[0..4]) == Magic(k) && FromLe(Mark(k)[4..6]) == Version(k)
    ensures FromLe(Mark(k)[6..8]) == Count(k)
  {
    var s := Mark(k);
    NumbersIn(s);
    assert s[1] == 0x50 && s[2] == 0x53 && s[3] == 0x45 && s[5] == 0 && s[7] == 0;
  }

  lemma OldNumbers()
    ensures FromLe(OLD_SOCKETS[0..4]) == Magic(Sockets) && FromLe(OLD_SOCKETS[4..6]) == LEGACY_VERSION &&
      FromLe(OLD_SOCKETS[6..8]) == Count(Sockets)
  {
    NumbersIn(OLD_SOCKETS);
  }

  lemma PartsOf8(s: seq<byte>, t: seq<byte>)
    requires |s| >= 8 && |t| == 8
    ensures s[..8] == t <==> s[0..4] == t[0..4] && s[4..6] == t[4..6] && s[6..8] == t[6..8]
    ensures s[..6] == t[..6] <==> s[0..4] == t[0..4] && s[4..6] == t[4..6]
  {
    assert s[..8] == s[0..4] + s[4..6] + s[6..8] && t == t[0..4] + t[4..6] + t[6..8];
    assert s[..6] == s[0..4] + s[4..6] && t[..6] == t[0..4] + t[4..6];
    assert s[..8][0..4] == s[0..4] && s[..8][4..6] == s[4..6] && s[..8][6..8] == s[6..8];
    assert s[..6][0..4] == s[0..4] && s[..6][4..6] == s[4..6];
    assert t[..6][0..4] == t[0..4] && t[..6][4..6] == t[4..6];
  }

  /** A load takes a slot for a record of its kind exactly by the bytes of the mark, and the next four bytes for its
      sequence number. */
  lemma {:induction false} MarkTells(k: Kind, raw: RawHeader)
    ensures Stamp(k, raw).Some? <==> raw[..Checked(k)] == Mark(k)[..Checked(k)]
    ensures Stamp(k, raw).Some? ==>
      Stamp(k, raw).value == LowFirst(raw[8], raw[9], raw[10], raw[11])
  {
    MarkNumbers(k);
    SameNumber(raw[0..4], Mark(k)[0..4]);
    SameNumber(raw[4..6], Mark(k)[4..6]);
    SameNumber(raw[6..8], Mark(k)[6..8]);
    PartsOf8(raw, Mark(k));
    NumberOf4(raw[8..12]);
    assert Mark(k)[..8] == Mark(k);
  }

  /** A save stores the mark, the sequence number, and the payload. */
  lemma {:induction false} RecordInBytes(k: Kind, seqno: uint32, payload: seq<byte>)
    ensures var s := Record(k, seqno, payload);
      && s[..8] == Mark(k) && s[12..] == payload
      && seqno == LowFirst(s[8], s[9], s[10], s[11])
  {
    var h := HeaderFor(k, seqno);
    var s := Encode(h);
    MarkNumbers(k);
    LeOfFromLe(Mark(k)[0..4]);
    LeOfFromLe(Mark(k)[4..6]);
    LeOfFromLe(Mark(k)[6..8]);
    assert s[0..4] == Le(h.magic, 4) && s[4..6] == Le(h.version, 2) && s[6..8] == Le(h.count, 2);
    PartsOf8(s, Mark(k));
    assert s[8..12] == Le(seqno, 4);
    Pow256Of4();
    LeRoundTrip(seqno, 4);
    NumberOf4(s[8..12]);
    assert Record(k, seqno, payload)[..8] == s[..8];
  }

  // ----- which slot comes next

  lemma AtLeastOnce(d: nat, slots: nat)
    ensures d >= 1 ==> d * slots >= slots
  {
    if d >= 1 { assert d * slots == (d - 1) * slots + slots; }
  }

  lemma SameQuotient(d: nat, q: nat, slots: nat, x: nat, y: nat)
    requires x < slots && y < slots && d * slots + x == q * slots + y
    ensures x == y
  {
    if d > q {
      assert (d - q) * slots == d * slots - q * slots;
      AtLeastOnce(d - q, slots);
    } else if q > d {
      assert (q - d) * slots == q * slots - d * slots;
      AtLeastOnce(q - d, slots);
    }
  }

  lemma Remainder(n: nat, q: nat, slots: nat, r: nat)
    requires r < slots && n == q * slots + r
    ensures n % slots == r
  {
    SameQuotient(n / slots, q, slots, n % slots, r);
  }

  lemma NextInRing(n: nat, slots: nat)
    requires n > 0 && slots > 0
    ensures ((n - 1) % slots + 1) % slots == n % slots
  {
    var q, r := (n - 1) / slots, (n - 1) % slots;
    if r + 1 < slots {
      Remainder(n, q, slots, r + 1);
      Remainder(r + 1, 0, slots, r + 1);
    } else {
      assert n == (q + 1) * slots;
      Remainder(n, q + 1, slots, 0);
      Remainder(r + 1, 1, slots, 0);
    }
  }

  predicate CursorIs(slots: nat, cur: Cursor, n: nat)
    requires slots > 0
  {
    cur == if n == 0 then FRESH else Cursor((n - 1) % slots, Low(n), true)
  }

  lemma NextIs(slots: nat, cur: Cursor, n: nat)
    requires slots > 1 && CursorIs(slots, cur, n)
    ensures Next(slots, cur) == (n % slots, Low(n + 1))
  {
    if n == 0 {
      Remainder(0, 0, slots, 0);
    } else {
      NextInRing(n, slots);
      AddOfLows(n, 1);
    }
  }

  lemma SaveMovesCursor(c: Config, k: Kind, log: Log, p: seq<byte>, n: nat)
    requires c.Valid() && c.slots > 1 && |p| == PayloadSize(k) && CursorIs(c.slots, log.cur, n)
    ensures CursorIs(c.slots, Saved(c, k, log, p).cur, n + 1)
  {
    NextIs(c.slots, log.cur, n);
  }

  lemma {:induction false} CursorAfter(c: Config, k: Kind, chip: Image, events: seq<Event>)
    requires c.Valid() && WellPlaced(c) && NoHeaders(c, k, chip) && LegalRun(c, k, events) && c.slots > 1
    ensures CursorIs(c.slots, After(c, k, chip, events).cur, HistoryOf(events).saves)
    decreases |events|
  {
    if events == [] {
    } else {
      var before, e := events[..|events| - 1], events[|events| - 1];
      CursorAfter(c, k, chip, before);
      RunHolds(c, k, chip, before);
      EventMovesCursor(c, k, After(c, k, chip, before), HistoryOf(before), e);
    }
  }

  lemma EventMovesCursor(c: Config, k: Kind, log: Log, h: History, e: Event)
    requires c.Valid() && c.slots > 1 && LogHolds(c, k, log, h) && Possible(c, k, e, h.clean)
    requires CursorIs(c.slots, log.cur, h.saves)
    ensures CursorIs(c.slots, Step(c, k, log, e).cur, Note(h, e).saves)
  {
    match e
    case Save(p) => SaveMovesCursor(c, k, log, p, h.saves);
    case Load => LoadStepHolds(c, k, log, h, log.cur);
    case RebootAndLoad => LoadStepHolds(c, k, log, h, FRESH);
    case _ =>
  }

  /** Saves level the wear: over every legal run, torn saves and reboots included, the save after `n` complete ones goes
      to slot `n` modulo the slots, with number `n + 1` modulo 2^32. With a single slot it is always number 1. */
  lemma {:induction false} WearIsLevel(c: Config, k: Kind, chip: Image, events: seq<Event>)
    requires c.Valid() && WellPlaced(c) && NoHeaders(c, k, chip) && LegalRun(c, k, events)
    ensures var n := HistoryOf(events).saves;
      Next(c.slots, After(c, k, chip, events).cur)
        == if c.slots == 1 then (0, 1) else (n % c.slots, (n + 1) % 0x1_0000_0000)
  {
    if c.slots > 1 {
      CursorAfter(c, k, chip, events);
      NextIs(c.slots, After(c, k, chip, events).cur, HistoryOf(events).saves);
    }
  }

  // ----- a memory without current records

  /** No slot of the kind begins with its mark. */
  predicate Unmarked(c: Config, k: Kind, chip: Image)
    requires c.Valid()
  {
    forall i :: 0 <= i < c.slots ==>
      FlatRead(chip, SlotBase(c, k, i), Checked(k)) != Mark(k)[..Checked(k)]
  }

  lemma ReadPrefix(chip: Image, a: nat, n: nat, m: nat)
    requires n <= m
    ensures FlatRead(chip, a, m)[..n] == FlatRead(chip, a, n)
  {
  }

  lemma {:induction false} NothingNewest(stamps: seq<Option<uint32>>, n: nat)
    requires n <= |stamps| && forall i :: 0 <= i < n ==> stamps[i].None?
    ensures Newest(stamps, n).None?
  {
    if n == 0 {
    } else {
      NothingNewest(stamps, n - 1);
    }
  }

  lemma UnmarkedHasNoStamps(c: Config, k: Kind, chip: Image)
    requires c.Valid() && Unmarked(c, k, chip)
    ensures Newest(Stamps(k, Ring(c, k, chip)), c.slots).None?
  {
    var stamps := Stamps(k, Ring(c, k, chip));
    forall i | 0 <= i < c.slots ensures stamps[i].None? {
      var raw := SlotAt(c, k, chip, i).header;
      MarkTells(k, raw);
      ReadPrefix(chip, SlotBase(c, k, i), Checked(k), HEADER_BYTES);
    }
    NothingNewest(stamps, c.slots);
  }

  lemma LegacyInBytes(c: Config, chip: Image)
    requires c.Valid()
    ensures Legacy(c, Sockets, chip)
      == if FlatRead(chip, c.base, 8) == OLD_SOCKETS then Some(FlatRead(chip, (c.base + 12) % 65536, 18)) else None
  {
    var raw := FlatRead(chip, c.base, HEADER_BYTES);
    OldNumbers();
    SameNumber(raw[0..4], OLD_SOCKETS[0..4]);
    SameNumber(raw[4..6], OLD_SOCKETS[4..6]);
    SameNumber(raw[6..8], OLD_SOCKETS[6..8]);
    PartsOf8(raw, OLD_SOCKETS);
    ReadPrefix(chip, c.base, 8, HEADER_BYTES);
  }

  /** On a chip that holds no current socket record, and a bus that acknowledges everything, a load returns the 18
      bytes after the version-1 header if the memory begins with that header's eight bytes, and nothing otherwise. */
  lemma {:induction false} OldSocketsLoad(c: Config, chip: Image, cur: Cursor, bus: seq<Outcome>)
    requires c.Valid() && AllAck(bus) && Unmarked(c, Sockets, chip)
    ensures LoadedOn(c, Sockets, Log(chip, cur), true, bus).0
      == if FlatRead(chip, c.base, 8) == [0x31, 0x50, 0x53, 0x45, 1, 0, 72, 0]
         then Some(FlatRead(chip, (c.base + 12) % 65536, 18)) else None
  {
    LoadsOnAcks(c, Sockets, Log(chip, cur), bus);
    UnmarkedHasNoStamps(c, Sockets, chip);
    LegacyInBytes(c, chip);
  }

  /** A load of any other kind returns nothing then, whatever the bus does. */
  lemma {:induction false} NothingToLoad(c: Config, k: Kind, chip: Image, cur: Cursor, wired: bool, bus: seq<Outcome>)
    requires c.Valid() && !k.Sockets? && Unmarked(c, k, chip)
    ensures LoadedOn(c, k, Log(chip, cur), wired, bus) == (None, Log(chip, cur))
  {
    var stamps := Stamps(k, Ring(c, k, chip));
    UnmarkedHasNoStamps(c, k, chip);
    var unread := Scanned(wired, bus, c.slots).0;
    StillNone(stamps, unread, c.slots);
  }

  lemma {:induction false} StillNone(stamps: seq<Option<uint32>>, unread: set<nat>, n: nat)
    requires n <= |stamps| && Newest(stamps, n).None?
    ensures Newest(Masked(stamps, unread), n).None?
  {
    if n == 0 {
    } else {
      StillNone(stamps, unread, n - 1);
    }
  }
}
