/** Where `EepromStorage` keeps its seven record kinds: one ring of equally sized slots per kind,
    the rings one after the other, every address truncated to 16 bits. */
module EepromLayout {

  const SPACE := 65536
  const HEADER_BYTES := 12

  datatype Kind = Sockets | Lights | Thermo | Tanks | Security | Watering | WateringRuntime

  /** The header fields that identify a kind. The security header has a reserved zero where the others
      have an item count, and its load does not check it. */
  function Magic(k: Kind): int {
    match k
    case Sockets => 0x45535031
    case Lights => 0x45535035
    case Thermo => 0x45535032
    case Tanks => 0x45535033
    case Security => 0x45535034
    case Watering => 0x45535036
    case WateringRuntime => 0x45535037
  }

  function Version(k: Kind): int {
    match k
    case Sockets => 2
    case Thermo => 2
    case _ => 1
  }

  const LEGACY_VERSION := 1

  function Count(k: Kind): int {
    match k
    case Sockets => 72
    case Lights => 72
    case Thermo => 20
    case Tanks => 20
    case Security => 0
    case Watering => 30
    case WateringRuntime => 30
  }

  /** The byte lengths of the snapshot members, in the order they are stored. */
  function Fields(k: Kind): seq<nat> {
    match k
    case Sockets => [9, 9]
    case Lights => [9, 9]
    case Thermo => [3, 40]
    case Tanks => [3]
    case Security => [1]
    case Watering => [4]
    case WateringRuntime => [4, 4, 120, 120]
  }

  function Sum(s: seq<nat>): nat {
    if s == [] then 0 else s[0] + Sum(s[1..])
  }

  function PayloadSize(k: Kind): (n: nat)
    ensures 1 <= n <= 248
  {
    match k
    case Sockets => 18
    case Lights => 18
    case Thermo => 43
    case Tanks => 3
    case Security => 1
    case Watering => 4
    case WateringRuntime => 248
  }

  function SlotSize(k: Kind): nat { HEADER_BYTES + PayloadSize(k) }

  /** Base, slots per ring, and the regions placed by their own setter. */
  datatype Config = Config(base: nat, slots: nat, placed: map<Kind, nat>) {
    predicate Valid() {
      base < SPACE && 1 <= slots < SPACE && forall k <- placed :: placed[k] < SPACE
    }
  }

  function Previous(k: Kind): Kind
    requires !k.Sockets?
  {
    match k
    case Lights => Sockets
    case Thermo => Lights
    case Tanks => Thermo
    case Security => Tanks
    case Watering => Security
    case WateringRuntime => Watering
  }

  function Order(k: Kind): nat {
    match k
    case Sockets => 0
    case Lights => 1
    case Thermo => 2
    case Tanks => 3
    case Security => 4
    case Watering => 5
    case WateringRuntime => 6
  }

  /** Where a region starts: at its own base, or after the region before it. */
  function RegionBase(c: Config, k: Kind): (a: nat)
    requires c.Valid()
    ensures a < SPACE
    decreases Order(k)
  {
    if k.Sockets? then c.base
    else if k in c.placed then c.placed[k]
    else (RegionBase(c, Previous(k)) + c.slots * SlotSize(Previous(k))) % SPACE
  }

  function SlotBase(c: Config, k: Kind, slot: nat): (a: nat)
    requires c.Valid()
    ensures a < SPACE
  {
    (RegionBase(c, k) + slot * SlotSize(k)) % SPACE
  }

  /** Bytes per slot set taken by the kinds before `k`. */
  function SizeBefore(k: Kind): (n: nat)
    ensures n + SlotSize(k) <= 419
    decreases Order(k)
  {
    match k
    case Sockets => 0
    case Lights => 30
    case Thermo => 60
    case Tanks => 115
    case Security => 130
    case Watering => 143
    case WateringRuntime => 159
  }

  predicate Disjoint(a: nat, n: nat, b: nat, m: nat) {
    a + n <= b || b + m <= a
  }

  predicate SameSlot(k: Kind, i: nat, k': Kind, i': nat) {
    k == k' && i == i'
  }

  predicate InMemory(c: Config, k: Kind, i: nat)
    requires c.Valid()
  {
    SlotBase(c, k, i) + SlotSize(k) <= SPACE
  }

  predicate ShareNothing(c: Config, k: Kind, i: nat, k': Kind, i': nat)
    requires c.Valid()
  {
    Disjoint(SlotBase(c, k, i), SlotSize(k), SlotBase(c, k', i'), SlotSize(k'))
  }

  /** No slot runs past the end of the memory and no two slots share a byte. */
  ghost predicate WellPlaced(c: Config)
    requires c.Valid()
  {
    && (forall k, i: nat :: i < c.slots ==> InMemory(c, k, i))
    && (forall k, i: nat, k', i': nat :: i < c.slots && i' < c.slots && !SameSlot(k, i, k', i') ==>
          ShareNothing(c, k, i, k', i'))
  }

  predicate DefaultPlacement(c: Config) {
    c.base == 0 && c.placed == map[]
  }

  lemma TimesMonotone(a: nat, b: nat, n: nat)
    requires a <= b
    ensures a * n <= b * n
  {
  }

  lemma Distribute(a: int, b: int, n: int)
    ensures n * (a + b) == n * a + n * b
    ensures (a + b) * n == a * n + b * n
  {
  }

  lemma ModAdd(x: int, d: int)
    ensures (x % SPACE + d) % SPACE == (x + d) % SPACE
  {
    var q := x / SPACE;
    var y := x % SPACE + d;
    assert x + d == y + q * SPACE;
    ModShift(y, q);
  }

  lemma ModShift(y: int, q: int)
    ensures (y + q * SPACE) % SPACE == y % SPACE
  {
    var p := y / SPACE;
    assert y + q * SPACE == (p + q) * SPACE + y % SPACE;
  }

  /** Where a slot would start if addresses were not truncated. */
  function FlatPosition(c: Config, k: Kind, i: nat): nat {
    c.slots * SizeBefore(k) + i * SlotSize(k)
  }

  /** For any slot count the truncated address is the flat position modulo the memory size. */
  lemma {:induction false} SlotIsTruncated(c: Config, k: Kind, i: nat)
    requires c.Valid() && DefaultPlacement(c)
    ensures SlotBase(c, k, i) == FlatPosition(c, k, i) % SPACE
  {
    RegionIsTruncated(c, k);
    ModAdd(c.slots * SizeBefore(k), i * SlotSize(k));
  }

  lemma SizesAddUp(k: Kind)
    requires !k.Sockets?
    ensures SizeBefore(k) == SizeBefore(Previous(k)) + SlotSize(Previous(k))
  {
  }

  /** From `k` back to `j`, no region after `j` has a base of its own. */
  predicate Trails(c: Config, j: Kind, k: Kind)
    decreases Order(k)
  {
    k == j || (!k.Sockets? && k !in c.placed && Trails(c, j, Previous(k)))
  }

  function OwnBase(c: Config, k: Kind): nat
    requires k.Sockets? || k in c.placed
  {
    if k.Sockets? then c.base else c.placed[k]
  }

  /** What the regions from `j` on to `k` take. */
  function Span(c: Config, j: Kind, k: Kind): int { c.slots * (SizeBefore(k) - SizeBefore(j)) }

  lemma SpanGrows(c: Config, j: Kind, k: Kind)
    requires !k.Sockets?
    ensures Span(c, j, k) == Span(c, j, Previous(k)) + c.slots * SlotSize(Previous(k))
  {
    SizesAddUp(k);
    Distribute(SizeBefore(Previous(k)) - SizeBefore(j), SlotSize(Previous(k)), c.slots);
  }

  lemma OneRegionOn(c: Config, k: Kind)
    requires c.Valid() && !k.Sockets? && k !in c.placed
    ensures RegionBase(c, k) == (RegionBase(c, Previous(k)) + c.slots * SlotSize(Previous(k))) % SPACE
  {
  }

  lemma StepOn(next: int, at: int, flat: int, d: int)
    requires at == flat % SPACE && next == (at + d) % SPACE
    ensures next == (flat + d) % SPACE
  {
    ModAdd(flat, d);
  }

  /** Whatever the placement: a region with a base of its own is there, and one without follows the last region before
      it that has one, or the sockets, after as many bytes as those in between take. */
  lemma {:induction false} RegionsFollow(c: Config, j: Kind, k: Kind)
    requires c.Valid() && Trails(c, j, k) && (j.Sockets? || j in c.placed)
    ensures RegionBase(c, k) == (OwnBase(c, j) + Span(c, j, k)) % SPACE
    decreases Order(k)
  {
    if k == j {
    } else {
      var p := Previous(k);
      RegionsFollow(c, j, p);
      OneRegionOn(c, k);
      SpanGrows(c, j, k);
      StepOn(RegionBase(c, k), RegionBase(c, p), OwnBase(c, j) + Span(c, j, p), c.slots * SlotSize(p));
    }
  }

  lemma TrailsSockets(c: Config, k: Kind)
    requires c.placed == map[]
    ensures Trails(c, Sockets, k)
    decreases Order(k)
  {
    if k.Sockets? {
    } else {
      TrailsSockets(c, Previous(k));
    }
  }

  lemma {:induction false} RegionIsTruncated(c: Config, k: Kind)
    requires c.Valid() && DefaultPlacement(c)
    ensures RegionBase(c, k) == (c.slots * SizeBefore(k)) % SPACE
  {
    TrailsSockets(c, k);
    RegionsFollow(c, Sockets, k);
  }

  lemma RegionBound(slots: nat, size: nat)
    requires slots <= 156 && size <= 419
    ensures slots * size <= 156 * 419 < SPACE
  {
    TimesMonotone(slots, 156, size);
    TimesMonotone(size, 419, 156);
  }

  /** Up to 156 slots a slot lies inside its region and below the end of the memory. */
  lemma {:induction false} SlotExact(c: Config, k: Kind, i: nat)
    requires c.Valid() && DefaultPlacement(c) && c.slots <= 156 && i < c.slots
    ensures SlotBase(c, k, i) == FlatPosition(c, k, i)
    ensures SlotBase(c, k, i) + SlotSize(k) <= c.slots * (SizeBefore(k) + SlotSize(k)) <= 156 * 419
  {
    SlotIsTruncated(c, k, i);
    SlotInRegion(c.slots, SizeBefore(k), SlotSize(k), i);
    NotTruncated(FlatPosition(c, k, i));
  }

  lemma NotTruncated(x: nat)
    requires x < SPACE
    ensures x % SPACE == x
  {
  }

  lemma SlotInRegion(slots: nat, before: nat, size: nat, i: nat)
    requires i < slots <= 156 && before + size <= 419
    ensures slots * before + i * size + size <= slots * (before + size) <= 156 * 419
  {
    TimesMonotone(i + 1, slots, size);
    Distribute(i, 1, size);
    Distribute(before, size, slots);
    RegionBound(slots, before + size);
  }

  lemma SlotsApart(c: Config, k: Kind, i: nat, k': Kind, i': nat)
    requires c.Valid() && DefaultPlacement(c) && c.slots <= 156 && i < c.slots && i' < c.slots
    requires Order(k) < Order(k') || (k == k' && i < i')
    ensures SlotBase(c, k, i) + SlotSize(k) <= SlotBase(c, k', i')
  {
    SlotExact(c, k, i);
    SlotExact(c, k', i');
    if k == k' {
      SlotsInOrder(c.slots * SizeBefore(k), SlotSize(k), i, i');
    } else {
      KindsInOrder(k, k');
      RegionsInOrder(c.slots, SizeBefore(k), SlotSize(k), i, SizeBefore(k'), SlotSize(k'), i');
    }
  }

  lemma KindsInOrder(k: Kind, k': Kind)
    requires Order(k) < Order(k')
    ensures SizeBefore(k) + SlotSize(k) <= SizeBefore(k')
  {
  }

  lemma RegionsInOrder(slots: nat, before: nat, size: nat, i: nat, before': nat, size': nat, i': nat)
    requires i < slots && before + size <= before'
    ensures slots * before + i * size + size <= slots * before' + i' * size'
  {
    SlotsInOrder(slots * before, size, i, slots);
    Distribute(before, size, slots);
    TimesMonotone(before + size, before', slots);
    TimesMonotone(0, i', size');
  }

  lemma SlotsInOrder(start: nat, size: nat, i: nat, i': nat)
    requires i < i'
    ensures start + i * size + size <= start + i' * size
  {
    TimesMonotone(i + 1, i', size);
    Distribute(i, 1, size);
  }

  lemma OrderInjective(k: Kind, k': Kind)
    ensures Order(k) == Order(k') <==> k == k'
  {
  }

  /** Which of `count` pieces of `size` bytes holds byte `at`. */
  lemma PieceAt(size: nat, count: nat, at: nat) returns (i: nat)
    requires size > 0 && at < count * size
    ensures i < count && i * size <= at < i * size + size
  {
    i := at / size;
    if i >= count { TimesMonotone(count, i, size); }
  }

  /** The slot that holds flat byte 65535. */
  lemma SlotAtTheEnd(c: Config) returns (k: Kind, i: nat)
    requires c.Valid() && c.slots >= 157
    ensures i < c.slots
    ensures FlatPosition(c, k, i) < SPACE <= FlatPosition(c, k, i) + SlotSize(k)
  {
    k := if c.slots * 30 >= SPACE then Sockets
         else if c.slots * 60 >= SPACE then Lights
         else if c.slots * 115 >= SPACE then Thermo
         else if c.slots * 130 >= SPACE then Tanks
         else if c.slots * 143 >= SPACE then Security
         else if c.slots * 159 >= SPACE then Watering
         else WateringRuntime;
    assert c.slots * SizeBefore(k) < SPACE <= c.slots * (SizeBefore(k) + SlotSize(k));
    Distribute(SizeBefore(k), SlotSize(k), c.slots);
    i := PieceAt(SlotSize(k), c.slots, SPACE - 1 - c.slots * SizeBefore(k));
  }

  /** The slot after slot `i` of kind `k`, where that is not the very last, starts where it ends. */
  lemma SlotAfter(c: Config, k: Kind, i: nat) returns (k': Kind, i': nat)
    requires c.Valid() && i < c.slots && !(k.WateringRuntime? && i == c.slots - 1)
    ensures i' < c.slots && FlatPosition(c, k', i') == FlatPosition(c, k, i) + SlotSize(k)
  {
    if i + 1 < c.slots {
      k', i' := k, i + 1;
      Distribute(i, 1, SlotSize(k));
    } else {
      k', i' := NextKind(k), 0;
      assert SizeBefore(k') == SizeBefore(k) + SlotSize(k);
      LastOfRegion(c.slots, i, SizeBefore(k), SlotSize(k));
    }
  }

  lemma LastOfRegion(slots: nat, i: nat, before: nat, size: nat)
    requires i + 1 == slots
    ensures slots * before + i * size + size == slots * (before + size)
  {
    Distribute(before, size, slots);
    Distribute(i, 1, size);
  }

  lemma LastSlotEnds(c: Config)
    requires c.Valid() && c.slots >= 157
    ensures FlatPosition(c, WateringRuntime, c.slots - 1) + SlotSize(WateringRuntime) > SPACE
  {
  }

  /** From 157 slots on, some slot runs past the end, or the one after it starts again at the first. */
  lemma {:induction false} Overfull(c: Config)
    requires c.Valid() && DefaultPlacement(c) && c.slots >= 157
    ensures !WellPlaced(c)
  {
    var k, i := SlotAtTheEnd(c);
    SlotIsTruncated(c, k, i);
    NotTruncated(FlatPosition(c, k, i));
    if InMemory(c, k, i) {
      LastSlotEnds(c);
      var k', i' := SlotAfter(c, k, i);
      StartsAgain(c, k', i');
    }
  }

  lemma StartsAgain(c: Config, k: Kind, i: nat)
    requires c.Valid() && DefaultPlacement(c) && i < c.slots && FlatPosition(c, k, i) == SPACE
    ensures !WellPlaced(c)
  {
    SlotIsTruncated(c, k, i);
    SlotIsTruncated(c, Sockets, 0);
    assert SlotBase(c, k, i) == 0 && SlotBase(c, Sockets, 0) == 0;
    assert !SameSlot(k, i, Sockets, 0);
    assert !ShareNothing(c, k, i, Sockets, 0);
  }

  function NextKind(k: Kind): Kind
    requires !k.WateringRuntime?
  {
    match k
    case Sockets => Lights
    case Lights => Thermo
    case Thermo => Tanks
    case Tanks => Security
    case Security => Watering
    case Watering => WateringRuntime
  }

  /** The default layout keeps every slot to itself exactly up to 156 slots per kind: from 157
      on, the last watering-runtime slot runs past the end or was truncated back to the start. */
  lemma {:induction false} DefaultLayoutFits(c: Config)
    requires c.Valid() && DefaultPlacement(c)
    ensures WellPlaced(c) <==> c.slots <= 156
  {
    if c.slots <= 156 {
      forall k, i: nat | i < c.slots
        ensures InMemory(c, k, i)
      {
        SlotExact(c, k, i);
      }
      forall k, i: nat, k', i': nat | i < c.slots && i' < c.slots && !SameSlot(k, i, k', i')
        ensures ShareNothing(c, k, i, k', i')
      {
        OrderInjective(k, k');
        if Order(k) < Order(k') || (k == k' && i < i') {
          SlotsApart(c, k, i, k', i');
        } else {
          SlotsApart(c, k', i', k, i);
        }
      }
    } else if WellPlaced(c) {
      Overfull(c);
    }
  }
}
