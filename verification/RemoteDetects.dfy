/** The table of remote detections: 64 slots searched by index, refining a list ordered by recency. A slot keeps the low
    32 bits of the time of its report, and those are all the search for the oldest has to go by. */
module RemoteDetects {
  import opened Clock
  import opened Collections

  const CAPACITY := 64
  const UINT32_MAX: uint32 := 0xFFFF_FFFF

  /** `item` without its time is what a report says. */
  datatype Report = Report(node: nat, sensor: nat, silent: bool, unit_name: string, sensor_name: string)

  datatype Detect = Detect(active: bool, report: Report, updated: uint32)

  const EMPTY := Detect(false, Report(0, 0, false, "", ""), 0)

  predicate SameKey(a: Report, b: Report) { a.node == b.node && a.sensor == b.sensor }

  /** Node 0 asks for every node. */
  predicate Matches(d: Detect, node: nat) { d.active && (node == 0 || d.report.node == node) }

  // ----- the specification: most recent first, at most 64, one entry per key

  function Without(l: seq<Report>, r: Report): (w: seq<Report>)
    ensures |w| <= |l|
  {
    if l == [] then []
    else if SameKey(l[0], r) then Without(l[1..], r)
    else [l[0]] + Without(l[1..], r)
  }

  predicate HasKey(l: seq<Report>, r: Report) {
    exists x <- l :: SameKey(x, r)
  }

  /** A report moves its key to the front; a new key on a full list pushes out the entry at place `victim`. */
  function Reported(l: seq<Report>, r: Report, victim: nat): seq<Report>
    requires victim < |l| || HasKey(l, r) || |l| < CAPACITY
  {
    if HasKey(l, r) then [r] + Without(l, r)
    else if |l| < CAPACITY then [r] + l
    else [r] + l[..victim] + l[victim + 1..]
  }

  function Cleared(l: seq<Report>, node: nat): seq<Report> {
    if l == [] || node == 0 then []
    else if l[0].node == node then Cleared(l[1..], node)
    else [l[0]] + Cleared(l[1..], node)
  }

  // ----- the specification in terms of nodes and sensors

  /** Without keeps every entry of another node or sensor, and no other. */
  lemma {:induction false} WithoutKeeps(l: seq<Report>, r: Report)
    ensures forall x :: x in Without(l, r) <==> x in l && !(x.node == r.node && x.sensor == r.sensor)
  {
    if l == [] {
    } else {
      WithoutKeeps(l[1..], r);
    }
  }

  lemma PushedOut(l: seq<Report>, victim: nat, x: Report)
    requires victim < |l|
    ensures x in l[..victim] + l[victim + 1..] ==> x in l
    ensures x in l && x != l[victim] ==> x in l[..victim] + l[victim + 1..]
  {
    assert l == l[..victim] + [l[victim]] + l[victim + 1..];
  }

  /** A report comes first. Behind it is every entry of another node or sensor, except that a full list without an entry
      of this node and sensor loses the one pushed out; and nothing else. */
  lemma {:induction false} ReportedMeans(l: seq<Report>, r: Report, victim: nat)
    requires victim < |l| || HasKey(l, r) || |l| < CAPACITY
    ensures var l' := Reported(l, r, victim);
      var known := exists x <- l :: x.node == r.node && x.sensor == r.sensor;
      && l' != [] && l'[0] == r
      && (forall x <- l'[1..] :: x in l && !(x.node == r.node && x.sensor == r.sensor))
      && (forall x <- l ::
            !(x.node == r.node && x.sensor == r.sensor) && (known || |l| < 64 || x != l[victim]) ==> x in l'[1..])
  {
    var l' := Reported(l, r, victim);
    WithoutKeeps(l, r);
    if HasKey(l, r) {
      assert l'[1..] == Without(l, r);
    } else if |l| < CAPACITY {
      assert l'[1..] == l;
    } else {
      assert l'[1..] == l[..victim] + l[victim + 1..];
      forall x: Report ensures (x in l'[1..] ==> x in l) && (x in l && x != l[victim] ==> x in l'[1..]) {
        PushedOut(l, victim, x);
      }
    }
  }

  /** Clearing a node keeps every entry of another one; clearing node 0 keeps none. */
  lemma {:induction false} ClearedKeeps(l: seq<Report>, node: nat)
    ensures forall x :: x in Cleared(l, node) <==> x in l && node != 0 && x.node != node
  {
    if l == [] || node == 0 {
    } else {
      ClearedKeeps(l[1..], node);
    }
  }

  // ----- the refinement

  /** Different slots of the table. */
  ghost predicate AreSlots(t: seq<Detect>, order: seq<nat>) {
    && (forall k :: 0 <= k < |order| ==> order[k] < |t|)
    && (forall j, k :: 0 <= j < k < |order| ==> order[j] != order[k])
  }

  /** `order` lists exactly the active slots of the table, the one reported last first. */
  ghost predicate Orders(t: seq<Detect>, order: seq<nat>) {
    && AreSlots(t, order)
    && (forall k :: 0 <= k < |order| ==> t[order[k]].active)
    && (forall i :: 0 <= i < |t| && t[i].active ==> i in order)
  }

  ghost predicate KeysDistinct(t: seq<Detect>) {
    forall i, j :: 0 <= i < j < |t| && t[i].active && t[j].active ==> !SameKey(t[i].report, t[j].report)
  }

  ghost function Listed(t: seq<Detect>, order: seq<nat>): (l: seq<Report>)
    requires AreSlots(t, order)
    ensures |l| == |order|
  {
    seq(|order|, k requires 0 <= k < |order| => t[order[k]].report)
  }

  /** The table is well formed: one entry per key. */
  ghost predicate Refines(t: seq<Detect>, order: seq<nat>) {
    |t| == CAPACITY && Orders(t, order) && KeysDistinct(t)
  }

  /** The part of an order that lies in `keep`. */
  ghost function Select(order: seq<nat>, keep: set<nat>): (o: seq<nat>)
    ensures forall x :: x in o <==> x in order && x in keep
  {
    if order == [] then []
    else if order[0] in keep then [order[0]] + Select(order[1..], keep)
    else Select(order[1..], keep)
  }

  lemma TailIsOrder(t: seq<Detect>, order: seq<nat>)
    requires AreSlots(t, order) && order != []
    ensures AreSlots(t, order[1..])
    ensures Listed(t, order) == [t[order[0]].report] + Listed(t, order[1..])
  {
  }

  lemma FrontIsOrder(t: seq<Detect>, x: nat, order: seq<nat>)
    requires AreSlots(t, order) && x < |t| && x !in order
    ensures AreSlots(t, [x] + order)
    ensures Listed(t, [x] + order) == [t[x].report] + Listed(t, order)
  {
  }

  lemma {:induction false} SelectIsOrder(t: seq<Detect>, order: seq<nat>, keep: set<nat>)
    requires AreSlots(t, order)
    ensures AreSlots(t, Select(order, keep))
  {
    if order == [] {
    } else {
      TailIsOrder(t, order);
      SelectIsOrder(t, order[1..], keep);
      if order[0] in keep {
        FrontIsOrder(t, order[0], Select(order[1..], keep));
      }
    }
  }

  // ----- counting slots

  ghost function Range(n: nat): (s: set<nat>)
    ensures |s| == n && forall x: nat :: x in s <==> x < n
  {
    if n == 0 then {} else Range(n - 1) + {n - 1}
  }

  lemma ActiveInOrder(t: seq<Detect>, order: seq<nat>, i: nat)
    requires Orders(t, order) && i < |t|
    ensures i in order <==> t[i].active
  {
  }

  lemma SlotCount(t: seq<Detect>, order: seq<nat>, n: nat)
    requires |t| == n && Orders(t, order)
    ensures |order| <= n
    ensures |order| == n <==> forall i :: 0 <= i < n ==> t[i].active
  {
    DistinctSize(order);
    var used, all := Elements(order), Range(n);
    SubsetSize(used, all);
    if i :| 0 <= i < n && !t[i].active {
      ActiveInOrder(t, order, i);
      SubsetSize(used, all - {i});
    } else {
      SubsetSize(all, used);
    }
  }

  /** The list is full exactly when no slot is free. */
  lemma {:induction false} FullIffNoFreeSlot(t: seq<Detect>, order: seq<nat>)
    requires |t| == CAPACITY && Orders(t, order)
    ensures |order| <= CAPACITY
    ensures |order| == CAPACITY <==> forall i :: 0 <= i < |t| ==> t[i].active
  {
    SlotCount(t, order, |t|);
  }

  // ----- the search

  predicate IsKey(t: seq<Detect>, i: nat, r: Report)
    requires i < |t|
  {
    t[i].active && SameKey(t[i].report, r)
  }

  /** What the search knows after looking at the first `n` slots without meeting the key. */
  ghost predicate Searched(t: seq<Detect>, r: Report, n: nat, free_slot: nat, oldest: nat, oldest_slot: nat)
    requires n <= |t| == CAPACITY
  {
    && (forall i :: 0 <= i < n ==> !IsKey(t, i, r))
    && free_slot <= CAPACITY && oldest <= UINT32_MAX && oldest_slot < CAPACITY
    && (if free_slot < CAPACITY then free_slot < n && !t[free_slot].active else forall i :: 0 <= i < n ==> t[i].active)
    && (if oldest < UINT32_MAX
        then oldest_slot < n && t[oldest_slot].updated == oldest && IsFirstLeast(t, oldest_slot, n)
        else oldest_slot == 0 && forall i :: 0 <= i < n ==> t[i].updated == UINT32_MAX)
  }

  /** The first of the slots below `n` with the smallest word. */
  ghost predicate IsFirstLeast(t: seq<Detect>, slot: nat, n: nat)
    requires slot < |t| && n <= |t|
  {
    && (forall i :: 0 <= i < n ==> t[slot].updated <= t[i].updated)
    && (forall i :: 0 <= i < slot ==> t[slot].updated < t[i].updated)
  }

  /** The first slot with the smallest word, on a table without a free one. */
  ghost predicate IsLeast(t: seq<Detect>, slot: nat)
    requires slot < |t|
  {
    IsFirstLeast(t, slot, |t|) && forall i :: 0 <= i < |t| ==> t[i].active
  }

  /** The slot a report is written to: its key's, else a free one, else the first with the smallest word. */
  ghost predicate Chosen(t: seq<Detect>, r: Report, slot: nat)
    requires |t| == CAPACITY
  {
    && slot < CAPACITY
    && (IsKey(t, slot, r) ||
        ((forall i :: 0 <= i < CAPACITY ==> !IsKey(t, i, r)) && (!t[slot].active || IsLeast(t, slot))))
  }

  lemma SearchChooses(t: seq<Detect>, r: Report, free_slot: nat, oldest: nat, oldest_slot: nat)
    requires |t| == CAPACITY && Searched(t, r, CAPACITY, free_slot, oldest, oldest_slot)
    ensures Chosen(t, r, if free_slot != CAPACITY then free_slot else oldest_slot)
  {
  }

  // ----- a report refines `Reported`

  function Fresh(r: Report, now: nat): Detect { Detect(true, r, Low(now)) }

  /** The slot moves to, or comes in at, the front. */
  ghost function Reordered(order: seq<nat>, slot: nat): seq<nat> {
    [slot] + Rest(order, slot)
  }

  lemma SlotChange(t: seq<Detect>, order: seq<nat>, slot: nat, d: Detect)
    requires AreSlots(t, order) && slot < |t| && slot !in order
    ensures AreSlots(t[slot := d], order) && Listed(t[slot := d], order) == Listed(t, order)
  {
    assert forall k :: 0 <= k < |order| ==> order[k] != slot;
  }

  ghost function Rest(order: seq<nat>, slot: nat): seq<nat> { Select(order, Elements(order) - {slot}) }

  lemma RestIsActive(t: seq<Detect>, order: seq<nat>, slot: nat)
    requires |t| == CAPACITY && Orders(t, order)
    ensures forall y :: y in Rest(order, slot) ==> y < CAPACITY && y != slot && t[y].active
  {
    forall y | y in Rest(order, slot) ensures y < CAPACITY && y != slot && t[y].active {
      var k :| 0 <= k < |order| && order[k] == y;
    }
  }

  /** The new order, as far as recency goes. */
  lemma ReportLists(t: seq<Detect>, order: seq<nat>, r: Report, slot: nat, now: nat)
    requires Refines(t, order) && slot < CAPACITY
    ensures var t', rest := t[slot := Fresh(r, now)], Rest(order, slot);
      && AreSlots(t, rest) && AreSlots(t', Reordered(order, slot))
      && Listed(t', Reordered(order, slot)) == [r] + Listed(t, rest)
  {
    var t', rest := t[slot := Fresh(r, now)], Rest(order, slot);
    SelectIsOrder(t, order, Elements(order) - {slot});
    RestIsActive(t, order, slot);
    SlotChange(t, rest, slot, Fresh(r, now));
    FrontIsOrder(t', slot, rest);
  }

  lemma KeysStayDistinct(t: seq<Detect>, r: Report, slot: nat, now: nat)
    requires |t| == CAPACITY && KeysDistinct(t) && Chosen(t, r, slot)
    ensures KeysDistinct(t[slot := Fresh(r, now)])
  {
    forall i | 0 <= i < CAPACITY && i != slot && t[i].active
      ensures !SameKey(t[i].report, r)
    {
      if IsKey(t, slot, r) {
        if i < slot {
          assert !SameKey(t[i].report, t[slot].report);
        } else {
          assert !SameKey(t[slot].report, t[i].report);
        }
      } else {
        assert !IsKey(t, i, r);
      }
    }
  }

  lemma {:induction false} ReportKeepsTable(t: seq<Detect>, order: seq<nat>, r: Report, slot: nat, now: nat)
    requires Refines(t, order) && Chosen(t, r, slot)
    ensures Refines(t[slot := Fresh(r, now)], Reordered(order, slot))
  {
    var t', o := t[slot := Fresh(r, now)], Reordered(order, slot);
    ReportLists(t, order, r, slot, now);
    KeysStayDistinct(t, r, slot, now);
    RestIsActive(t, order, slot);
    forall k | 0 <= k < |o| ensures t'[o[k]].active {
      if k > 0 { assert Rest(order, slot)[k - 1] in Rest(order, slot); }
    }
    forall i | 0 <= i < |t'| && t'[i].active ensures i in o {
      if i != slot { assert t[i].active && i in order && i in Rest(order, slot); }
    }
  }

  /** Leaving out the key's slot leaves out its report. */
  lemma {:induction false} SelectIsWithout(t: seq<Detect>, order: seq<nat>, keep: set<nat>, r: Report)
    requires AreSlots(t, order) && AreSlots(t, Select(order, keep))
    requires forall x :: x in order ==> x < |t| && (x in keep <==> !SameKey(t[x].report, r))
    ensures Listed(t, Select(order, keep)) == Without(Listed(t, order), r)
  {
    if order == [] {
    } else {
      TailIsOrder(t, order);
      SelectIsOrder(t, order[1..], keep);
      SelectIsWithout(t, order[1..], keep, r);
      assert order[0] in order;
      if order[0] in keep { TailIsOrder(t, Select(order, keep)); }
    }
  }

  lemma {:induction false} SelectAll(order: seq<nat>, keep: set<nat>)
    requires forall x :: x in order ==> x in keep
    ensures Select(order, keep) == order
  {
    if order == [] {
    } else {
      SelectAll(order[1..], keep);
    }
  }

  function Drop(order: seq<nat>, p: nat): seq<nat>
    requires p < |order|
  {
    order[..p] + order[p + 1..]
  }

  lemma DropShift(order: seq<nat>, p: nat)
    requires 0 < p < |order|
    ensures Drop(order, p) == [order[0]] + Drop(order[1..], p - 1)
  {
  }

  lemma {:induction false} SelectButOne(order: seq<nat>, keep: set<nat>, p: nat)
    requires p < |order| && order[p] !in keep
    requires forall k :: 0 <= k < |order| && k != p ==> order[k] in keep
    ensures Select(order, keep) == Drop(order, p)
  {
    var rest := order[1..];
    assert forall k :: 0 <= k < |rest| ==> rest[k] == order[k + 1];
    if p == 0 {
      SelectAll(rest, keep);
      assert Drop(order, 0) == rest;
    } else {
      SelectButOne(rest, keep, p - 1);
      DropShift(order, p);
    }
  }

  lemma PlaceOf(order: seq<nat>, slot: nat) returns (p: nat)
    requires slot in order
    ensures p < |order| && order[p] == slot
  {
    p :| p < |order| && order[p] == slot;
  }

  lemma ListHasKey(t: seq<Detect>, order: seq<nat>, r: Report)
    requires |t| == CAPACITY && Orders(t, order)
    ensures HasKey(Listed(t, order), r) <==> exists i :: 0 <= i < CAPACITY && IsKey(t, i, r)
  {
    var l := Listed(t, order);
    if x :| x in l && SameKey(x, r) {
      var k :| 0 <= k < |l| && l[k] == x;
      assert IsKey(t, order[k], r);
    }
    if i :| 0 <= i < CAPACITY && IsKey(t, i, r) {
      var k :| 0 <= k < |order| && order[k] == i;
      assert l[k] in l && SameKey(l[k], r);
    }
  }

  /** A report at any time does to the recency list what the specification says: a known key moves to the front, a
      new one is added there, and on a full table exactly one other key is gone. */
  lemma {:induction false} ReportRefines(
      t: seq<Detect>, order: seq<nat>, r: Report, slot: nat, now: nat) returns (victim: nat)
    requires Refines(t, order) && Chosen(t, r, slot)
    ensures Refines(t[slot := Fresh(r, now)], Reordered(order, slot))
    ensures Evicts(t, r) ==> victim < |order| == CAPACITY && order[victim] == slot && IsLeast(t, slot)
    ensures victim < |order| || HasKey(Listed(t, order), r) || |order| < CAPACITY
    ensures Listed(t[slot := Fresh(r, now)], Reordered(order, slot)) == Reported(Listed(t, order), r, victim)
  {
    ReportKeepsTable(t, order, r, slot, now);
    ReportLists(t, order, r, slot, now);
    ListHasKey(t, order, r);
    FullIffNoFreeSlot(t, order);
    ActiveInOrder(t, order, slot);
    victim := 0;
    if IsKey(t, slot, r) {
      KeepIsOtherKeys(t, order, r, slot);
      SelectIsWithout(t, order, Elements(order) - {slot}, r);
    } else if t[slot].active {
      victim := PlaceOf(order, slot);
      DropsOne(t, order, victim);
    } else {
      KeepsAll(t, order, slot);
    }
  }

  /** A new key comes to a full table. */
  predicate Evicts(t: seq<Detect>, r: Report) {
    forall i :: 0 <= i < |t| ==> t[i].active && !IsKey(t, i, r)
  }

  /** A free slot leaves every listed slot in place. */
  lemma KeepsAll(t: seq<Detect>, order: seq<nat>, slot: nat)
    requires |t| == CAPACITY && Orders(t, order) && slot < CAPACITY && !t[slot].active
    ensures Rest(order, slot) == order
  {
    ActiveInOrder(t, order, slot);
    SelectAll(order, Elements(order) - {slot});
  }

  /** Writing over a listed slot takes its entry out of the list. */
  lemma DropsOne(t: seq<Detect>, order: seq<nat>, p: nat)
    requires |t| == CAPACITY && Orders(t, order) && p < |order|
    ensures Rest(order, order[p]) == order[..p] + order[p + 1..]
    ensures AreSlots(t, Rest(order, order[p])) &&
      Listed(t, Rest(order, order[p])) == Listed(t, order)[..p] + Listed(t, order)[p + 1..]
  {
    SelectButOne(order, Elements(order) - {order[p]}, p);
    ListedDrop(t, order, p);
  }

  lemma ListedDrop(t: seq<Detect>, order: seq<nat>, p: nat)
    requires AreSlots(t, order) && p < |order|
    ensures AreSlots(t, order[..p] + order[p + 1..])
    ensures Listed(t, order[..p] + order[p + 1..]) == Listed(t, order)[..p] + Listed(t, order)[p + 1..]
  {
  }

  lemma KeepIsOtherKeys(t: seq<Detect>, order: seq<nat>, r: Report, slot: nat)
    requires |t| == CAPACITY && Orders(t, order) && KeysDistinct(t) && slot < CAPACITY && IsKey(t, slot, r)
    ensures forall x :: x in order ==> x < |t| && (x in Elements(order) - {slot} <==> !SameKey(t[x].report, r))
  {
    forall x | x in order ensures x < |t| && (x != slot <==> !SameKey(t[x].report, r)) {
      var k :| 0 <= k < |order| && order[k] == x;
      if x < slot { assert !SameKey(t[x].report, t[slot].report); }
      if slot < x { assert !SameKey(t[slot].report, t[x].report); }
    }
  }

  // ----- clearing refines `Cleared`

  function ClearSlot(d: Detect, node: nat): Detect { if Matches(d, node) then EMPTY else d }

  ghost function Others(t: seq<Detect>, node: nat): set<nat> {
    set i | 0 <= i < |t| && !Matches(t[i], node)
  }

  lemma {:induction false} SelectIsCleared(t: seq<Detect>, order: seq<nat>, node: nat)
    requires AreSlots(t, order) && AreSlots(t, Select(order, Others(t, node)))
    requires forall k :: 0 <= k < |order| ==> t[order[k]].active
    ensures Listed(t, Select(order, Others(t, node))) == Cleared(Listed(t, order), node)
  {
    var keep := Others(t, node);
    if order == [] {
    } else {
      TailIsOrder(t, order);
      SelectIsOrder(t, order[1..], keep);
      SelectIsCleared(t, order[1..], node);
      if order[0] in keep { TailIsOrder(t, Select(order, keep)); }
    }
  }

  lemma UnclearedSlots(t: seq<Detect>, order: seq<nat>, t': seq<Detect>)
    requires AreSlots(t, order) && |t'| == |t| && forall x :: x in order && x < |t| ==> t'[x] == t[x]
    ensures AreSlots(t', order) && Listed(t', order) == Listed(t, order)
  {
    assert forall k :: 0 <= k < |order| ==> order[k] in order;
  }

  /** Clearing a node, or all, removes exactly its entries from the recency list. */
  lemma {:induction false} ClearRefines(t: seq<Detect>, order: seq<nat>, node: nat, t': seq<Detect>)
    requires Refines(t, order) && |t'| == |t|
    requires forall i :: 0 <= i < |t| ==> t'[i] == ClearSlot(t[i], node)
    ensures Refines(t', Select(order, Others(t, node)))
    ensures Listed(t', Select(order, Others(t, node))) == Cleared(Listed(t, order), node)
  {
    var o := Select(order, Others(t, node));
    SelectIsOrder(t, order, Others(t, node));
    SelectIsCleared(t, order, node);
    UnclearedSlots(t, o, t');
    forall k | 0 <= k < |o| ensures t'[o[k]].active {
      assert o[k] in o;
      var j :| 0 <= j < |order| && order[j] == o[k];
    }
  }

  // ----- enumeration

  /** The matching slots below `n`, in index order. */
  function Matching(t: seq<Detect>, node: nat, n: nat): (m: seq<nat>)
    requires n <= |t|
    ensures |m| <= n
  {
    if n == 0 then []
    else Matching(t, node, n - 1) + if Matches(t[n - 1], node) then [n - 1] else []
  }

  /** Reading positions 0 .. count-1 yields every matching slot exactly once. */
  lemma {:induction false} MatchingEnumerates(t: seq<Detect>, node: nat, n: nat)
    requires n <= |t|
    ensures var m := Matching(t, node, n);
      && (forall j, k :: 0 <= j < k < |m| ==> m[j] < m[k])
      && (forall k :: 0 <= k < |m| ==> m[k] < n)
      && (forall i :: 0 <= i < n ==> (i in m <==> t[i].active && (node == 0 || t[i].report.node == node)))
  {
    if n == 0 {
    } else {
      MatchingEnumerates(t, node, n - 1);
      var before := Matching(t, node, n - 1);
      assert Matching(t, node, n) == before + if Matches(t[n - 1], node) then [n - 1] else [];
    }
  }

  lemma MatchingGrows(t: seq<Detect>, node: nat, n: nat, total: nat)
    requires n <= total <= |t|
    ensures |Matching(t, node, n)| <= |Matching(t, node, total)|
    ensures Matching(t, node, n) == Matching(t, node, total)[..|Matching(t, node, n)|]
    decreases total
  {
    if n >= total {
    } else {
      MatchingGrows(t, node, n, total - 1);
    }
  }

  // ----- times

  /** `at[i]` is when slot `i` was last reported, the clock now reading `now`. */
  ghost predicate TimesFit(t: seq<Detect>, order: seq<nat>, at: seq<nat>, now: nat) {
    && |at| == |t| && Newest(order, at)
    && (forall i :: 0 <= i < |t| && t[i].active ==> t[i].updated == Low(at[i]) && at[i] <= now)
  }

  ghost predicate Newest(order: seq<nat>, at: seq<nat>) {
    && (forall k :: 0 <= k < |order| ==> order[k] < |at|)
    && (forall j, k :: 0 <= j < k < |order| ==> at[order[j]] >= at[order[k]])
  }

  lemma {:induction false} SelectNewest(order: seq<nat>, keep: set<nat>, at: seq<nat>)
    requires Newest(order, at)
    ensures Newest(Select(order, keep), at)
  {
    if order == [] {
    } else {
      SelectNewest(order[1..], keep, at);
      forall y | y in Select(order[1..], keep) ensures y < |at| && at[order[0]] >= at[y] {
        HeadIsNewest(order, at, y);
      }
      FrontNewest(order[0], Select(order[1..], keep), at);
    }
  }

  lemma HeadIsNewest(order: seq<nat>, at: seq<nat>, y: nat)
    requires Newest(order, at) && order != [] && y in order[1..]
    ensures order[0] < |at| && y < |at| && at[order[0]] >= at[y]
  {
    var k := PlaceOf(order[1..], y);
    assert order[k + 1] == y;
  }

  lemma FrontNewest(x: nat, rest: seq<nat>, at: seq<nat>)
    requires Newest(rest, at) && x < |at| && forall y :: y in rest ==> y < |at| && at[x] >= at[y]
    ensures Newest([x] + rest, at)
  {
  }

  lemma ReportFits(t: seq<Detect>, order: seq<nat>, at: seq<nat>, before: nat, r: Report, slot: nat, now: nat)
    requires Refines(t, order) && TimesFit(t, order, at, before) && before <= now && slot < CAPACITY
    ensures TimesFit(t[slot := Fresh(r, now)], Reordered(order, slot), at[slot := now], now)
  {
    var at', rest := at[slot := now], Rest(order, slot);
    SelectNewest(order, Elements(order) - {slot}, at);
    RestIsActive(t, order, slot);
    forall k | 0 <= k < |rest| ensures at'[rest[k]] == at[rest[k]] <= now { assert rest[k] in rest; }
  }

  lemma ClearFits(t: seq<Detect>, order: seq<nat>, at: seq<nat>, now: nat, node: nat, t': seq<Detect>)
    requires TimesFit(t, order, at, now) && |t'| == |t|
    requires forall i :: 0 <= i < |t| ==> t'[i] == ClearSlot(t[i], node)
    ensures TimesFit(t', Select(order, Others(t, node)), at, now)
  {
    SelectNewest(order, Others(t, node), at);
  }

  function Oldest(order: seq<nat>): nat
    requires order != []
  {
    order[|order| - 1]
  }

  /** Words order like times that lie in one round of the clock, and the wrap puts later times first. */
  lemma WordOrder(a: nat, b: nat)
    requires a <= b < a + WORD
    ensures a / WORD == b / WORD <==> Low(a) <= Low(b)
    ensures Low(a) == Low(b) <==> a == b
  {
  }

  /** A report that is not a least recent one, and yet comes before all of those by its word, or by its place at the
      same word. */
  ghost predicate ReadsOldest(order: seq<nat>, at: seq<nat>, i: nat)
    requires order != [] && Oldest(order) < |at| && i < |at|
  {
    var o := Oldest(order);
    at[i] != at[o] && Low(at[i]) <= Low(at[o])
    && (Low(at[i]) == Low(at[o]) ==> forall x :: 0 <= x < |at| && at[x] == at[o] ==> i < x)
  }

  /** On any full table the entry evicted is a least recently reported one if and only if no other report reads
      older, by the low 32 bits of its time. */
  lemma {:induction false} EvictsOldestIff(t: seq<Detect>, order: seq<nat>, at: seq<nat>, now: nat, slot: nat)
    requires Refines(t, order) && TimesFit(t, order, at, now) && order != [] && slot < CAPACITY && IsLeast(t, slot)
    ensures at[slot] == at[Oldest(order)] <==> forall i :: 0 <= i < |at| ==> !ReadsOldest(order, at, i)
  {
    var o := Oldest(order);
    assert t[o].active && t[slot].active;
    if at[slot] == at[o] {
      forall i | 0 <= i < |at| ensures !ReadsOldest(order, at, i) {
        assert t[i].active;
      }
    } else {
      forall x | 0 <= x < |at| && at[x] == at[o] && Low(at[slot]) == Low(at[o]) ensures slot < x {
        assert t[x].active;
      }
      assert ReadsOldest(order, at, slot);
    }
  }

  /** While all reports lie within 2^32 ms, that is: if and only if the clock has not wrapped between the oldest and
      the newest. */
  lemma {:induction false} EvictsOldestIffUnwrapped(t: seq<Detect>, order: seq<nat>, at: seq<nat>, now: nat, slot: nat)
    requires Refines(t, order) && TimesFit(t, order, at, now) && order != [] && slot < CAPACITY && IsLeast(t, slot)
    requires at[order[0]] < at[Oldest(order)] + WORD
    ensures at[slot] == at[Oldest(order)] <==> at[order[0]] / WORD == at[Oldest(order)] / WORD
  {
    var last := Oldest(order);
    ActiveInOrder(t, order, slot);
    var p := PlaceOf(order, slot);
    assert t[last].active && t[order[0]].active && t[slot].active;
    WordOrder(at[last], at[order[0]]);
    WordOrder(at[last], at[slot]);
    assert at[last] <= at[slot] <= at[order[0]];
    BetweenWords(at[last], at[slot], at[order[0]]);
  }

  /** Sixty-three reports in the last milliseconds before the clock wraps and one right after: that one, the newest,
      is the one a new key evicts. */
  lemma {:induction false} NewestEvicted() returns (t: seq<Detect>, order: seq<nat>, at: seq<nat>)
    ensures Refines(t, order) && TimesFit(t, order, at, WORD) && order != [] && IsLeast(t, order[0])
    ensures at[order[0]] == WORD && at[Oldest(order)] == WORD - 63 && ReadsOldest(order, at, order[0])
  {
    at := seq(CAPACITY, i requires 0 <= i < CAPACITY => WORD - 63 + i);
    t := seq(CAPACITY, i requires 0 <= i < CAPACITY => Detect(true, Report(1, i, false, "", ""), Low(WORD - 63 + i)));
    order := seq(CAPACITY, k requires 0 <= k < CAPACITY => 63 - k);
    forall i | 0 <= i < CAPACITY ensures i in order {
      assert order[63 - i] == i;
    }
    assert Low(WORD) == 0;
    forall i | 0 <= i < 63 ensures t[i].updated == WORD - 63 + i {
      BelowWord(WORD - 63 + i);
    }
    assert t[63].updated == 0;
  }

  lemma BelowWord(x: nat)
    requires x < WORD
    ensures Low(x) == x
  {
  }

  lemma BetweenWords(a: nat, x: nat, b: nat)
    requires a <= x <= b < a + WORD
    ensures a / WORD == b / WORD ==> x / WORD == a / WORD
    ensures a / WORD == b / WORD && Low(x) <= Low(a) ==> x == a
  {
  }

  // ----- the object

  class RemoteDetects {
    const items: array<Detect>
    ghost var order: seq<nat>
    ghost var at: seq<nat>
    ghost var clock: nat

    constructor ()
      ensures Valid() && fresh(items) && order == [] && clock == 0
    {
      items := new Detect[CAPACITY](_ => EMPTY);
      order, at, clock := [], seq(CAPACITY, _ => 0), 0;
    }

    ghost predicate Valid()
      reads this, items
    {
      items.Length == CAPACITY && Refines(items[..], order) && TimesFit(items[..], order, at, clock)
    }

    /** The recency list the table stands for. */
    ghost function List(): seq<Report>
      requires AreSlots(items[..], order)
      reads this, items
    {
      Listed(items[..], order)
    }

    /** No report in the table reads older than a least recent one. */
    ghost predicate OldestReadsOldest()
      requires Valid()
      reads this, items
    {
      order != [] ==> forall i :: 0 <= i < |at| ==> !ReadsOldest(order, at, i)
    }

    /** The reports in the table lie within one turn of the clock. */
    ghost predicate WithinOneTurn()
      requires Valid()
      reads this, items
    {
      order != [] ==> at[order[0]] < at[Oldest(order)] + WORD
    }

    /** The clock wrapped between the oldest report in the table and the newest. */
    ghost predicate Wrapped()
      requires Valid()
      reads this, items
    {
      order != [] && at[order[0]] / WORD != at[Oldest(order)] / WORD
    }

    /** `notifyRemoteDetect`, at any time. */
    method Notify(r: Report, now: nat) returns (ghost victim: nat)
      requires Valid() && clock <= now
      modifies this, items
      ensures Valid() && clock == now
      ensures victim < |old(List())| || HasKey(old(List()), r) || |old(List())| < CAPACITY
      ensures List() == Reported(old(List()), r, victim)
      ensures old(Evicts(items[..], r)) ==> victim < |old(order)|
      ensures old(Evicts(items[..], r)) ==>
        (old(at[order[victim]]) == old(at[Oldest(order)]) <==> old(OldestReadsOldest()))
      ensures old(Evicts(items[..], r) && WithinOneTurn()) ==>
        (old(at[order[victim]]) == old(at[Oldest(order)]) <==> !old(Wrapped()))
    {
      ghost var t := items[..];
      var slot := FindSlot(r);
      victim := ReportRefines(t, order, r, slot, now);
      ReportFits(t, order, at, clock, r, slot, now);
      if Evicts(t, r) {
        EvictsOldestIff(t, order, at, clock, slot);
        if WithinOneTurn() { EvictsOldestIffUnwrapped(t, order, at, clock, slot); }
      }
      items[slot] := Detect(true, r, Low(now));
      assert items[..] == t[slot := Fresh(r, now)];
      order, at, clock := Reordered(order, slot), at[slot := now], now;
    }

    /** The search loop of `notifyRemoteDetect`. */
    method FindSlot(r: Report) returns (slot: nat)
      requires items.Length == CAPACITY
      ensures Chosen(items[..], r, slot)
    {
      ghost var t := items[..];
      var free_slot, oldest_ms, oldest_slot := CAPACITY, UINT32_MAX, 0;
      for i := 0 to CAPACITY
        invariant free_slot >= 0 && oldest_ms >= 0 && oldest_slot >= 0
        invariant Searched(t, r, i, free_slot, oldest_ms, oldest_slot)
      {
        var item := items[i];
        assert item == t[i];
        if item.active && item.report.node == r.node && item.report.sensor == r.sensor {
          assert IsKey(t, i, r);
          return i;
        }
        if !item.active && free_slot == CAPACITY { free_slot := i; }
        if item.updated < oldest_ms {
          oldest_ms := item.updated;
          oldest_slot := i;
        }
      }
      SearchChooses(t, r, free_slot, oldest_ms, oldest_slot);
      return if free_slot != CAPACITY then free_slot else oldest_slot;
    }

    /** `clearRemoteDetects`. */
    method Clear(node: nat)
      requires Valid()
      modifies this`order, items
      ensures Valid() && List() == Cleared(old(List()), node)
    {
      ghost var t := items[..];
      var i := 0;
      while i < CAPACITY
        invariant i <= CAPACITY && order == old(order)
        invariant forall j :: 0 <= j < i ==> items[j] == ClearSlot(t[j], node)
        invariant forall j :: i <= j < CAPACITY ==> items[j] == t[j]
      {
        if items[i].active && (node == 0 || items[i].report.node == node) {
          items[i] := EMPTY;
        }
        i := i + 1;
      }
      ClearRefines(t, order, node, items[..]);
      ClearFits(t, order, at, clock, node, items[..]);
      order := Select(order, Others(t, node));
    }

    /** `remoteDetectCount`. */
    method Count(node: nat) returns (count: nat)
      requires items.Length == CAPACITY
      ensures count == |Matching(items[..], node, CAPACITY)|
    {
      count := 0;
      for i := 0 to CAPACITY
        invariant count == |Matching(items[..], node, i)|
      {
        if items[i].active && (node == 0 || items[i].report.node == node) { count := count + 1; }
      }
    }

    /** `remoteDetectAt`. */
    method At(idx: nat, node: nat) returns (ok: bool, out: Detect)
      requires items.Length == CAPACITY
      ensures ok <==> idx < |Matching(items[..], node, CAPACITY)|
      ensures ok ==>
        Matching(items[..], node, CAPACITY)[idx] < CAPACITY && out == items[Matching(items[..], node, CAPACITY)[idx]]
    {
      out := EMPTY;
      var current := 0;
      for i := 0 to CAPACITY
        invariant current == |Matching(items[..], node, i)| <= idx
      {
        if items[i].active && (node == 0 || items[i].report.node == node) {
          if current == idx {
            MatchingGrows(items[..], node, i + 1, CAPACITY);
            assert Matching(items[..], node, i + 1)[idx] == i;
            return true, items[i];
          }
          current := current + 1;
        }
      }
      return false, out;
    }
  }
}
