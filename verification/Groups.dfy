/** The group table of the configuration: enumeration in sorted order by repeated selection, and id allocation. */
module Groups {
  import opened Options
  import opened Collections

  const GROUPS := 16

  datatype Group = Group(id: nat, sort: nat, name: string)

  const NO_GROUP := Group(0, 0, "")

  predicate IsListed(g: Group) { g.id != 0 && g.name != "" }

  // ----- the order

  /** `strcmp(a, b) < 0`, characters being bytes. */
  predicate NameBefore(a: string, b: string)
    decreases |a|
  {
    if b == "" then false
    else if a == "" then true
    else if a[0] != b[0] then a[0] < b[0]
    else NameBefore(a[1..], b[1..])
  }

  /** By sort, then name, then id. */
  predicate Before(a: Group, b: Group) {
    || a.sort < b.sort
    || (a.sort == b.sort && NameBefore(a.name, b.name))
    || (a.sort == b.sort && a.name == b.name && a.id < b.id)
  }

  lemma {:induction false} NamesCompare(a: string, b: string)
    ensures NameBefore(a, b) || NameBefore(b, a) || a == b
    ensures !(NameBefore(a, b) && NameBefore(b, a)) && !NameBefore(a, a)
    decreases |a|
  {
    if a == "" {
    } else {
      NamesCompare(a[1..], a[1..]);
      if b != "" && a[0] == b[0] {
        NamesCompare(a[1..], b[1..]);
        if a[1..] == b[1..] { assert a == [a[0]] + a[1..] && b == [b[0]] + b[1..]; }
      }
    }
  }

  lemma {:induction false} NamesChain(a: string, b: string, c: string)
    requires NameBefore(a, b) && NameBefore(b, c)
    ensures NameBefore(a, c)
    decreases |a|
  {
    if a == "" {
    } else if a[0] == b[0] == c[0] {
      NamesChain(a[1..], b[1..], c[1..]);
    }
  }

  lemma BeforeIsStrict(a: Group, b: Group)
    ensures !(Before(a, b) && Before(b, a))
  {
    NamesCompare(a.name, b.name);
  }

  lemma BeforeChains(a: Group, b: Group, c: Group)
    ensures Before(a, b) && Before(b, c) ==> Before(a, c)
    ensures Before(a, b) && !Before(c, b) ==> Before(a, c)
    ensures !Before(b, a) && !Before(c, b) ==> !Before(c, a)
  {
    NamesCompare(a.name, b.name);
    NamesCompare(b.name, c.name);
    NamesCompare(a.name, c.name);
    if NameBefore(a.name, b.name) && NameBefore(b.name, c.name) { NamesChain(a.name, b.name, c.name); }
    if NameBefore(c.name, a.name) && NameBefore(a.name, b.name) { NamesChain(c.name, a.name, b.name); }
    if NameBefore(b.name, c.name) && NameBefore(c.name, a.name) { NamesChain(b.name, c.name, a.name); }
  }

  // ----- selection

  predicate Candidate(t: seq<Group>, used: set<nat>, i: nat) {
    i < |t| && i !in used && IsListed(t[i])
  }

  /** The best unused listed group among the first `n`; the earlier slot wins a tie. */
  function Best(t: seq<Group>, used: set<nat>, n: nat): (b: Option<nat>)
    requires n <= |t|
    ensures b.Some? ==> b.value < n && Candidate(t, used, b.value)
  {
    if n == 0 then None else
    var b := Best(t, used, n - 1);
    if Candidate(t, used, n - 1) && (b.None? || Before(t[n - 1], t[b.value])) then Some(n - 1) else b
  }

  lemma {:induction false} BestIsLeast(t: seq<Group>, used: set<nat>, n: nat)
    requires n <= |t|
    ensures forall i :: 0 <= i < n && Candidate(t, used, i) ==>
      Best(t, used, n).Some? && !Before(t[i], t[Best(t, used, n).value])
  {
    if n == 0 {
    } else {
      BestIsLeast(t, used, n - 1);
      var b := Best(t, used, n - 1);
      forall i | 0 <= i < n && Candidate(t, used, i)
        ensures Best(t, used, n).Some? && !Before(t[i], t[Best(t, used, n).value])
      {
        BeforeIsStrict(t[n - 1], t[n - 1]);
        if b.Some? && i < n - 1 {
          BeforeIsStrict(t[n - 1], t[b.value]);
          BeforeIsStrict(t[i], t[n - 1]);
          BeforeChains(t[n - 1], t[b.value], t[i]);
        }
      }
    }
  }

  /** The slots taken by the first `n` rounds; short if the candidates run out. */
  function Taken(t: seq<Group>, n: nat): (order: seq<nat>)
    ensures |order| <= n
    ensures forall k :: 0 <= k < |order| ==> order[k] < |t| && IsListed(t[order[k]])
    ensures forall j, k :: 0 <= j < k < |order| ==> order[j] != order[k]
  {
    if n == 0 then [] else
    var order := Taken(t, n - 1);
    var b := Best(t, Elements(order), |t|);
    if |order| == n - 1 && b.Some? then order + [b.value] else order
  }

  /** `groupByIndex`. */
  function ByIndex(t: seq<Group>, idx: nat): Option<Group> {
    var order := Taken(t, idx + 1);
    if |order| == idx + 1 then Some(t[order[idx]]) else None
  }

  /** `groupCount` over the first `n` slots. */
  function CountListed(t: seq<Group>, n: nat): (c: nat)
    requires n <= |t|
  {
    if n == 0 then 0 else CountListed(t, n - 1) + if IsListed(t[n - 1]) then 1 else 0
  }

  // ----- the enumeration is a sort

  lemma TakenGrows(t: seq<Group>, m: nat, n: nat)
    requires m <= n
    ensures Taken(t, m) <= Taken(t, n)
    decreases n
  {
    if m >= n {
    } else {
      TakenGrows(t, m, n - 1);
    }
  }

  ghost predicate Sorted(t: seq<Group>, order: seq<nat>) {
    && (forall k :: 0 <= k < |order| ==> order[k] < |t|)
    && (forall j, k :: 0 <= j < k < |order| ==> !Before(t[order[k]], t[order[j]]))
  }

  /** Nothing left over is before anything taken. */
  ghost predicate LeavesLater(t: seq<Group>, order: seq<nat>)
    requires forall k :: 0 <= k < |order| ==> order[k] < |t|
  {
    forall i: nat, k :: 0 <= k < |order| && Candidate(t, Elements(order), i) ==> !Before(t[i], t[order[k]])
  }

  lemma StillCandidate(t: seq<Group>, order: seq<nat>, b: nat, i: nat)
    requires Candidate(t, Elements(order + [b]), i)
    ensures Candidate(t, Elements(order), i)
  {
    assert i !in order + [b];
  }

  lemma RoundKeepsSorted(t: seq<Group>, order: seq<nat>)
    requires Sorted(t, order) && LeavesLater(t, order) && Best(t, Elements(order), |t|).Some?
    ensures var order' := order + [Best(t, Elements(order), |t|).value]; Sorted(t, order') && LeavesLater(t, order')
  {
    var b := Best(t, Elements(order), |t|).value;
    var order' := order + [b];
    BestIsLeast(t, Elements(order), |t|);
    forall i: nat, k | 0 <= k < |order'| && Candidate(t, Elements(order'), i)
      ensures !Before(t[i], t[order'[k]])
    {
      StillCandidate(t, order, b, i);
    }
  }

  /** Each round takes a group that is before nothing taken, and leaves nothing that is before anything taken. */
  lemma {:induction false} TakenIsSorted(t: seq<Group>, n: nat)
    ensures Sorted(t, Taken(t, n)) && LeavesLater(t, Taken(t, n))
  {
    if n == 0 {
    } else {
      TakenIsSorted(t, n - 1);
      var order := Taken(t, n - 1);
      if |order| == n - 1 && Best(t, Elements(order), |t|).Some? { RoundKeepsSorted(t, order); }
    }
  }

  lemma UntakenIsCandidate(t: seq<Group>, order: seq<nat>, i: nat)
    requires i < |t| && IsListed(t[i])
    ensures i in order || Candidate(t, Elements(order), i)
  {
  }

  /** A short result has taken every listed group. */
  lemma {:induction false} ShortIsComplete(t: seq<Group>, n: nat)
    requires |Taken(t, n)| < n
    ensures forall i :: 0 <= i < |t| && IsListed(t[i]) ==> i in Taken(t, n)
  {
    var order := Taken(t, n - 1);
    if |order| < n - 1 {
      ShortIsComplete(t, n - 1);
    } else {
      BestIsLeast(t, Elements(order), |t|);
      forall i | 0 <= i < |t| && IsListed(t[i]) ensures i in order {
        UntakenIsCandidate(t, order, i);
      }
    }
  }

  function ListedSlots(t: seq<Group>, n: nat): (s: set<nat>)
    requires n <= |t|
    ensures |s| == CountListed(t, n)
    ensures forall i :: i in s <==> 0 <= i < n && IsListed(t[i])
  {
    if n == 0 then {} else ListedSlots(t, n - 1) + if IsListed(t[n - 1]) then {n - 1} else {}
  }

  /** The rounds take exactly the listed groups, each once. */
  lemma {:induction false} TakenIsAll(t: seq<Group>, n: nat)
    ensures |Taken(t, n)| == if n <= CountListed(t, |t|) then n else CountListed(t, |t|)
    ensures n >= CountListed(t, |t|) ==> Elements(Taken(t, n)) == ListedSlots(t, |t|)
  {
    var order, all := Taken(t, n), ListedSlots(t, |t|);
    DistinctSize(order);
    SubsetSize(Elements(order), all);
    if |order| < n {
      ShortIsComplete(t, n);
      assert Elements(order) == all;
    }
  }

  /** Reading indices 0 .. count-1 yields every listed group exactly once, in order of sort, name and id, and every
      larger index fails. */
  lemma {:induction false} EnumerationIsASort(t: seq<Group>)
    ensures var order := Taken(t, CountListed(t, |t|));
      && |order| == CountListed(t, |t|)
      && Elements(order) == ListedSlots(t, |t|)
      && (forall j, k :: 0 <= j < k < |order| ==> order[j] != order[k])
      && Sorted(t, order)
      && (forall idx: nat :: idx < |order| ==> ByIndex(t, idx) == Some(t[order[idx]]))
      && (forall idx: nat :: idx >= |order| ==> ByIndex(t, idx) == None)
  {
    var count := CountListed(t, |t|);
    TakenIsAll(t, count);
    TakenIsSorted(t, count);
    forall idx: nat | idx < count ensures ByIndex(t, idx) == Some(t[Taken(t, count)[idx]]) { IndexReads(t, idx); }
    forall idx: nat | idx >= count ensures ByIndex(t, idx) == None { IndexReads(t, idx); }
  }

  lemma IndexReads(t: seq<Group>, idx: nat)
    ensures var count := CountListed(t, |t|);
      |Taken(t, count)| == count &&
      ByIndex(t, idx) == if idx < count then Some(t[Taken(t, count)[idx]]) else None
  {
    var count := CountListed(t, |t|);
    TakenIsAll(t, idx + 1);
    TakenIsAll(t, count);
    if idx < count { TakenGrows(t, idx + 1, count); }
  }

  // ----- the order in terms of the groups

  /** The names agree up to `p`, where the first ends or has the smaller character. */
  predicate DiffersAt(a: string, b: string, p: nat) {
    p <= |a| && p < |b| && a[..p] == b[..p] && (p < |a| ==> a[p] < b[p])
  }

  lemma {:induction false} BeforeDiffers(a: string, b: string) returns (p: nat)
    requires NameBefore(a, b)
    ensures DiffersAt(a, b, p)
    decreases |a|
  {
    p := 0;
    if a == "" || a[0] != b[0] {
    } else {
      var q := BeforeDiffers(a[1..], b[1..]);
      p := q + 1;
      assert a[..p] == [a[0]] + a[1..][..q] && b[..p] == [b[0]] + b[1..][..q];
    }
  }

  /** Of two positions of the enumeration the earlier holds the group with the smaller sort; at equal sort, the one
      whose name comes first in byte order; at equal names, the one with the smaller id. */
  lemma {:induction false} ListedInOrder(t: seq<Group>, j: nat, k: nat)
    requires j < k && ByIndex(t, k).Some?
    ensures ByIndex(t, j).Some?
    ensures var a, b := ByIndex(t, j).value, ByIndex(t, k).value;
      && a.id != 0 && a.name != "" && b.id != 0 && b.name != ""
      && a.sort <= b.sort
      && (a.sort == b.sort ==> a.name == b.name || exists p: nat :: DiffersAt(a.name, b.name, p))
      && (a.sort == b.sort && a.name == b.name ==> a.id <= b.id)
  {
    IndexReads(t, j);
    IndexReads(t, k);
    var a, b := ByIndex(t, j).value, ByIndex(t, k).value;
    var count := CountListed(t, |t|);
    TakenIsSorted(t, count);
    assert a == t[Taken(t, count)[j]] && b == t[Taken(t, count)[k]];
    assert !Before(b, a);
    if a.sort == b.sort && a.name != b.name {
      NamesCompare(a.name, b.name);
      var p := BeforeDiffers(a.name, b.name);
    }
  }

  /** Every group with an id and a name has its position. */
  lemma {:induction false} EveryGroupIsListed(t: seq<Group>, i: nat) returns (idx: nat)
    requires i < |t| && t[i].id != 0 && t[i].name != ""
    ensures ByIndex(t, idx) == Some(t[i])
  {
    var count := CountListed(t, |t|);
    TakenIsAll(t, count);
    assert i in ListedSlots(t, |t|) && i in Elements(Taken(t, count));
    idx :| idx < count && Taken(t, count)[idx] == i;
    IndexReads(t, idx);
  }

  // ----- ids

  predicate IdsUnique(t: seq<Group>) {
    forall i, j :: 0 <= i < j < |t| && t[i].id != 0 ==> t[i].id != t[j].id
  }

  predicate IdUsed(t: seq<Group>, id: nat) {
    exists g <- t :: g.id == id
  }

  /** The slot a group may be written to: its own, or for a new id one that is not listed. */
  predicate Replaces(t: seq<Group>, i: nat, id: nat) {
    i < |t| && (t[i].id == id || (!IdUsed(t, id) && !IsListed(t[i])))
  }

  class ConfigsManager {
    const groups: array<Group>

    constructor ()
      ensures Valid() && IdsUnique(groups[..]) && fresh(groups)
    {
      groups := new Group[GROUPS](_ => NO_GROUP);
    }

    ghost predicate Valid() { groups.Length == GROUPS }

    method GroupCount() returns (count: nat)
      requires Valid()
      ensures count == CountListed(groups[..], GROUPS)
    {
      count := 0;
      for i := 0 to GROUPS
        invariant count == CountListed(groups[..], i)
      {
        if groups[i].id != 0 && groups[i].name != "" { count := count + 1; }
      }
    }

    method GroupByIndex(idx: nat) returns (out: Option<Group>)
      requires Valid()
      ensures out == ByIndex(groups[..], idx)
    {
      var used := new bool[GROUPS](_ => false);
      ghost var t := groups[..];
      out := None;
      var pos := 0;
      while pos <= idx
        invariant pos <= idx && |Taken(t, pos)| == pos && fresh(used) && groups[..] == t
        invariant forall i :: 0 <= i < GROUPS ==> (used[i] <==> i in Taken(t, pos))
      {
        ghost var order := Taken(t, pos);
        var best := BestUnused(used, order);
        RoundDecides(t, pos, idx, best);
        if best >= GROUPS { return None; }
        used[best] := true;
        if pos == idx { return Some(groups[best]); }
        pos := pos + 1;
      }
      assert false;
    }

    /** The inner loop: the best group not used yet, or GROUPS. */
    method BestUnused(used: array<bool>, ghost order: seq<nat>) returns (best: nat)
      requires Valid() && used.Length == GROUPS
      requires forall i :: 0 <= i < GROUPS ==> (used[i] <==> i in order)
      ensures best == BestOr(groups[..], order, GROUPS)
    {
      ghost var t := groups[..];
      best := GROUPS;
      for i := 0 to GROUPS
        invariant best == BestOr(t, order, i)
      {
        var g := groups[i];
        assert g == t[i] && (used[i] <==> i in Elements(order));
        if !(used[i] || g.id == 0 || g.name == "") {
          if best >= GROUPS || g.sort < groups[best].sort ||
             (g.sort == groups[best].sort && NameBefore(g.name, groups[best].name)) ||
             (g.sort == groups[best].sort && g.name == groups[best].name && g.id < groups[best].id)
          {
            best := i;
          }
        }
      }
    }

    static ghost function BestOr(t: seq<Group>, order: seq<nat>, n: nat): nat
      requires n <= |t|
    {
      match Best(t, Elements(order), n)
      case Some(b) => b
      case None => GROUPS
    }

    /** `setGroup`; the name is already sanitised. */
    method SetGroup(id: nat, name: string, sort: nat) returns (ok: bool)
      requires Valid() && IdsUnique(groups[..])
      modifies groups
      ensures IdsUnique(groups[..])
      ensures ok <==> id != 0 && (IdUsed(old(groups[..]), id) || exists g <- old(groups[..]) :: !IsListed(g))
      ensures ok ==> exists i: nat ::
        Replaces(old(groups[..]), i, id) && groups[..] == old(groups[..])[i := Group(id, sort, name)]
      ensures !ok ==> groups[..] == old(groups[..])
    {
      if id == 0 { return false; }
      ghost var t := groups[..];
      for i := 0 to GROUPS
        invariant groups[..] == t && forall j :: 0 <= j < i ==> t[j].id != id
      {
        if groups[i].id == id {
          assert t[i] in t && Replaces(t, i, id);
          groups[i] := Group(id, sort, name);
          assert groups[..] == t[i := Group(id, sort, name)];
          return true;
        }
      }
      assert !IdUsed(t, id);
      for i := 0 to GROUPS
        invariant groups[..] == t && forall j :: 0 <= j < i ==> IsListed(t[j])
      {
        if groups[i].id == 0 || groups[i].name == "" {
          assert t[i] in t && Replaces(t, i, id);
          groups[i] := Group(id, sort, name);
          assert groups[..] == t[i := Group(id, sort, name)];
          return true;
        }
      }
      return false;
    }

    /** `removeGroup`, without the references other configurations hold. */
    method RemoveGroup(id: nat) returns (ok: bool)
      requires Valid() && IdsUnique(groups[..])
      modifies groups
      ensures IdsUnique(groups[..])
      ensures ok <==> id != 0 && IdUsed(old(groups[..]), id)
      ensures ok ==> !IdUsed(groups[..], id)
      ensures ok ==> exists i: nat ::
        i < GROUPS && old(groups[i]).id == id && groups[..] == old(groups[..])[i := NO_GROUP]
      ensures !ok ==> groups[..] == old(groups[..])
    {
      if id == 0 { return false; }
      ghost var t := groups[..];
      for i := 0 to GROUPS
        invariant groups[..] == t && forall j :: 0 <= j < i ==> t[j].id != id
      {
        if groups[i].id == id {
          assert t[i] in t;
          groups[i] := NO_GROUP;
          assert groups[..] == t[i := NO_GROUP];
          return true;
        }
      }
      return false;
    }

    /** `allocateGroupId`: with sixteen groups some id is always free. */
    method AllocateGroupId() returns (id: nat)
      requires Valid()
      ensures 1 <= id <= 255 && !IdUsed(groups[..], id)
      ensures forall j :: 1 <= j < id ==> IdUsed(groups[..], j)
    {
      for i := 1 to 256
        invariant forall j :: 1 <= j < i ==> IdUsed(groups[..], j)
      {
        var used := false;
        for k := 0 to GROUPS
          invariant used <==> exists j :: 0 <= j < k && groups[j].id == i
        {
          if groups[k].id == i { used := true; break; }
        }
        if !used { return i; }
      }
      id := 0;
      TooManyIds(groups[..], 255);
      assert false;
    }
  }

  lemma RoundDecides(t: seq<Group>, pos: nat, idx: nat, best: nat)
    requires |t| == GROUPS && pos <= idx && |Taken(t, pos)| == pos
    requires best == ConfigsManager.BestOr(t, Taken(t, pos), GROUPS)
    ensures if best >= GROUPS then ByIndex(t, idx) == None
      else Taken(t, pos + 1) == Taken(t, pos) + [best] && (pos == idx ==> ByIndex(t, idx) == Some(t[best]))
  {
    if best >= GROUPS { StuckStaysStuck(t, pos + 1, idx + 1); }
  }

  /** Once the candidates have run out, no further round takes anything. */
  lemma StuckStaysStuck(t: seq<Group>, m: nat, n: nat)
    requires m <= n && |Taken(t, m)| < m
    ensures |Taken(t, n)| < n
    decreases n
  {
    if m >= n {
    } else {
      StuckStaysStuck(t, m, n - 1);
    }
  }

  function Ids(t: seq<Group>): (s: set<nat>)
    ensures |s| <= |t| && forall id :: id in s <==> IdUsed(t, id)
  {
    if t == [] then {} else
    assert t == [t[0]] + t[1..];
    {t[0].id} + Ids(t[1..])
  }

  function FirstIds(n: nat): (s: set<nat>)
    ensures |s| == n && forall id: nat :: id in s <==> 1 <= id <= n
  {
    if n == 0 then {} else FirstIds(n - 1) + {n}
  }

  lemma TooManyIds(t: seq<Group>, n: nat)
    requires forall j :: 1 <= j <= n ==> IdUsed(t, j)
    ensures n <= |t|
  {
    SubsetSize(FirstIds(n), Ids(t));
  }
}
