/** How long a modem command can take: with ticks that come often enough, every accepted command is completed within
    a bound given by the time-outs of those ahead of it and its own. */
module ModemDelays {
  import opened Clock
  import opened Sim800l

  /** The state of the driver after each tick; `times[k]` is the time of tick `k`. */
  ghost predicate TickAt(drivers: seq<Driver>, times: seq<nat>, from: nat, g: nat, k: nat)
    requires k < |times| && |drivers| == |times| + 1
  {
    && TimeBefore(times, from, k) <= times[k] <= TimeBefore(times, from, k) + g
    && Leads(drivers[k], drivers[k + 1], times[k])
  }

  function TimeBefore(times: seq<nat>, from: nat, k: nat): nat
    requires k <= |times|
  {
    if k == 0 then from else times[k - 1]
  }

  /** Ticks at most `g` apart. */
  ghost predicate Ticks(drivers: seq<Driver>, times: seq<nat>, from: nat, g: nat) {
    |drivers| == |times| + 1 && forall k :: 0 <= k < |times| ==> TickAt(drivers, times, from, g, k)
  }

  /** The command in flight has no more time left than it was given. */
  predicate OnTime(d: Driver, now: nat) {
    d.m.waiting ==>
      d.m.ring != [] && now <= d.deadline <= now + d.m.ring[0].timeout_ms + if d.open then 0 else PAYLOAD_TIMEOUT_MS
  }

  /** Time-outs the clock can measure. */
  predicate ShortTimeouts(ring: seq<Cmd>) {
    forall i :: 0 <= i < |ring| ==> ring[i].timeout_ms + PAYLOAD_TIMEOUT_MS < HALF
  }

  // ----- a budget of time

  /** What a command may take from its start to the tick that completes it. */
  function Cost(c: Cmd, g: nat): nat { c.timeout_ms + PAYLOAD_TIMEOUT_MS + 3 * g }

  function Costs(ring: seq<Cmd>, g: nat): nat {
    if ring == [] then 0 else Cost(ring[0], g) + Costs(ring[1..], g)
  }

  /** What the command in flight may still take. */
  function FlightLeft(d: Driver, now: nat, g: nat): nat {
    (if d.deadline > now then d.deadline - now else 0) + g + if d.open then PAYLOAD_TIMEOUT_MS + g else 0
  }

  /** Until the first `n` commands of the queue are completed. */
  function Budget(d: Driver, now: nat, n: nat, g: nat): nat
    requires 0 < n <= |d.m.ring|
  {
    if d.m.waiting then FlightLeft(d, now, g) + Costs(d.m.ring[1..n], g) else g + Costs(d.m.ring[..n], g)
  }

  lemma {:induction false} CostsSame(a: seq<Cmd>, b: seq<Cmd>, from: nat, n: nat, g: nat)
    requires a <= b && from <= n <= |a|
    ensures Costs(a[from..n], g) == Costs(b[from..n], g)
  {
    assert a[from..n] == b[from..n];
  }

  lemma CostsFirst(ring: seq<Cmd>, n: nat, g: nat)
    requires 0 < n <= |ring|
    ensures Costs(ring[..n], g) == Cost(ring[0], g) + Costs(ring[1..n], g)
  {
    assert ring[..n][1..] == ring[1..n];
  }

  lemma CostsTail(ring: seq<Cmd>, n: nat, g: nat)
    requires 0 < n <= |ring|
    ensures Costs(ring[1..n], g) == Costs(ring[1..][..n - 1], g)
  {
    assert ring[1..n] == ring[1..][..n - 1];
  }

  // ----- one tick

  /** A deadline that has not passed by the low words has not passed. */
  lemma NotPassed(deadline: nat, now: nat)
    requires now < deadline + HALF && deadline < now + HALF
    ensures NotBefore(Low(now), Low(deadline)) <==> now >= deadline
  {
    NotBeforeIsOrder(now, deadline);
  }

  predicate Room(g: nat) { PAYLOAD_TIMEOUT_MS + g < HALF }

  lemma StaysOnTime(d: Driver, d': Driver, last: nat, now: nat, g: nat)
    requires OnTime(d, last) && Leads(d, d', now) && last <= now <= last + g && Room(g)
    requires ShortTimeouts(d.m.ring) && ShortTimeouts(d'.m.ring)
    ensures OnTime(d', now)
  {
    if d.m.waiting && d'.m.done == d.m.done {
      NotPassed(d'.deadline, now);
    }
  }

  /** The command in flight stays in flight: its time is paid for. */
  lemma FlightFalls(d: Driver, d': Driver, last: nat, now: nat, n: nat, g: nat)
    requires OnTime(d, last) && Leads(d, d', now) && last <= now <= last + g && Room(g) && 0 < n <= |d.m.ring|
    requires d.m.waiting && d'.m.done == d.m.done && ShortTimeouts(d.m.ring)
    ensures n <= |d'.m.ring| && Budget(d', now, n, g) + (now - last) <= Budget(d, last, n, g)
  {
    NotPassed(d'.deadline, now);
    CostsSame(d.m.ring, d'.m.ring, 1, n, g);
  }

  lemma StartCosts(d': Driver, now: nat, n: nat, g: nat)
    requires d'.m.waiting && 0 < n <= |d'.m.ring| && d'.deadline == now + d'.m.ring[0].timeout_ms
    ensures Budget(d', now, n, g) + g <= Costs(d'.m.ring[..n], g)
  {
    CostsFirst(d'.m.ring, n, g);
  }

  /** One command completes, and the next starts. */
  lemma CompletionFalls(d: Driver, d': Driver, last: nat, now: nat, n: nat, g: nat)
    requires Leads(d, d', now) && last <= now <= last + g && 1 < n <= |d.m.ring|
    requires d.m.waiting && d'.m.done != d.m.done
    ensures n - 1 <= |d'.m.ring| && Budget(d', now, n - 1, g) + (now - last) <= Budget(d, last, n, g)
  {
    CostsTail(d.m.ring, n, g);
    CostsSame(d.m.ring[1..], d'.m.ring, 0, n - 1, g);
    StartCosts(d', now, n - 1, g);
  }

  /** A queue with none in flight starts its first. */
  lemma StartFalls(d: Driver, d': Driver, last: nat, now: nat, n: nat, g: nat)
    requires Leads(d, d', now) && last <= now <= last + g && 0 < n <= |d.m.ring| && !d.m.waiting
    ensures n <= |d'.m.ring| && Budget(d', now, n, g) + (now - last) <= Budget(d, last, n, g)
  {
    CostsSame(d.m.ring, d'.m.ring, 0, n, g);
    StartCosts(d', now, n, g);
  }

  // ----- runs

  ghost predicate AllShort(drivers: seq<Driver>) {
    forall k :: 0 <= k < |drivers| ==> ShortTimeouts(drivers[k].m.ring)
  }

  function EndOf(times: seq<nat>, from: nat): nat { TimeBefore(times, from, |times|) }

  lemma {:induction false} CompletedInBudget(drivers: seq<Driver>, times: seq<nat>, from: nat, g: nat, n: nat)
    requires Ticks(drivers, times, from, g) && Room(g) && AllShort(drivers) && OnTime(drivers[0], from)
    requires 0 < n <= |drivers[0].m.ring| && EndOf(times, from) > from + Budget(drivers[0], from, n, g)
    ensures |drivers[|times|].m.done| >= |drivers[0].m.done| + n
    decreases |times|
  {
    if times == [] {
    } else {
      assert TickAt(drivers, times, from, g, 0);
      var d, d', now := drivers[0], drivers[1], times[0];
      LaterTicks(drivers, times, from, g);
      StaysOnTime(d, d', from, now, g);
      assert EndOf(times[1..], now) == EndOf(times, from);
      if d.m.waiting && d'.m.done != d.m.done {
        if n == 1 {
          DoneGrows(drivers[1..], times[1..], now, g);
        } else {
          CompletionFalls(d, d', from, now, n, g);
          CompletedInBudget(drivers[1..], times[1..], now, g, n - 1);
        }
      } else {
        if d.m.waiting { FlightFalls(d, d', from, now, n, g); } else { StartFalls(d, d', from, now, n, g); }
        CompletedInBudget(drivers[1..], times[1..], now, g, n);
      }
    }
  }

  lemma LaterTicks(drivers: seq<Driver>, times: seq<nat>, from: nat, g: nat)
    requires Ticks(drivers, times, from, g) && times != []
    ensures Ticks(drivers[1..], times[1..], times[0], g)
  {
    forall k | 0 <= k < |times[1..]| ensures TickAt(drivers[1..], times[1..], times[0], g, k) {
      assert TickAt(drivers, times, from, g, k + 1);
    }
  }

  lemma {:induction false} DoneGrows(drivers: seq<Driver>, times: seq<nat>, from: nat, g: nat)
    requires Ticks(drivers, times, from, g)
    ensures |drivers[|times|].m.done| >= |drivers[0].m.done|
    decreases |times|
  {
    if times == [] {
    } else {
      assert TickAt(drivers, times, from, g, 0);
      LaterTicks(drivers, times, from, g);
      DoneGrows(drivers[1..], times[1..], times[0], g);
    }
  }

  lemma BudgetBound(d: Driver, now: nat, n: nat, g: nat)
    requires 0 < n <= |d.m.ring| && OnTime(d, now)
    ensures Budget(d, now, n, g) <= g + Costs(d.m.ring[..n], g)
  {
    CostsFirst(d.m.ring, n, g);
  }

  /** With ticks at most `g` apart, the first `n` commands of the queue, in flight or not, are completed once ticks
      have gone on for longer than `g` and, for each of them, its time-out, the payload's, and three gaps. */
  lemma {:induction false} CompletedInTime(drivers: seq<Driver>, times: seq<nat>, from: nat, g: nat, n: nat)
    requires Ticks(drivers, times, from, g) && Room(g) && AllShort(drivers) && OnTime(drivers[0], from)
    requires 0 < n <= |drivers[0].m.ring| && EndOf(times, from) > from + g + Costs(drivers[0].m.ring[..n], g)
    ensures |drivers[|times|].m.done| >= |drivers[0].m.done| + n
  {
    BudgetBound(drivers[0], from, n, g);
    CompletedInBudget(drivers, times, from, g, n);
  }

  /** Ticks keep a driver on time, so that the bound holds from any tick on. */
  lemma {:induction false} AlwaysOnTime(drivers: seq<Driver>, times: seq<nat>, from: nat, g: nat, k: nat)
    requires Ticks(drivers, times, from, g) && Room(g) && AllShort(drivers) && OnTime(drivers[0], from) && k <= |times|
    ensures OnTime(drivers[k], TimeBefore(times, from, k))
  {
    if k == 0 {
    } else {
      AlwaysOnTime(drivers, times, from, g, k - 1);
      assert TickAt(drivers, times, from, g, k - 1);
      StaysOnTime(drivers[k - 1], drivers[k], TimeBefore(times, from, k - 1), times[k - 1], g);
    }
  }

  /** Commands enqueued before a tick do not matter to those ahead of them. */
  lemma EnqueuedBefore(d: Driver, e: Driver, d': Driver, now: nat)
    requires e.deadline == d.deadline && e.open == d.open && e.m.waiting == d.m.waiting && e.m.done == d.m.done
    requires d.m.ring <= e.m.ring && (d.m.waiting ==> d.m.ring != []) && Leads(e, d', now)
    ensures Leads(d, d', now)
  {
    if d.m.waiting { assert d.m.ring[1..] <= e.m.ring[1..]; }
  }
}
