/** The 32-bit free-running counters the firmware compares: `millis()`, `micros()` and sequence numbers.
    Real time is an unbounded `nat`; the code only ever sees its low 32 bits. */
module Clock {

  const WORD: int := 0x1_0000_0000
  const HALF: int := 0x8000_0000

  type uint32 = x: int | 0 <= x < 0x1_0000_0000

  /** The low 32 bits of an unbounded count. */
  function Low(t: int): (r: uint32)
    ensures r == t % WORD
  {
    (t % WORD)
  }

  /** C's `(uint32_t)(a - b)`. */
  function Sub(a: uint32, b: uint32): (r: uint32)
  {
    Low(a - b)
  }

  /** C's `(uint32_t)(a + b)`. */
  function Add(a: uint32, b: uint32): (r: uint32)
  {
    Low(a + b)
  }

  /** `timeAfterOrEqual_`, `timePassed_` and `isSeqNewer_`: the difference read as a signed word is not negative. */
  predicate NotBefore(a: uint32, b: uint32) {
    Sub(a, b) < HALF
  }

  /** The difference of two low words is the low word of the difference. */
  lemma SubOfLows(a: int, b: int)
    ensures Sub(Low(a), Low(b)) == Low(a - b)
  {
    ModOfMultiple(a - b, b / WORD - a / WORD);
  }

  lemma ModOfMultiple(a: int, k: int)
    ensures (a + k * WORD) % WORD == a % WORD
  {
    var q := a / WORD;
    var r := a % WORD;
    assert a + k * WORD == (q + k) * WORD + r;
  }

  /** Adding words is adding counts. */
  lemma AddOfLows(a: int, b: int)
    ensures Add(Low(a), Low(b)) == Low(a + b)
  {
    ModOfMultiple(a + b, -(a / WORD) - b / WORD);
  }

  /** Measured elapsed time never exceeds real elapsed time, and is exact below one wrap: the
      fact behind every `now - since >= delay` test in the firmware. */
  lemma {:induction false} ElapsedNeverOverstates(since: nat, now: nat)
    requires since <= now
    ensures Sub(Low(now), Low(since)) <= now - since
    ensures now - since < WORD ==> Sub(Low(now), Low(since)) == now - since
  {
    SubOfLows(now, since);
  }

  /** A signed comparison of low words is the comparison of the counts while they are less than
      half the range apart. */
  lemma {:induction false} NotBeforeIsOrder(a: int, b: int)
    requires -HALF <= a - b < HALF
    ensures NotBefore(Low(a), Low(b)) <==> a >= b
  {
    SubOfLows(a, b);
  }
}
