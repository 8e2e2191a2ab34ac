/** The watering start key: date, minute and slot packed into decimal digits, in overflowing 32-bit arithmetic. */
module StartKey {
  import opened Clock

  const SLOTS := 3

  /** A date and minute of the RTC's century. */
  datatype Minute = Minute(year: nat, month: nat, day: nat, hour: nat, minute: nat)

  predicate InCentury(t: Minute) {
    2000 <= t.year <= 2099 && 1 <= t.month <= 12 && 1 <= t.day <= 31 && t.hour <= 23 && t.minute <= 59
  }

  /** `makeStartKey_`, every intermediate value truncated. */
  function MakeStartKey(t: Minute, slot: nat): uint32 {
    var base := Low(t.year * 100000000 + t.month * 1000000 + t.day * 10000 + t.hour * 100 + t.minute);
    Low(base * 10 + slot % SLOTS)
  }

  /** The digits without overflow. */
  function Digits(t: Minute, slot: nat): nat {
    t.year * 1000000000 + t.month * 10000000 + t.day * 100000 + t.hour * 1000 + t.minute * 10 + slot % SLOTS
  }

  lemma KeyIsTruncatedDigits(t: Minute, slot: nat)
    ensures MakeStartKey(t, slot) == Low(Digits(t, slot))
  {
    var b := t.year * 100000000 + t.month * 1000000 + t.day * 10000 + t.hour * 100 + t.minute;
    ModOfMultiple(Low(b) * 10 + slot % SLOTS, b / WORD * 10);
    assert b == Low(b) + b / WORD * WORD;
  }

  /** The part of the digits below the year, and the part below the day. */
  function InYear(t: Minute, slot: nat): nat {
    t.month * 10000000 + t.day * 100000 + InDay(t, slot)
  }

  function InDay(t: Minute, slot: nat): nat {
    t.hour * 1000 + t.minute * 10 + slot % SLOTS
  }

  lemma DigitsSplit(t: Minute, slot: nat)
    requires InCentury(t)
    ensures Digits(t, slot) == t.year * 1000000000 + InYear(t, slot)
    ensures InYear(t, slot) == (t.month * 100 + t.day) * 100000 + InDay(t, slot)
    ensures 10100000 <= InYear(t, slot) <= 123123592 && InDay(t, slot) <= 23592
  {
  }

  /** Within a year the digits are far from every multiple of 2^32 but three; */
  lemma YearMisses(k: int, year: int, rest: int)
    requires 466 <= k <= 488 && 10100000 <= rest <= 123123592
    requires year * 1000000000 + rest == k * WORD
    ensures k == 468 || k == 475 || k == 485
  {
    assert rest == k * WORD - year * 1000000000;
    assert (k * WORD) / 1000000000 == year && (k * WORD) % 1000000000 == rest;
  }

  /** and within a day they are far from those. */
  lemma DayMisses(k: int, days: int, rest: int)
    requires k == 468 || k == 475 || k == 485
    requires 0 <= rest <= 23592
    ensures days * 100000 + rest != k * WORD
  {
  }

  /** No key is the 0 a fresh rule starts with. */
  lemma {:induction false} KeyIsNeverZero(t: Minute, slot: nat)
    requires InCentury(t)
    ensures MakeStartKey(t, slot) != 0
  {
    KeyIsTruncatedDigits(t, slot);
    if MakeStartKey(t, slot) == 0 {
      DigitsSplit(t, slot);
      var k := Digits(t, slot) / WORD;
      YearMisses(k, t.year, InYear(t, slot));
      DayMisses(k, t.year * 10000 + t.month * 100 + t.day, InDay(t, slot));
    }
  }

  /** Two dates of the century are never a multiple of 2^32 apart but in four cases; */
  lemma YearsMiss(k: int, years: int, rest: int)
    requires 1 <= k <= 23 && -113023592 <= rest <= 113023592
    requires years * 1000000000 + rest == k * WORD
    ensures k == 7 || k == 10 || k == 17 || k == 20
  {
    if rest >= 0 {
      assert (k * WORD) % 1000000000 == rest;
    } else {
      assert (k * WORD) % 1000000000 == rest + 1000000000;
    }
  }

  /** and the time of day rules those out. */
  lemma DaysMiss(k: int, days: int, rest: int)
    requires k == 7 || k == 10 || k == 17 || k == 20
    requires -23592 <= rest <= 23592
    ensures days * 100000 + rest != k * WORD
  {
  }

  lemma NoLaterTwin(t: Minute, slot: nat, u: Minute, slot': nat, k: int)
    requires InCentury(t) && InCentury(u) && k >= 1
    ensures Digits(t, slot) - Digits(u, slot') != k * WORD
  {
    if Digits(t, slot) - Digits(u, slot') == k * WORD {
      DigitsSplit(t, slot);
      DigitsSplit(u, slot');
      YearsMiss(k, t.year - u.year, InYear(t, slot) - InYear(u, slot'));
      DaysMiss(k, (t.year - u.year) * 10000 + (t.month - u.month) * 100 + t.day - u.day,
        InDay(t, slot) - InDay(u, slot'));
    }
  }

  lemma DigitsAreInjective(t: Minute, slot: nat, u: Minute, slot': nat)
    requires InCentury(t) && InCentury(u) && slot < SLOTS && slot' < SLOTS
    requires Digits(t, slot) == Digits(u, slot')
    ensures t == u && slot == slot'
  {
    DigitsSplit(t, slot);
    DigitsSplit(u, slot');
    assert t.year == u.year;
  }

  /** Different dates, minutes or slots have different keys, although the digits overflow hundreds of times. */
  lemma {:induction false} KeysAreInjective(t: Minute, slot: nat, u: Minute, slot': nat)
    requires InCentury(t) && InCentury(u) && slot < SLOTS && slot' < SLOTS
    requires MakeStartKey(t, slot) == MakeStartKey(u, slot')
    ensures t == u && slot == slot'
  {
    KeyIsTruncatedDigits(t, slot);
    KeyIsTruncatedDigits(u, slot');
    var k := Digits(t, slot) / WORD - Digits(u, slot') / WORD;
    assert Digits(t, slot) - Digits(u, slot') == k * WORD;
    if k >= 1 {
      NoLaterTwin(t, slot, u, slot', k);
    } else if k <= -1 {
      NoLaterTwin(u, slot', t, slot, -k);
    } else {
      DigitsAreInjective(t, slot, u, slot');
    }
  }
}
