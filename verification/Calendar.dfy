/** The logger's iterative date arithmetic and the watering controller's closed weekday formula, against one
    linear scale of days and seconds. */
module Calendar {
  import opened Clock

  /** `Ds3231Mz::DateTime`; day_of_week 1 is Sunday. */
  datatype DateTime = DateTime(year: nat, month: nat, day: nat, day_of_week: nat, hour: nat, minute: nat, second: nat)

  const DAY := 86400

  predicate IsLeap(year: nat) {
    year % 4 == 0 && (year % 100 != 0 || year % 400 == 0)
  }

  function DaysInMonth(year: nat, month: nat): (n: nat)
    ensures 28 <= n <= 31
  {
    match month
    case 4 => 30
    case 6 => 30
    case 9 => 30
    case 11 => 30
    case 2 => if IsLeap(year) then 29 else 28
    case _ => 31
  }

  predicate ValidDate(year: nat, month: nat, day: nat) {
    year >= 1 && 1 <= month <= 12 && 1 <= day <= DaysInMonth(year, month)
  }

  /** Times the RTC can report, with room for a century and a half before the 16-bit year runs out. */
  predicate Valid(t: DateTime) {
    ValidDate(t.year, t.month, t.day) && t.year < 65000 && t.hour < 24 && t.minute < 60 && t.second < 60
  }

  // ----- the linear scale

  function LeapsThrough(year: nat): int {
    year / 4 - year / 100 + year / 400
  }

  /** Days from the start of year 1 to the start of `year`. */
  function DaysBeforeYear(year: nat): int
    requires year >= 1
  {
    365 * (year - 1) + LeapsThrough(year - 1)
  }

  function DaysBeforeMonth(year: nat, month: nat): nat
    requires 1 <= month <= 13
  {
    if month == 1 then 0 else DaysBeforeMonth(year, month - 1) + DaysInMonth(year, month - 1)
  }

  function DayNumber(year: nat, month: nat, day: nat): int
    requires year >= 1 && 1 <= month <= 12
  {
    DaysBeforeYear(year) + DaysBeforeMonth(year, month) + day
  }

  function SecondOfDay(t: DateTime): nat {
    t.hour * 3600 + t.minute * 60 + t.second
  }

  function Seconds(t: DateTime): int
    requires Valid(t)
  {
    DayNumber(t.year, t.month, t.day) * DAY + SecondOfDay(t)
  }

  function YearLength(year: nat): nat { if IsLeap(year) then 366 else 365 }

  lemma YearFollows(year: nat)
    requires year >= 1
    ensures DaysBeforeYear(year + 1) == DaysBeforeYear(year) + YearLength(year)
  {
    LeapsFollow(year);
  }

  lemma LeapsFollow(year: nat)
    requires year >= 1
    ensures LeapsThrough(year) == LeapsThrough(year - 1) + if IsLeap(year) then 1 else 0
  {
    FourthsFollow(year);
    CenturiesFollow(year);
    if year % 100 == 0 { CenturiesAreFourths(year); }
    FourCenturiesFollow(year);
  }

  lemma FourthsFollow(x: nat)
    requires x >= 1
    ensures x / 4 == (x - 1) / 4 + if x % 4 == 0 then 1 else 0
  {
  }

  lemma CenturiesFollow(x: nat)
    requires x >= 1
    ensures x / 100 == (x - 1) / 100 + if x % 100 == 0 then 1 else 0
  {
  }

  lemma CenturiesAreFourths(x: nat)
    requires x % 100 == 0
    ensures x % 4 == 0
  {
    HundredsAreFourths(x / 100);
  }

  lemma HundredsAreFourths(q: nat)
    ensures 100 * q % 4 == 0
  {
    var f := 25 * q;
    assert 4 * f % 4 == 0;
  }

  lemma FourCenturiesFollow(x: nat)
    requires x >= 1
    ensures x / 400 == (x - 1) / 400 + if x % 400 == 0 then 1 else 0
    ensures x % 400 == 0 ==> x % 100 == 0
  {
    assert x == 400 * (x / 400) + x % 400;
    if x % 400 == 0 { assert x == 100 * (4 * (x / 400)); }
  }

  lemma YearEnds(year: nat)
    ensures DaysBeforeMonth(year, 13) == YearLength(year)
  {
    MonthTable(year, 13);
  }

  /** The cumulative month lengths. */
  function Table(month: nat): nat
    requires 1 <= month <= 13
  {
    [0, 31, 59, 90, 120, 151, 181, 212, 243, 273, 304, 334, 365][month - 1]
  }

  lemma {:induction false} MonthTable(year: nat, month: nat)
    requires 1 <= month <= 13
    ensures DaysBeforeMonth(year, month) == Table(month) + if month > 2 && IsLeap(year) then 1 else 0
  {
    if month <= 1 {
    } else {
      MonthTable(year, month - 1);
    }
  }

  // ----- one day

  /** One turn of the carry loop. */
  function NextDay(t: DateTime): DateTime {
    var dow := if 1 <= t.day_of_week <= 7 then t.day_of_week % 7 + 1 else t.day_of_week;
    var u := t.(day_of_week := dow);
    if t.day < DaysInMonth(t.year, t.month) then u.(day := t.day + 1)
    else if t.month < 12 then u.(day := 1, month := t.month + 1)
    else u.(day := 1, month := 1, year := t.year + 1)
  }

  lemma {:induction false} NextDayIsNext(t: DateTime)
    requires ValidDate(t.year, t.month, t.day)
    ensures var u := NextDay(t);
      ValidDate(u.year, u.month, u.day) && DayNumber(u.year, u.month, u.day) == DayNumber(t.year, t.month, t.day) + 1
  {
    if t.day == DaysInMonth(t.year, t.month) && t.month == 12 {
      YearFollows(t.year);
      YearEnds(t.year);
    }
  }

  // ----- the weekday

  /** `calcDow_`. */
  function CalcDow(y: nat, m: nat, d: nat): (dow: nat)
    requires y >= 1 && 1 <= m <= 12
    ensures 1 <= dow <= 7
  {
    var t := [0, 3, 2, 5, 0, 3, 5, 1, 4, 6, 2, 4];
    var y' := if m < 3 then y - 1 else y;
    (y' + y' / 4 - y' / 100 + y' / 400 + t[m - 1] + d) % 7 + 1
  }

  /** The formula is the day number modulo seven: 1 January of year 1 was a Monday. */
  lemma {:induction false} CalcDowIsLinear(y: nat, m: nat, d: nat)
    requires ValidDate(y, m, d)
    ensures CalcDow(y, m, d) == DayNumber(y, m, d) % 7 + 1
  {
    MonthTable(y, m);
    LeapsFollow(y);
    var t := [0, 3, 2, 5, 0, 3, 5, 1, 4, 6, 2, 4];
    var y' := if m < 3 then y - 1 else y;
    var sum := y' + LeapsThrough(y') + t[m - 1] + d;
    assert DayNumber(y, m, d) - sum == 364 * (y - 1) + Table(m) - t[m - 1] - (if m < 3 then 0 else 1);
    assert (Table(m) - t[m - 1] - (if m < 3 then 0 else 1)) % 7 == 0 by { MonthOffsets(m); }
    var q := (Table(m) - t[m - 1] - (if m < 3 then 0 else 1)) / 7;
    SevenShift(sum, 52 * (y - 1) + q);
  }

  lemma MonthOffsets(m: nat)
    requires 1 <= m <= 12
    ensures (Table(m) - [0, 3, 2, 5, 0, 3, 5, 1, 4, 6, 2, 4][m - 1] - (if m < 3 then 0 else 1)) % 7 == 0
  {
    if m == 1 {} else if m == 2 {} else if m == 3 {} else if m == 4 {} else if m == 5 {} else if m == 6 {}
    else if m == 7 {} else if m == 8 {} else if m == 9 {} else if m == 10 {} else if m == 11 {} else {}
  }

  lemma SevenShift(x: int, q: int)
    ensures (x + 7 * q) % 7 == x % 7
  {
  }

  predicate KnowsItsWeekday(t: DateTime)
    requires Valid(t)
  {
    t.day_of_week == CalcDow(t.year, t.month, t.day)
  }

  /** The weekday `n` days later; a value outside 1..7 stays as it is. */
  function DowAfter(dow: nat, n: nat): nat {
    if 1 <= dow <= 7 then (dow - 1 + n) % 7 + 1 else dow
  }

  // ----- advancing

  /** `r` is `t` moved forward by `delta` seconds. */
  predicate AdvancedBy(t: DateTime, delta: nat, r: DateTime) {
    && Valid(t)
    && ValidDate(r.year, r.month, r.day) && r.hour < 24 && r.minute < 60 && r.second < 60
    && DayNumber(r.year, r.month, r.day) * DAY + SecondOfDay(r) == Seconds(t) + delta
    && r.day_of_week == DowAfter(t.day_of_week, DayNumber(r.year, r.month, r.day) - DayNumber(t.year, t.month, t.day))
  }

  /** `advanceDateTime_`: right exactly as long as the second count does not overflow. */
  method AdvanceDateTime(start: DateTime, delta: nat) returns (t: DateTime)
    requires Valid(start) && delta < WORD
    ensures AdvancedBy(start, delta, t) <==> SecondOfDay(start) + delta < WORD
    ensures delta < WORD - DAY ==> AdvancedBy(start, delta, t)
    ensures ValidDate(t.year, t.month, t.day) && t.year < 65536
  {
    TimeOfDayIsInjective(start, start);
    var total := (SecondOfDay(start) + delta) % WORD;
    ghost var kept := total;
    var day_carry := total / DAY;
    total := total % DAY;
    t := start;
    t := t.(hour := total / 3600);
    total := total % 3600;
    t := t.(minute := total / 60, second := total % 60);
    ghost var mid := t;
    assert kept == day_carry * DAY + SecondOfDay(mid);
    t := CarryDays(t, day_carry);
    CarriedIsAdvanced(start, kept, mid, day_carry, t);
  }

  lemma CarriedIsAdvanced(start: DateTime, kept: nat, mid: DateTime, days: nat, t: DateTime)
    requires Valid(start) && days <= WORD / DAY
    requires mid == start.(hour := mid.hour, minute := mid.minute, second := mid.second)
    requires mid.hour < 24 && mid.minute < 60 && mid.second < 60
    requires kept == days * DAY + SecondOfDay(mid)
    requires t == DaysLater(mid, days)
    ensures ValidDate(t.year, t.month, t.day) && t.year < 65536
    ensures forall delta: nat :: AdvancedBy(start, delta, t) <==> SecondOfDay(start) + delta == kept
  {
    DaysLaterAdvances(mid, days);
    YearsBounded(start, t, days);
  }

  /** The carry loop. */
  method CarryDays(start: DateTime, days: nat) returns (t: DateTime)
    requires ValidDate(start.year, start.month, start.day)
    ensures t == DaysLater(start, days)
  {
    t := start;
    var day_carry := days;
    while day_carry > 0
      invariant 0 <= day_carry <= days && t == DaysLater(start, days - day_carry)
    {
      ghost var u := NextDay(t);
      var dim := DaysInMonth(t.year, t.month);
      if t.day < dim {
        t := t.(day := t.day + 1);
      } else {
        t := t.(day := 1);
        if t.month < 12 {
          t := t.(month := t.month + 1);
        } else {
          t := t.(month := 1);
          t := t.(year := t.year + 1);
        }
      }
      if 1 <= t.day_of_week <= 7 {
        t := t.(day_of_week := t.day_of_week % 7 + 1);
      }
      assert t == u;
      day_carry := day_carry - 1;
    }
  }

  function DaysLater(t: DateTime, n: nat): DateTime {
    if n == 0 then t else NextDay(DaysLater(t, n - 1))
  }

  predicate MovedByDays(t: DateTime, n: nat, u: DateTime)
    requires ValidDate(t.year, t.month, t.day)
  {
    && ValidDate(u.year, u.month, u.day)
    && DayNumber(u.year, u.month, u.day) == DayNumber(t.year, t.month, t.day) + n
    && u.day_of_week == DowAfter(t.day_of_week, n)
    && u.hour == t.hour && u.minute == t.minute && u.second == t.second
  }

  /** `n` turns of the loop move the date forward by exactly `n` days, the weekday with it. */
  lemma {:induction false} DaysLaterAdvances(t: DateTime, n: nat)
    requires ValidDate(t.year, t.month, t.day)
    ensures MovedByDays(t, n, DaysLater(t, n))
  {
    if n == 0 {
      DowFollows(t.day_of_week, 0);
    } else {
      DaysLaterAdvances(t, n - 1);
      OneMoreDay(t, n - 1, DaysLater(t, n - 1));
    }
  }

  lemma OneMoreDay(t: DateTime, n: nat, u: DateTime)
    requires ValidDate(t.year, t.month, t.day) && MovedByDays(t, n, u)
    ensures MovedByDays(t, n + 1, NextDay(u))
  {
    DowFollows(t.day_of_week, n);
    NextDayIsNext(u);
  }

  lemma DowFollows(dow: nat, n: nat)
    ensures DowAfter(dow, n + 1) == if 1 <= DowAfter(dow, n) <= 7 then DowAfter(dow, n) % 7 + 1 else DowAfter(dow, n)
    ensures DowAfter(dow, 0) == dow
  {
  }

  lemma YearsBounded(t: DateTime, r: DateTime, days: nat)
    requires Valid(t) && ValidDate(r.year, r.month, r.day) && days <= WORD / DAY
    requires DayNumber(r.year, r.month, r.day) == DayNumber(t.year, t.month, t.day) + days
    ensures r.year < 65536
  {
    if r.year >= 65536 {
      YearsApart(t.year + 1, r.year);
      EarlierInYear(t.year, t.month, t.day);
    }
  }

  lemma EarlierInYear(y: nat, m: nat, d: nat)
    requires ValidDate(y, m, d)
    ensures DaysBeforeYear(y) < DayNumber(y, m, d) <= DaysBeforeYear(y + 1)
  {
    YearFollows(y);
    MonthTable(y, m);
  }

  lemma {:induction false} YearsApart(y: nat, z: nat)
    requires 1 <= y && 1 <= z
    ensures y <= z ==> DaysBeforeYear(z) >= DaysBeforeYear(y) + 365 * (z - y)
    decreases z
  {
    if y >= z {
    } else {
      YearsApart(y, z - 1);
      YearFollows(z - 1);
    }
  }

  // ----- what advancing means

  lemma {:induction false} DayNumberIsInjective(y: nat, m: nat, d: nat, y': nat, m': nat, d': nat)
    requires ValidDate(y, m, d) && ValidDate(y', m', d')
    requires DayNumber(y, m, d) == DayNumber(y', m', d')
    ensures y == y' && m == m' && d == d'
  {
    EarlierInYear(y, m, d);
    EarlierInYear(y', m', d');
    YearsApart(y + 1, y');
    YearsApart(y' + 1, y);
    MonthsApart(y, m, m');
    MonthsApart(y, m', m);
  }

  lemma MonthsApart(y: nat, m: nat, m': nat)
    requires 1 <= m <= 12 && 1 <= m' <= 12
    ensures m < m' ==> DaysBeforeMonth(y, m) + DaysInMonth(y, m) <= DaysBeforeMonth(y, m')
    decreases m'
  {
    if m >= m' - 1 {
    } else {
      MonthsApart(y, m, m' - 1);
    }
  }

  lemma TimeOfDayIsInjective(t: DateTime, u: DateTime)
    requires t.hour < 24 && t.minute < 60 && t.second < 60 && u.hour < 24 && u.minute < 60 && u.second < 60
    ensures SecondOfDay(t) == SecondOfDay(u) ==> t.hour == u.hour && t.minute == u.minute && t.second == u.second
    ensures SecondOfDay(t) < DAY && SecondOfDay(u) < DAY
  {
  }

  /** The result of advancing is determined: there is only one such date and time. */
  lemma {:induction false} AdvanceIsUnique(t: DateTime, delta: nat, r: DateTime, r': DateTime)
    requires AdvancedBy(t, delta, r) && AdvancedBy(t, delta, r')
    ensures r == r'
  {
    var n, n' := DayNumber(r.year, r.month, r.day), DayNumber(r'.year, r'.month, r'.day);
    TimeOfDayIsInjective(r, r);
    TimeOfDayIsInjective(r', r');
    assert n == n' && SecondOfDay(r) == SecondOfDay(r');
    DayNumberIsInjective(r.year, r.month, r.day, r'.year, r'.month, r'.day);
    TimeOfDayIsInjective(r, r');
  }

  /** Advancing keeps the weekday right: the loop's counting agrees with the closed formula. */
  lemma {:induction false} WeekdayStaysRight(t: DateTime, delta: nat, r: DateTime)
    requires AdvancedBy(t, delta, r) && Valid(r) && KnowsItsWeekday(t)
    ensures KnowsItsWeekday(r)
  {
    CalcDowIsLinear(t.year, t.month, t.day);
    CalcDowIsLinear(r.year, r.month, r.day);
    var n := DayNumber(t.year, t.month, t.day);
    var k := DayNumber(r.year, r.month, r.day) - n;
    DowOfSum(t.day_of_week, n, k);
  }

  lemma DowOfSum(dow: nat, n: int, k: nat)
    requires dow == n % 7 + 1
    ensures DowAfter(dow, k) == (n + k) % 7 + 1
  {
    SevenShift(n % 7 + k, n / 7);
  }

  /** Advancing by `a` and then by `b` is advancing by `a + b`. */
  lemma {:induction false} AdvanceComposes(t: DateTime, a: nat, m: DateTime, b: nat, r: DateTime, r': DateTime)
    requires AdvancedBy(t, a, m) && AdvancedBy(m, b, r) && AdvancedBy(t, a + b, r')
    ensures r == r'
  {
    AdvanceChains(t, a, m, b, r);
    AdvanceIsUnique(t, a + b, r, r');
  }

  lemma AdvanceChains(t: DateTime, a: nat, m: DateTime, b: nat, r: DateTime)
    requires AdvancedBy(t, a, m) && AdvancedBy(m, b, r)
    ensures AdvancedBy(t, a + b, r)
  {
    var n, k, l := DayNumber(t.year, t.month, t.day), DayNumber(m.year, m.month, m.day),
      DayNumber(r.year, r.month, r.day);
    TimeOfDayIsInjective(t, m);
    TimeOfDayIsInjective(m, r);
    DowComposes(t.day_of_week, k - n, l - k);
  }

  lemma DowComposes(dow: nat, k: nat, l: nat)
    ensures DowAfter(DowAfter(dow, k), l) == DowAfter(dow, k + l)
  {
  }
}
