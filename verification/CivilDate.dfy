/** Calendar dates in the log: the fast conversion from a day number, against the leap rule. */
module CivilDate {

  datatype Date = Date(year: int, month: int, day: int)

  // ----------------------------------------------------- the calendar itself

  /** The rule of Appendix C of RFC 3339. */
  predicate Leap(year: int) {
    year % 4 == 0 && (year % 100 != 0 || year % 400 == 0)
  }

  function YearLength(year: int): nat {
    if Leap(year) then 366 else 365
  }

  function MonthLength(year: int, month: int): nat
    requires 1 <= month <= 12
  {
    if month == 2 then (if Leap(year) then 29 else 28)
    else if month == 4 || month == 6 || month == 9 || month == 11 then 30
    else 31
  }

  predicate Valid(date: Date) {
    1 <= date.month <= 12 && 1 <= date.day <= MonthLength(date.year, date.month)
  }

  /** Days from 1970-01-01 to the first day of a year, year by year. */
  function DaysToYear(year: int): int
    decreases if year < 1970 then 1970 - year else year - 1970
  {
    if year == 1970 then 0
    else if year > 1970 then DaysToYear(year - 1) + YearLength(year - 1)
    else DaysToYear(year + 1) - YearLength(year)
  }

  /** Days of a year before the first of a month, month by month. */
  function DaysToMonth(year: int, month: int): nat
    requires 1 <= month <= 12
  {
    if month == 1 then 0 else DaysToMonth(year, month - 1) + MonthLength(year, month - 1)
  }

  function DayNumber(date: Date): int
    requires Valid(date)
  {
    DaysToYear(date.year) + DaysToMonth(date.year, date.month) + date.day - 1
  }

  function NextDate(date: Date): Date
    requires Valid(date)
  {
    if date.day < MonthLength(date.year, date.month) then date.(day := date.day + 1)
    else if date.month < 12 then Date(date.year, date.month + 1, 1)
    else Date(date.year + 1, 1, 1)
  }

  // ------------------------------------------------------ the fast algorithm

  function YearOfEra(dayOfEra: int): int {
    (dayOfEra - dayOfEra / 1460 + dayOfEra / 36524 - dayOfEra / 146096) / 365
  }

  function DayOfYear(dayOfEra: int): int {
    var y := YearOfEra(dayOfEra);
    dayOfEra - (365 * y + y / 4 - y / 100)
  }

  /** Rust's `div_euclid` and `rem_euclid` are Dafny's `/` and `%`; no other dividend is negative. */
  function CivilFromDays(days: int): Date {
    var z := days + 719468;
    var era, dayOfEra := z / 146097, z % 146097;
    var yearOfEra, dayOfYear := YearOfEra(dayOfEra), DayOfYear(dayOfEra);
    var shifted := (5 * dayOfYear + 2) / 153;
    var day := dayOfYear - (153 * shifted + 2) / 5 + 1;
    var month := if shifted < 10 then shifted + 3 else shifted - 9;
    var year := yearOfEra + era * 400 + (if month <= 2 then 1 else 0);
    Date(year, month, day)
  }

  // ------------------------------------------------------------------ proofs

  /** Within 400 years: the year found, where it starts and when it has a 29 February. */
  lemma EraSplit(dayOfEra: int)
    requires 0 <= dayOfEra < 146097
    ensures 0 <= YearOfEra(dayOfEra) < 400
    ensures 0 <= DayOfYear(dayOfEra) <= 365
    ensures DayOfYear(dayOfEra) == 365 ==> Leap(YearOfEra(dayOfEra) + 1)
  {
    var c := if dayOfEra / 36524 > 3 then 3 else dayOfEra / 36524;
    var r := dayOfEra - 36524 * c;
    assert 0 <= r <= 36524 && (r == 36524 ==> c == 3);
    var q := r / 1461;
    var s := r - 1461 * q;
    assert 0 <= q <= 24 && 0 <= s <= 1460;
    assert q == 24 && s == 1460 ==> c == 3;
    var t := if s / 365 > 3 then 3 else s / 365;
    EraYear(dayOfEra, c, q, s, t);
    var y := 100 * c + 4 * q + t;
    assert y / 4 == 25 * c + q;
    assert y / 100 == c;
    assert DayOfYear(dayOfEra) == s - 365 * t;
    if s - 365 * t == 365 {
      assert s == 1460 && t == 3;
      assert y + 1 == 4 * (25 * c + q + 1);
      LeapEnd(c, q);
    }
  }

  lemma LeapEnd(c: int, q: int)
    requires 0 <= c <= 3 && 0 <= q <= 24 && (q == 24 ==> c == 3)
    ensures Leap(100 * c + 4 * q + 4)
  {
  }

  lemma EraYear(dayOfEra: int, c: int, q: int, s: int, t: int)
    requires 0 <= c <= 3 && 0 <= q <= 24 && 0 <= s <= 1460
    requires dayOfEra == 36524 * c + 1461 * q + s && dayOfEra < 146097
    requires c < 3 ==> dayOfEra < 36524 * (c + 1)
    requires t == if s / 365 > 3 then 3 else s / 365
    ensures YearOfEra(dayOfEra) == 100 * c + 4 * q + t
  {
    assert dayOfEra / 36524 - dayOfEra / 146096 == c;
    assert dayOfEra == 1460 * (25 * c + q) + (24 * c + q + s);
    var extra := (24 * c + q + s) / 1460;
    assert dayOfEra / 1460 == 25 * c + q + extra;
    assert extra == if 24 * c + q + s >= 1460 then 1 else 0;
    assert 0 <= s - 365 * t - extra < 365;
    assert dayOfEra - dayOfEra / 1460 + c == 365 * (100 * c + 4 * q + t) + (s - 365 * t - extra);
  }

  /** Days from 1 March to the first of a month, counting months from March. */
  function MonthStart(shifted: int): int {
    (153 * shifted + 2) / 5
  }

  lemma MonthSplit(dayOfYear: int)
    requires 0 <= dayOfYear <= 365
    ensures var shifted := (5 * dayOfYear + 2) / 153;
            && 0 <= shifted <= 11
            && MonthStart(shifted) <= dayOfYear
            && (shifted < 11 ==> dayOfYear < MonthStart(shifted + 1))
  {
  }

  lemma MonthTable(year: int, shifted: int)
    requires 0 <= shifted <= 11
    ensures shifted < 10 ==>
              && DaysToMonth(year, shifted + 3) == 59 + (if Leap(year) then 1 else 0) + MonthStart(shifted)
              && MonthLength(year, shifted + 3) == MonthStart(shifted + 1) - MonthStart(shifted)
    ensures shifted >= 10 ==> DaysToMonth(year, shifted - 9) == MonthStart(shifted) - 306
    ensures shifted == 10 ==> MonthLength(year, 1) == MonthStart(11) - MonthStart(10)
    ensures MonthStart(11) == 337
  {
    assert DaysToMonth(year, 1) == 0;
    assert DaysToMonth(year, 2) == 31;
    assert DaysToMonth(year, 3) == 59 + (if Leap(year) then 1 else 0);
    assert DaysToMonth(year, 4) == 90 + (if Leap(year) then 1 else 0);
    assert DaysToMonth(year, 5) == 120 + (if Leap(year) then 1 else 0);
    assert DaysToMonth(year, 6) == 151 + (if Leap(year) then 1 else 0);
    assert DaysToMonth(year, 7) == 181 + (if Leap(year) then 1 else 0);
    assert DaysToMonth(year, 8) == 212 + (if Leap(year) then 1 else 0);
    assert DaysToMonth(year, 9) == 243 + (if Leap(year) then 1 else 0);
    assert DaysToMonth(year, 10) == 273 + (if Leap(year) then 1 else 0);
    assert DaysToMonth(year, 11) == 304 + (if Leap(year) then 1 else 0);
    assert DaysToMonth(year, 12) == 334 + (if Leap(year) then 1 else 0);
  }

  /** The closed form the algorithm inverts: where 1 March of a year lies. */
  function MarchFirst(year: int): int {
    365 * year + year / 4 - year / 100 + year / 400 - 719468
  }

  lemma LeapStep(year: int)
    ensures MarchFirst(year) - MarchFirst(year - 1) == 365 + (if Leap(year) then 1 else 0)
  {
    DivStep(year, 4);
    DivStep(year, 100);
    DivStep(year, 400);
    Multiples(year);
  }

  lemma Multiples(year: int)
    ensures year % 400 == 0 ==> year % 100 == 0
    ensures year % 100 == 0 ==> year % 4 == 0
  {
  }

  lemma DivStep(n: int, d: int)
    requires d == 4 || d == 100 || d == 400
    ensures n / d - (n - 1) / d == if n % d == 0 then 1 else 0
  {
  }

  lemma {:induction false} DaysToMarch(year: int)
    ensures DaysToYear(year) + 59 + (if Leap(year) then 1 else 0) == MarchFirst(year)
    decreases if year < 1970 then 1970 - year else year - 1970
  {
    if year > 1970 {
      DaysToMarch(year - 1);
      LeapStep(year);
    } else if year < 1970 {
      DaysToMarch(year + 1);
      LeapStep(year + 1);
    }
  }

  lemma EraMarch(era: int, y: int)
    requires 0 <= y < 400
    ensures MarchFirst(era * 400 + y) == 146097 * era + 365 * y + y / 4 - y / 100 - 719468
  {
    assert (era * 400 + y) / 400 == era;
    assert (era * 400 + y) / 100 == era * 4 + y / 100;
    assert (era * 400 + y) / 4 == era * 100 + y / 4;
  }

  lemma EraLeap(era: int, y: int)
    ensures Leap(era * 400 + y) == Leap(y)
  {
    WholeMultiple(100 * era, y, 4);
    WholeMultiple(4 * era, y, 100);
    WholeMultiple(era, y, 400);
  }

  lemma WholeMultiple(k: int, y: int, d: int)
    requires d == 4 || d == 100 || d == 400
    ensures (k * d + y) % d == y % d
  {
    var n := k * d + y;
    assert y == d * (y / d) + y % d;
    assert n == d * (k + y / d) + y % d;
  }

  /** The conversion gives a calendar date, and that date's day number is the input: any integer. */
  lemma CivilIsThatDay(days: int)
    ensures Valid(CivilFromDays(days)) && DayNumber(CivilFromDays(days)) == days
  {
    hide YearOfEra, DayOfYear, DaysToYear, Leap, DaysToMonth, MonthLength;
    var z := days + 719468;
    var era, dayOfEra := z / 146097, z % 146097;
    EraSplit(dayOfEra);
    var y, dayOfYear := YearOfEra(dayOfEra), DayOfYear(dayOfEra);
    DayOfYearIs(dayOfEra);
    MonthSplit(dayOfYear);
    var shifted := (5 * dayOfYear + 2) / 153;
    var march := era * 400 + y;
    EraMarch(era, y);
    DaysToMarch(march);
    assert days == MarchFirst(march) + dayOfYear;
    if shifted < 10 {
      MonthTable(march, shifted);
    } else {
      MonthTable(march + 1, shifted);
      YearAfter(march);
      EraLeap(era, y + 1);
      FebruaryEnd(march + 1);
    }
  }

  lemma DayOfYearIs(dayOfEra: int)
    ensures var y := YearOfEra(dayOfEra);
            DayOfYear(dayOfEra) == dayOfEra - (365 * y + y / 4 - y / 100)
  {
  }

  lemma FebruaryEnd(year: int)
    ensures MonthLength(year, 2) == if Leap(year) then 29 else 28
  {
  }

  lemma YearAfter(year: int)
    ensures DaysToYear(year + 1) == DaysToYear(year) + YearLength(year)
    ensures DaysToYear(year + 1) == MarchFirst(year) + 306
  {
    DaysToMarch(year);
  }

  lemma {:induction false} YearsOrdered(a: int, b: int)
    requires a <= b
    ensures DaysToYear(a) <= DaysToYear(b)
    decreases b - a
  {
    if a < b {
      YearAfter(b - 1);
      YearsOrdered(a, b - 1);
    }
  }

  lemma {:induction false} EarlierMonth(year: int, a: int, b: int)
    requires 1 <= a < b <= 12
    ensures DaysToMonth(year, a) + MonthLength(year, a) <= DaysToMonth(year, b)
    decreases b - a
  {
    if a < b - 1 {
      EarlierMonth(year, a, b - 1);
    }
  }

  lemma MonthsOrdered(year: int, a: int, b: int)
    requires 1 <= a <= b <= 12
    ensures a < b ==> DaysToMonth(year, a) + MonthLength(year, a) <= DaysToMonth(year, b)
    ensures DaysToMonth(year, b) + MonthLength(year, b) <= YearLength(year)
  {
    hide Leap;
    if a < b {
      EarlierMonth(year, a, b);
    }
    MonthTable(year, 9);
    if b < 12 {
      EarlierMonth(year, b, 12);
    }
  }

  /** No two calendar dates share a day number. */
  lemma DayNumberInjective(a: Date, b: Date)
    requires Valid(a) && Valid(b) && DayNumber(a) == DayNumber(b)
    ensures a == b
  {
    hide DaysToYear, DaysToMonth, MonthLength, YearLength;
    MonthsOrdered(a.year, a.month, a.month);
    MonthsOrdered(b.year, b.month, b.month);
    if a.year < b.year {
      YearAfter(a.year);
      YearsOrdered(a.year + 1, b.year);
    } else if b.year < a.year {
      YearAfter(b.year);
      YearsOrdered(b.year + 1, a.year);
    } else if a.month < b.month {
      MonthsOrdered(a.year, a.month, b.month);
    } else if b.month < a.month {
      MonthsOrdered(a.year, b.month, a.month);
    }
  }

  /** The other direction: every calendar date is found again from its day number. */
  lemma DayIsThatCivil(date: Date)
    requires Valid(date)
    ensures CivilFromDays(DayNumber(date)) == date
  {
    hide CivilFromDays, DayNumber, Valid;
    CivilIsThatDay(DayNumber(date));
    DayNumberInjective(CivilFromDays(DayNumber(date)), date);
  }

  lemma NextDateCounts(date: Date)
    requires Valid(date)
    ensures Valid(NextDate(date)) && DayNumber(NextDate(date)) == DayNumber(date) + 1
  {
    hide DaysToYear;
    YearAfter(date.year);
    MonthTable(date.year, 9);
  }

  /** The next day number is the next date of the calendar, across months, years and leap days. */
  lemma NextDayIsNextDate(days: int)
    ensures Valid(CivilFromDays(days)) && CivilFromDays(days + 1) == NextDate(CivilFromDays(days))
  {
    hide CivilFromDays, DayNumber, Valid, NextDate;
    CivilIsThatDay(days);
    NextDateCounts(CivilFromDays(days));
    DayIsThatCivil(NextDate(CivilFromDays(days)));
  }

  /** The count starts at 1 January 1970. */
  lemma Epoch()
    ensures CivilFromDays(0) == Date(1970, 1, 1)
  {
    assert Valid(Date(1970, 1, 1)) && DayNumber(Date(1970, 1, 1)) == 0;
    DayIsThatCivil(Date(1970, 1, 1));
  }
}
