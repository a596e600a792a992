/** Log timestamps in the shape of section 5.6 of RFC 3339. */
module Timestamp {
  import opened CivilDate

  const NANOS: nat := 1_000_000_000
  const DAY: nat := 86400
  const YEAR_10000: nat := 253_402_300_800  // seconds from 1970 to the year 10000

  predicate IsDigit(c: char) {
    '0' <= c <= '9'
  }

  function Digit(n: nat): (c: char)
    requires n < 10
    ensures IsDigit(c) && c as int - '0' as int == n
  {
    ('0' as int + n) as char
  }

  function Decimal(n: nat): string {
    if n < 10 then [Digit(n)] else Decimal(n / 10) + [Digit(n % 10)]
  }

  function Zeros(k: nat): string {
    seq(k, _ => '0')
  }

  /** The number in decimal, with zeros in front up to a width; longer numbers keep their length. */
  function Padded(n: nat, width: nat): string {
    var decimal := Decimal(n);
    if |decimal| < width then Zeros(width - |decimal|) + decimal else decimal
  }

  datatype Fields = Fields(date: Date, hour: nat, minute: nat, second: nat, millis: nat)

  function Written(f: Fields): string
    requires f.date.year >= 0 && f.date.month >= 0 && f.date.day >= 0
  {
    Padded(f.date.year, 4) + "-" + Padded(f.date.month, 2) + "-" + Padded(f.date.day, 2) + "T"
      + Padded(f.hour, 2) + ":" + Padded(f.minute, 2) + ":" + Padded(f.second, 2)
      + "." + Padded(f.millis, 3) + "Z"
  }

  /** The time in nanoseconds relative to 1970; an earlier time counts as 1970. */
  function UtcTimestamp(time: int): string {
    var since := if time < 0 then 0 else time;
    var seconds := since / NANOS;
    var date := CivilFromDays(seconds / DAY);
    var ofDay := seconds % DAY;
    CivilIsThatDay(seconds / DAY);
    NotBefore1970(date);
    Written(Fields(date, ofDay / 3600, ofDay % 3600 / 60, ofDay % 60, since % NANOS / 1_000_000))
  }

  lemma NotBefore1970(date: Date)
    requires Valid(date) && DayNumber(date) >= 0
    ensures date.year >= 1970
  {
    if date.year < 1970 {
      MonthsOrdered(date.year, date.month, date.month);
      YearAfter(date.year);
      YearsOrdered(date.year + 1, 1970);
    }
  }

  lemma NotAfter9999(date: Date)
    requires Valid(date) && DayNumber(date) < YEAR_10000 / DAY
    ensures date.year <= 9999
  {
    if date.year > 9999 {
      DaysToMarch(10000);
      YearsOrdered(10000, date.year);
    }
  }

  // ---------------------------------------------------------------- reading

  /** The number a string of digits denotes. */
  function Number(s: string): nat
    requires forall i :: 0 <= i < |s| ==> IsDigit(s[i])
  {
    if |s| == 0 then 0
    else
      assert IsDigit(s[|s| - 1]);
      10 * Number(s[..|s| - 1]) + (s[|s| - 1] as int - '0' as int)
  }

  function Power(k: nat): nat {
    if k == 0 then 1 else 10 * Power(k - 1)
  }

  lemma {:induction false} DecimalReads(n: nat)
    ensures forall i :: 0 <= i < |Decimal(n)| ==> IsDigit(Decimal(n)[i])
    ensures |Decimal(n)| >= 1 && Number(Decimal(n)) == n
  {
    var s := Decimal(n);
    if n < 10 {
      assert s[..0] == "";
    } else {
      DecimalReads(n / 10);
      assert s[..|s| - 1] == Decimal(n / 10);
    }
  }

  lemma {:induction false} DecimalFits(n: nat, width: nat)
    requires width >= 1 && n < Power(width)
    ensures |Decimal(n)| <= width
  {
    if n >= 10 {
      assert Power(1) == 10;
      DecimalFits(n / 10, width - 1);
    }
  }

  lemma {:induction false} ZerosRead(k: nat, s: string)
    requires forall i :: 0 <= i < |s| ==> IsDigit(s[i])
    ensures forall i :: 0 <= i < k + |s| ==> IsDigit((Zeros(k) + s)[i])
    ensures Number(Zeros(k) + s) == Number(s)
    decreases k + |s|
  {
    var whole := Zeros(k) + s;
    if |s| > 0 {
      ZerosRead(k, s[..|s| - 1]);
      assert whole[..|whole| - 1] == Zeros(k) + s[..|s| - 1];
    } else if k > 0 {
      ZerosRead(k - 1, s);
      assert whole[..|whole| - 1] == Zeros(k - 1) + s;
    }
  }

  /** A number below the power of its width takes exactly that many digits and reads back. */
  lemma PaddedReads(n: nat, width: nat)
    requires width >= 1 && n < Power(width)
    ensures |Padded(n, width)| == width
    ensures forall i :: 0 <= i < width ==> IsDigit(Padded(n, width)[i])
    ensures Number(Padded(n, width)) == n
  {
    DecimalReads(n);
    DecimalFits(n, width);
    if |Decimal(n)| < width {
      ZerosRead(width - |Decimal(n)|, Decimal(n));
    }
  }

  /** The shape `YYYY-MM-DDThh:mm:ss.sssZ`. */
  predicate DateTime(s: string) {
    && |s| == 24
    && s[4] == '-' && s[7] == '-' && s[10] == 'T' && s[13] == ':' && s[16] == ':' && s[19] == '.' && s[23] == 'Z'
    && forall i :: 0 <= i < 24 && i !in {4, 7, 10, 13, 16, 19, 23} ==> IsDigit(s[i])
  }

  function Read(s: string): Fields
    requires DateTime(s)
  {
    Fields(Date(Number(s[0..4]), Number(s[5..7]), Number(s[8..10])),
           Number(s[11..13]), Number(s[14..16]), Number(s[17..19]), Number(s[20..23]))
  }

  predicate InRange(f: Fields) {
    Valid(f.date) && f.hour <= 23 && f.minute <= 59 && f.second <= 59 && f.millis <= 999
  }

  function Milliseconds(f: Fields): int
    requires InRange(f)
  {
    (((DayNumber(f.date) * 24 + f.hour) * 60 + f.minute) * 60 + f.second) * 1000 + f.millis
  }

  lemma Joined(year: string, month: string, day: string, hour: string, minute: string, second: string, millis: string)
    requires |year| == 4 && |month| == |day| == |hour| == |minute| == |second| == 2 && |millis| == 3
    requires forall i :: 0 <= i < 4 ==> IsDigit(year[i])
    requires forall i :: 0 <= i < 2 ==> IsDigit(month[i]) && IsDigit(day[i])
    requires forall i :: 0 <= i < 2 ==> IsDigit(hour[i]) && IsDigit(minute[i]) && IsDigit(second[i])
    requires forall i :: 0 <= i < 3 ==> IsDigit(millis[i])
    ensures var s := year + "-" + month + "-" + day + "T" + hour + ":" + minute + ":" + second + "." + millis + "Z";
            && DateTime(s)
            && s[0..4] == year && s[5..7] == month && s[8..10] == day
            && s[11..13] == hour && s[14..16] == minute && s[17..19] == second && s[20..23] == millis
  {
  }

  lemma WrittenReads(f: Fields)
    requires InRange(f) && 0 <= f.date.year <= 9999
    ensures DateTime(Written(f)) && Read(Written(f)) == f
  {
    hide Padded, Number, Valid, DateTime;
    assert Power(4) == 10000 && Power(3) == 1000 && Power(2) == 100;
    assert 1 <= f.date.month <= 12 && 1 <= f.date.day <= 31 by { DayInMonth(f.date); }
    PaddedReads(f.date.year, 4);
    PaddedReads(f.date.month, 2);
    PaddedReads(f.date.day, 2);
    PaddedReads(f.hour, 2);
    PaddedReads(f.minute, 2);
    PaddedReads(f.second, 2);
    PaddedReads(f.millis, 3);
    Joined(Padded(f.date.year, 4), Padded(f.date.month, 2), Padded(f.date.day, 2),
           Padded(f.hour, 2), Padded(f.minute, 2), Padded(f.second, 2), Padded(f.millis, 3));
  }

  lemma DayInMonth(date: Date)
    requires Valid(date)
    ensures 1 <= date.month <= 12 && 1 <= date.day <= 31
  {
  }

  /**
   For every time before the year 10000 the timestamp has the RFC 3339 shape, its fields are
   in range, and reading it back gives the time, to the millisecond.
   */
  lemma TimestampReadsBack(time: int)
    requires time < YEAR_10000 * NANOS
    ensures var s := UtcTimestamp(time);
            && DateTime(s) && InRange(Read(s))
            && Milliseconds(Read(s)) == (if time < 0 then 0 else time) / 1_000_000
  {
    hide Padded, CivilFromDays, DayNumber, Valid, DateTime, Read;
    var since := if time < 0 then 0 else time;
    var seconds := since / NANOS;
    var days, ofDay := seconds / DAY, seconds % DAY;
    var date := CivilFromDays(days);
    CivilIsThatDay(days);
    NotBefore1970(date);
    assert days < YEAR_10000 / DAY;
    NotAfter9999(date);
    var f := Fields(date, ofDay / 3600, ofDay % 3600 / 60, ofDay % 60, since % NANOS / 1_000_000);
    DayInMonth(date);
    WrittenReads(f);
    assert ((f.hour * 60) + f.minute) * 60 + f.second == ofDay;
  }
}
