/** Civil dates, the DS3231 clock's registers (lib/rtc_ds3231) and the calendar
    they are measured against. */
module Calendar {

  datatype Date = Date(year: int, month: nat, day: nat)

  // ---------- the Gregorian calendar, day by day ----------

  predicate Leap(y: int) { y % 4 == 0 && (y % 100 != 0 || y % 400 == 0) }

  function DaysIn(y: int, m: nat): nat
  {
    if m == 2 then (if Leap(y) then 29 else 28) else if m == 4 || m == 6 || m == 9 || m == 11 then 30 else 31
  }

  predicate Valid(d: Date) { 1 <= d.month <= 12 && 1 <= d.day <= DaysIn(d.year, d.month) }

  function NextDay(d: Date): (r: Date)
    requires Valid(d)
    ensures Valid(r)
  {
    if d.day < DaysIn(d.year, d.month) then d.(day := d.day + 1)
    else if d.month < 12 then Date(d.year, d.month + 1, 1)
    else Date(d.year + 1, 1, 1)
  }

  const EPOCH := Date(1970, 1, 1)

  /** The date n days after 1970-01-01, counted one by one. */
  function DayAfterEpoch(n: nat): (d: Date)
    ensures Valid(d)
  {
    if n == 0 then EPOCH else NextDay(DayAfterEpoch(n - 1))
  }

  // ---------- the closed form ----------

  /** C's division, which truncates toward zero. */
  function TruncDiv(a: int, b: int): int
    requires b > 0
  {
    if a >= 0 then a / b else -(-a / b)
  }

  function DaysFromCivil(d: Date): int
    requires 1 <= d.month <= 12 && 1 <= d.day
  {
    var y := d.year - if d.month <= 2 then 1 else 0;
    var era := TruncDiv(if y >= 0 then y else y - 399, 400);
    var yoe := y - era * 400;
    var doy := (153 * (d.month + if d.month > 2 then -3 else 9) + 2) / 5 + d.day - 1;
    var doe := yoe * 365 + yoe / 4 - yoe / 100 + doy;
    era * 146097 + doe - 719468
  }

  /** Days before the month in a year that starts in March. */
  function DayOfYear(m: nat, day: nat): int
    requires 1 <= m <= 12
  {
    (153 * (m + if m > 2 then -3 else 9) + 2) / 5 + day - 1
  }

  /** Days before the March-based year y, by the plain leap-year rule. */
  function YearStart(y: int): int { 365 * y + y / 4 - y / 100 + y / 400 }

  lemma EraIsFloor(y: int)
    ensures TruncDiv(if y >= 0 then y else y - 399, 400) == y / 400
  {
  }

  lemma CenturiesInEra(era: int, yoe: int)
    requires 0 <= yoe < 400
    ensures YearStart(era * 400 + yoe) == era * 146097 + yoe * 365 + yoe / 4 - yoe / 100
  {
    var y := era * 400 + yoe;
    assert y / 4 == era * 100 + yoe / 4;
    assert y / 100 == era * 4 + yoe / 100;
    assert y / 400 == era;
  }

  /** The era arithmetic is the plain rule. */
  lemma PlainRule(d: Date)
    requires 1 <= d.month <= 12 && 1 <= d.day
    ensures var y := d.year - if d.month <= 2 then 1 else 0;
            DaysFromCivil(d) == YearStart(y) + DayOfYear(d.month, d.day) - 719468
  {
    var y := d.year - if d.month <= 2 then 1 else 0;
    EraIsFloor(y);
    CenturiesInEra(y / 400, y % 400);
    hide YearStart, TruncDiv;
  }

  lemma LeapYearStart(y: int)
    ensures YearStart(y) == YearStart(y - 1) + 365 + if Leap(y) then 1 else 0
  {
    Quotient(y, 4);
    Quotient(y, 100);
    Quotient(y, 400);
  }

  lemma Quotient(y: int, k: nat)
    requires k == 4 || k == 100 || k == 400
    ensures y / k == (y - 1) / k + if y % k == 0 then 1 else 0
  {
  }

  lemma MonthLength(m: nat, y: int)
    requires 1 <= m <= 12 && m != 2
    ensures DayOfYear(if m < 12 then m + 1 else 1, 1) == DayOfYear(m, DaysIn(y, m)) + 1
  {
  }

  /** The next day's number is one more, in every year. */
  lemma NextDayIsOneMore(d: Date)
    requires Valid(d)
    ensures DaysFromCivil(NextDay(d)) == DaysFromCivil(d) + 1
  {
    hide YearStart, DaysFromCivil;
    PlainRule(d);
    PlainRule(NextDay(d));
    if d.day == DaysIn(d.year, d.month) {
      if d.month == 2 {
        LeapYearStart(d.year);
        assert DayOfYear(2, d.day) == 365 + (if Leap(d.year) then 1 else 0) - 1 && DayOfYear(3, 1) == 0;
      } else {
        MonthLength(d.month, d.year);
      }
      hide DayOfYear, Leap;
    } else {
      assert DayOfYear(d.month, d.day + 1) == DayOfYear(d.month, d.day) + 1;
    }
  }

  lemma EpochIsZero()
    ensures DaysFromCivil(EPOCH) == 0
  {
  }

  lemma {:induction false} NumberOfDay(n: nat)
    ensures DaysFromCivil(DayAfterEpoch(n)) == n
  {
    hide DaysFromCivil, NextDay;
    if n == 0 {
      EpochIsZero();
    } else {
      NumberOfDay(n - 1);
      NextDayIsOneMore(DayAfterEpoch(n - 1));
    }
  }

  function PreviousDay(d: Date): (r: Date)
    requires Valid(d)
    ensures Valid(r) && NextDay(r) == d
  {
    if d.day > 1 then d.(day := d.day - 1)
    else if d.month > 1 then Date(d.year, d.month - 1, DaysIn(d.year, d.month - 1))
    else Date(d.year - 1, 12, 31)
  }

  lemma NotBeforeEpoch(d: Date)
    requires Valid(d) && d.year >= 1970
    ensures DaysFromCivil(d) >= 0
    ensures DaysFromCivil(d) == 0 ==> d == EPOCH
  {
    PlainRule(d);
  }

  /** The closed form is the count of days, for every valid date from 1970 on. */
  lemma {:induction false} ClosedFormCountsDays(d: Date)
    requires Valid(d) && d.year >= 1970
    ensures DaysFromCivil(d) >= 0 && DayAfterEpoch(DaysFromCivil(d)) == d
    decreases DaysFromCivil(d) + 1
  {
    hide DaysFromCivil;
    NotBeforeEpoch(d);
    if d != EPOCH {
      NextDayIsOneMore(PreviousDay(d));
      ClosedFormCountsDays(PreviousDay(d));
    } else {
      NumberOfDay(0);
    }
  }

  // ---------- order ----------

  predicate DateBefore(a: Date, b: Date)
  {
    a.year < b.year || (a.year == b.year && (a.month < b.month || (a.month == b.month && a.day < b.day)))
  }

  function NextMonth(d: Date): Date { if d.month < 12 then Date(d.year, d.month + 1, 1) else Date(d.year + 1, 1, 1) }

  lemma LastOfMonth(d: Date)
    requires Valid(d)
    ensures DaysFromCivil(d) < DaysFromCivil(NextMonth(d))
  {
    var last := d.(day := DaysIn(d.year, d.month));
    NextDayIsOneMore(last);
    assert NextDay(last) == NextMonth(d);
    SameMonth(d, last);
  }

  lemma SameMonth(a: Date, b: Date)
    requires 1 <= a.month <= 12 && 1 <= a.day && b == a.(day := b.day) && 1 <= b.day
    ensures DaysFromCivil(b) - DaysFromCivil(a) == b.day - a.day
  {
  }

  /** Day numbers are strictly monotone over all valid dates, before 1970 too. */
  lemma {:induction false} LaterDateLarger(a: Date, b: Date)
    requires Valid(a) && Valid(b) && DateBefore(a, b)
    ensures DaysFromCivil(a) < DaysFromCivil(b)
    decreases b.year * 12 + b.month - a.year * 12 - a.month
  {
    hide DaysFromCivil;
    if a.year == b.year && a.month == b.month {
      SameMonth(a, b);
    } else {
      LastOfMonth(a);
      var first := NextMonth(a);
      if DateBefore(first, b) { LaterDateLarger(first, b); } else { assert first == b; }
    }
  }

  // ---------- times of day ----------

  /** struct tm: year counts from 1900, mon and wday from 0. */
  datatype Tm = Tm(sec: nat, min: nat, hour: nat, mday: nat, mon: nat, year: nat, wday: nat)

  function DateOf(t: Tm): Date { Date(t.year + 1900, t.mon + 1, t.mday) }

  predicate ValidTm(t: Tm)
  {
    Valid(DateOf(t)) && t.hour < 24 && t.min < 60 && t.sec < 60 && t.wday < 7
  }

  function SecondOfDay(t: Tm): nat { t.hour * 3600 + t.min * 60 + t.sec }

  function TimeGmUtc(t: Tm): int
    requires t.mon < 12 && 1 <= t.mday
  {
    DaysFromCivil(DateOf(t)) * 86400 + t.hour * 3600 + t.min * 60 + t.sec
  }

  predicate Before(a: Tm, b: Tm)
  {
    DateBefore(DateOf(a), DateOf(b)) || (DateOf(a) == DateOf(b) && SecondOfDay(a) < SecondOfDay(b))
  }

  /** timeGmUtc is strictly monotone on valid times, so it is one-to-one; a
      second more is an epoch second more. */
  lemma LaterTimeLarger(a: Tm, b: Tm)
    requires ValidTm(a) && ValidTm(b)
    ensures Before(a, b) <==> TimeGmUtc(a) < TimeGmUtc(b)
    ensures TimeGmUtc(a) == TimeGmUtc(b) <==> DateOf(a) == DateOf(b) && SecondOfDay(a) == SecondOfDay(b)
  {
    var x, y := DateOf(a), DateOf(b);
    if DateBefore(x, y) { LaterDateLarger(x, y); } else if DateBefore(y, x) { LaterDateLarger(y, x); }
    hide DaysFromCivil, Valid;
  }

  // ---------- DS3231 registers ----------

  type Byte = b: int | 0 <= b < 256

  datatype Registers = Registers(sec: Byte, min: Byte, hour: Byte, day: Byte, date: Byte, month: Byte, year: Byte)

  /** (uint8_t)((dec / 10 << 4) | dec % 10): the two digits share no bit. */
  function DecToBcd(dec: nat): Byte { (dec / 10 * 16 + dec % 10) % 256 }

  function BcdToDec(bcd: Byte): nat { bcd / 16 * 10 + bcd % 16 }

  /** b & (2^k - 1). */
  function Mask(b: Byte, size: nat): Byte
    requires size > 0
  {
    b % size
  }

  function Encode(t: Tm): Registers
  {
    Registers(Mask(DecToBcd(t.sec), 128), Mask(DecToBcd(t.min), 128), Mask(DecToBcd(t.hour), 64),
              t.wday % 7 + 1,
              Mask(DecToBcd(t.mday), 64), Mask(DecToBcd(t.mon + 1), 32), DecToBcd(t.year % 100))
  }

  /** tm_mon is -1 for a month register of 0. */
  function DecodedMonth(r: Registers): int { BcdToDec(Mask(r.month, 32)) - 1 }

  function Decode(r: Registers): Tm
    requires DecodedMonth(r) >= 0
  {
    Tm(BcdToDec(Mask(r.sec, 128)), BcdToDec(Mask(r.min, 128)), BcdToDec(Mask(r.hour, 64)),
       BcdToDec(Mask(r.date, 64)), DecodedMonth(r), BcdToDec(r.year) + 100,
       DecodedWeekday(r.day))
  }

  /** A two-digit number survives the registers that are wide enough for it. */
  lemma BcdRoundTrip(n: nat, size: nat)
    requires (n < 80 && size == 128) || (n < 40 && size == 64) || (n < 20 && size == 32)
    ensures BcdToDec(Mask(Mask(DecToBcd(n), size), size)) == n
  {
    var bcd := n / 10 * 16 + n % 10;
    assert DecToBcd(n) == bcd < size;
    assert Mask(bcd, size) == bcd;
    assert bcd / 16 == n / 10 && bcd % 16 == n % 10;
  }

  lemma BcdBack(n: nat)
    requires n < 100
    ensures BcdToDec(DecToBcd(n)) == n
  {
    var bcd := n / 10 * 16 + n % 10;
    assert DecToBcd(n) == bcd;
    assert bcd / 16 == n / 10 && bcd % 16 == n % 10;
  }

  lemma YearRoundTrip(year: nat)
    ensures BcdToDec(DecToBcd(year % 100)) + 100 == year <==> 100 <= year < 200
  {
    var n, century := year % 100, year / 100;
    BcdBack(n);
    hide DecToBcd, BcdToDec;
    assert year == 100 * century + n;
  }

  function DecodedWeekday(b: Byte): nat { (Mask(b, 8) - 1 + 7) % 7 }

  lemma WeekdayRoundTrip(wday: nat)
    requires wday < 7
    ensures DecodedWeekday(wday % 7 + 1) == wday
  {
  }

  /** The fields are two-digit numbers that fit their registers. */
  predicate Fits(t: Tm) { t.sec < 80 && t.min < 80 && t.hour < 40 && t.mday < 40 && t.mon < 19 && t.wday < 7 }

  lemma FieldsRoundTrip(t: Tm)
    requires Fits(t)
    ensures DecodedMonth(Encode(t)) == t.mon
    ensures Decode(Encode(t)) == t.(year := BcdToDec(DecToBcd(t.year % 100)) + 100)
  {
    hide BcdToDec, DecToBcd, Mask, DecodedWeekday;
    BcdRoundTrip(t.sec, 128);
    BcdRoundTrip(t.min, 128);
    BcdRoundTrip(t.hour, 64);
    BcdRoundTrip(t.mday, 64);
    BcdRoundTrip(t.mon + 1, 32);
    WeekdayRoundTrip(t.wday);
  }

  /** Writing a valid time to the chip and reading it back gives the same time
      exactly when its year is one of 2000 to 2099. */
  lemma Ds3231RoundTrip(t: Tm)
    requires ValidTm(t)
    ensures DecodedMonth(Encode(t)) == t.mon
    ensures Decode(Encode(t)) == t <==> 2000 <= t.year + 1900 <= 2099
  {
    assert Fits(t);
    FieldsRoundTrip(t);
    YearRoundTrip(t.year);
    hide Encode, Decode, DecodedMonth, BcdToDec, DecToBcd, Valid;
  }

  /** Only bits 7 and 6 of the hour register are masked. A chip in 12-hour mode
      marks PM in bit 5, which is read as twenty hours: from 4 PM on the
      decoded hour is out of range. */
  lemma TwelveHourModePm(r: Registers, h: nat)
    requires 1 <= h <= 12 && DecodedMonth(r) >= 0
    requires r.hour == 0x40 + 0x20 + DecToBcd(h)
    ensures Decode(r).hour == h + 20
    ensures Decode(r).hour < 24 <==> h <= 3
  {
    var bcd := h / 10 * 16 + h % 10;
    assert DecToBcd(h) == bcd < 32;
    assert Mask(r.hour, 64) == 32 + bcd;
    assert (32 + bcd) / 16 == 2 + h / 10 && (32 + bcd) % 16 == h % 10;
  }
}
