/** HTTP Date headers in the IMF-fixdate form, section 5.6.7 of RFC 9110
    (lib/http_date_parse). */
module HttpDate {
  import opened Common
  import opened Calendar
  import opened Text

  const MONTHS := ["Jan", "Feb", "Mar", "Apr", "May", "Jun", "Jul", "Aug", "Sep", "Oct", "Nov", "Dec"]

  predicate DigitsAt(s: string, from: nat, count: nat)
  {
    from + count <= |s| && AllDigits(s[from..from + count])
  }

  /** The month whose name is name, or 12. */
  function MonthIndex(name: string, from: nat): (m: nat)
    requires from <= 12
    ensures from <= m <= 12 && (m < 12 ==> MONTHS[m] == name)
    ensures forall k :: from <= k < 12 && MONTHS[k] == name ==> m < 12
    decreases 12 - from
  {
    if from == 12 || MONTHS[from] == name then from else MonthIndex(name, from + 1)
  }

  predicate Framed(s: string)
  {
    |s| == 29 && s[3] == ',' && s[4] == ' ' && s[7] == ' ' && s[11] == ' ' && s[16] == ' '
    && s[19] == ':' && s[22] == ':' && s[25] == ' ' && s[26..] == "GMT"
  }

  function Parse(s: string): Option<Tm>
  {
    if !Framed(s) || !DigitsAt(s, 5, 2) then None
    else
      var day := ToInt(s[5..7]);
      var month := MonthIndex(s[8..11], 0);
      if month == 12 || !DigitsAt(s, 12, 4) then None
      else
        var year := ToInt(s[12..16]);
        if !DigitsAt(s, 17, 2) || !DigitsAt(s, 20, 2) || !DigitsAt(s, 23, 2) then None
        else
          var hour, minute, second := ToInt(s[17..19]), ToInt(s[20..22]), ToInt(s[23..25]);
          if day < 1 || day > 31 || hour < 0 || hour > 23 || minute < 0 || minute > 59 || second < 0 || second > 60
          then None
          else if year < 1970 then None
          else Some(Tm(second, minute, hour, day, month, year - 1900, 0))
  }

  // ---------- the printed form ----------

  function Two(n: nat): (s: string)
    requires n < 100
    ensures |s| == 2 && AllDigits(s)
  {
    [DigitChar(n / 10), DigitChar(n % 10)]
  }

  function Four(n: nat): (s: string)
    requires n < 10000
    ensures |s| == 4 && AllDigits(s)
  {
    [DigitChar(n / 1000), DigitChar(n / 100 % 10), DigitChar(n / 10 % 10), DigitChar(n % 10)]
  }

  /** What parseHttpDate accepts: loose on the day of the month, a leap second allowed. */
  predicate Loose(t: Tm)
  {
    1 <= t.mday <= 31 && t.mon < 12 && 70 <= t.year < 8100 && t.hour < 24 && t.min < 60 && t.sec <= 60
  }

  /** day-name , SP day SP month SP year SP hour : minute : second SP GMT */
  function Fixdate(dayName: string, t: Tm): string
    requires Loose(t)
  {
    dayName + ", " + Two(t.mday) + " " + MONTHS[t.mon] + " " + Four(t.year + 1900)
    + " " + Two(t.hour) + ":" + Two(t.min) + ":" + Two(t.sec) + " GMT"
  }

  lemma ToIntFour(s: string)
    requires |s| == 4 && AllDigits(s)
    ensures ToInt(s)
         == DigitValue(s[0]) * 1000 + DigitValue(s[1]) * 100 + DigitValue(s[2]) * 10 + DigitValue(s[3])
  {
    var head := s[..2];
    assert s == head + s[2..];
    DigitRunConcat(head, s[2..], 0);
    assert head[1..][1..] == "" && s[2..][1..][1..] == "";
    var high := DigitRun(head, 0);
    assert high == DigitRun(head[1..], DigitValue(s[0])) == DigitValue(s[0]) * 10 + DigitValue(s[1]);
    var three := high * 10 + DigitValue(s[2]);
    assert DigitRun(s[2..], high) == DigitRun(s[2..][1..], three);
    assert DigitRun(s[2..][1..], three) == DigitRun("", three * 10 + DigitValue(s[3])) == three * 10 + DigitValue(s[3]);
    assert TrimLeft(s) == s;
  }

  lemma TwoOfDigits(a: nat, b: nat)
    requires a < 10 && b < 10
    ensures Two(a * 10 + b) == [DigitChar(a), DigitChar(b)]
  {
  }

  lemma FourOfDigits(a: nat, b: nat, c: nat, d: nat)
    requires a < 10 && b < 10 && c < 10 && d < 10
    ensures Four(a * 1000 + b * 100 + c * 10 + d) == [DigitChar(a), DigitChar(b), DigitChar(c), DigitChar(d)]
  {
    var n := a * 1000 + b * 100 + c * 10 + d;
    assert n / 1000 == a && n / 100 == a * 10 + b && n / 10 == a * 100 + b * 10 + c;
  }

  /** Reading digits and printing them are inverse, both ways. */
  lemma TwoBack(n: nat)
    requires n < 100
    ensures ToInt(Two(n)) == n
  {
    ToIntTwo(Two(n));
  }

  lemma TwoForth(s: string)
    requires |s| == 2 && AllDigits(s)
    ensures 0 <= ToInt(s) < 100 && Two(ToInt(s)) == s
  {
    ToIntTwo(s);
    TwoOfDigits(DigitValue(s[0]), DigitValue(s[1]));
    hide ToInt, DigitValue, Two, DigitChar;
  }

  lemma FourBack(n: nat)
    requires n < 10000
    ensures ToInt(Four(n)) == n
  {
    ToIntFour(Four(n));
    assert n / 10 == n / 100 * 10 + n / 10 % 10 && n / 100 == n / 1000 * 10 + n / 100 % 10;
    hide ToInt, DigitRun;
  }

  lemma FourForth(s: string)
    requires |s| == 4 && AllDigits(s)
    ensures 0 <= ToInt(s) < 10000 && Four(ToInt(s)) == s
  {
    ToIntFour(s);
    FourOfDigits(DigitValue(s[0]), DigitValue(s[1]), DigitValue(s[2]), DigitValue(s[3]));
    hide ToInt, DigitValue, Four, DigitChar;
  }

  predicate Layout(s: string, dayName: string, mday: string, mon: string, year: string,
                   hour: string, min: string, sec: string)
  {
    |dayName| == 3 && |mday| == 2 && |mon| == 3 && |year| == 4 && |hour| == 2 && |min| == 2 && |sec| == 2
    && s == dayName + ", " + mday + " " + mon + " " + year + " " + hour + ":" + min + ":" + sec + " GMT"
  }

  lemma LayoutSlices(s: string, dayName: string, mday: string, mon: string, year: string,
                     hour: string, min: string, sec: string)
    requires Layout(s, dayName, mday, mon, year, hour, min, sec)
    ensures Framed(s) && s[..3] == dayName && s[5..7] == mday && s[8..11] == mon && s[12..16] == year
    ensures s[17..19] == hour && s[20..22] == min && s[23..25] == sec
  {
    assert s[5] == mday[0] && s[6] == mday[1];
    assert s[8] == mon[0] && s[9] == mon[1] && s[10] == mon[2];
    assert s[12] == year[0] && s[13] == year[1] && s[14] == year[2] && s[15] == year[3];
    assert s[17] == hour[0] && s[18] == hour[1];
    assert s[20] == min[0] && s[21] == min[1];
    assert s[23] == sec[0] && s[24] == sec[1];
  }

  lemma FramedLayout(s: string)
    requires Framed(s)
    ensures Layout(s, s[..3], s[5..7], s[8..11], s[12..16], s[17..19], s[20..22], s[23..25])
  {
  }

  /** Every printed date is read back, under any three-letter day name. */
  lemma ParsePrinted(dayName: string, t: Tm)
    requires |dayName| == 3 && Loose(t)
    ensures Parse(Fixdate(dayName, t)) == Some(t.(wday := 0))
  {
    var s := Fixdate(dayName, t);
    LayoutSlices(s, dayName, Two(t.mday), MONTHS[t.mon], Four(t.year + 1900), Two(t.hour), Two(t.min), Two(t.sec));
    TwoBack(t.mday);
    FourBack(t.year + 1900);
    TwoBack(t.hour);
    TwoBack(t.min);
    TwoBack(t.sec);
    MonthNames(t.mon);
    hide ToInt, Two, Four, Framed, Fixdate;
  }

  lemma MonthNames(m: nat)
    requires m < 12
    ensures |MONTHS[m]| == 3 && MonthIndex(MONTHS[m], 0) == m
  {
    MonthIndexOf(m, 0);
  }

  lemma {:induction false} MonthIndexOf(m: nat, from: nat)
    requires from <= m < 12
    ensures MonthIndex(MONTHS[m], from) == m
    decreases m - from
  {
    if from < m { MonthIndexOf(m, from + 1); }
  }

  lemma ParsedFields(s: string)
    requires Parse(s).Some?
    ensures var t := Parse(s).value;
            && Framed(s) && Loose(t) && t.wday == 0 && MONTHS[t.mon] == s[8..11]
            && AllDigits(s[5..7]) && AllDigits(s[12..16])
            && AllDigits(s[17..19]) && AllDigits(s[20..22]) && AllDigits(s[23..25])
            && t.mday == ToInt(s[5..7]) && t.year + 1900 == ToInt(s[12..16])
            && t.hour == ToInt(s[17..19]) && t.min == ToInt(s[20..22]) && t.sec == ToInt(s[23..25])
  {
    FourForth(s[12..16]);
    hide ToInt, AllDigits;
  }

  /** Nothing else is accepted. */
  lemma ParsedIsPrinted(s: string)
    requires Parse(s).Some?
    ensures var t := Parse(s).value;
            Loose(t) && t.wday == 0 && |s| == 29 && s == Fixdate(s[..3], t)
  {
    ParsedFields(s);
    FramedLayout(s);
    hide ToInt, Two, Four, Framed, AllDigits, Parse;
    TwoForth(s[5..7]);
    FourForth(s[12..16]);
    TwoForth(s[17..19]);
    TwoForth(s[20..22]);
    TwoForth(s[23..25]);
  }

  /** A server's Date header sets the clock to the instant it prints, and the
      battery-backed clock gives that instant back for years 2000 to 2099. */
  lemma SameInstant(dayName: string, t: Tm)
    requires |dayName| == 3 && ValidTm(t) && Loose(t)
    ensures var u := t.(wday := 0);
            && Parse(Fixdate(dayName, t)) == Some(u) && TimeGmUtc(u) == TimeGmUtc(t)
            && DecodedMonth(Encode(u)) >= 0 && (Decode(Encode(u)) == u <==> 100 <= t.year < 200)
  {
    hide Encode, Decode, DecodedMonth, Valid, Parse, Fixdate;
    ParsePrinted(dayName, t);
    Ds3231RoundTrip(t.(wday := 0));
  }
}
