/** Snapshot file names and what is read back from them (buildSnapshotFilename
    and its parsers in src/sd_store.cpp, parseSnapshotTimestamp and filesToExpire
    in lib/snapshot_storage). */
module SnapshotNames {
  import opened Common
  import opened Text
  import opened HttpDate

  /** Local time; strftime prints the year in four digits from 1000 on. */
  datatype Stamp = Stamp(year: nat, month: nat, day: nat, hour: nat, min: nat, sec: nat)

  predicate Printable(t: Stamp)
  {
    t.year < 10000 && t.month < 100 && t.day < 100 && t.hour < 100 && t.min < 100 && t.sec < 100
  }

  predicate Earlier(a: Stamp, b: Stamp)
  {
    a.year < b.year || (a.year == b.year
    && (a.month < b.month || (a.month == b.month
    && (a.day < b.day || (a.day == b.day
    && (a.hour < b.hour || (a.hour == b.hour
    && (a.min < b.min || (a.min == b.min && a.sec < b.sec)))))))))
  }

  /** <YYYYMMDD-HHMMSS>_<millis>_<source>.jpg */
  function Name(t: Stamp, millis: nat, source: string): string
    requires Printable(t)
  {
    Four(t.year)
    + (Two(t.month) + (Two(t.day) + ("-" + (Two(t.hour) + (Two(t.min) + (Two(t.sec) + Tail(millis, source)))))))
  }

  function Tail(millis: nat, source: string): string { "_" + (Digits(millis) + ("_" + (source + ".jpg"))) }

  // ---------- text order ----------

  lemma {:induction false} SamePrefix(p: string, a: string, b: string)
    ensures Less(p + a, p + b) <==> Less(a, b)
  {
    if p == "" {
      assert p + a == a && p + b == b;
    } else {
      assert (p + a)[1..] == p[1..] + a && (p + b)[1..] == p[1..] + b;
      SamePrefix(p[1..], a, b);
    }
  }

  lemma FirstDiffers(p: string, x: char, y: char, a: string, b: string)
    requires x < y
    ensures Less(p + ([x] + a), p + ([y] + b)) && !Less(p + ([y] + b), p + ([x] + a))
  {
    SamePrefix(p, [x] + a, [y] + b);
    SamePrefix(p, [y] + b, [x] + a);
  }

  /** Numbers of the same width are ordered as text the way they are as numbers. */
  lemma TwoOrder(m: nat, n: nat, a: string, b: string)
    requires m < n < 100
    ensures Less(Two(m) + a, Two(n) + b)
  {
    var p, q := DigitChar(m / 10), DigitChar(n / 10);
    if m / 10 < n / 10 {
      FirstDiffers("", p, q, [DigitChar(m % 10)] + a, [DigitChar(n % 10)] + b);
      assert Two(m) + a == "" + ([p] + ([DigitChar(m % 10)] + a));
      assert Two(n) + b == "" + ([q] + ([DigitChar(n % 10)] + b));
    } else {
      FirstDiffers([p], DigitChar(m % 10), DigitChar(n % 10), a, b);
      assert Two(m) + a == [p] + ([DigitChar(m % 10)] + a);
      assert Two(n) + b == [p] + ([DigitChar(n % 10)] + b);
    }
  }

  lemma FourSplit(n: nat, a: string)
    requires n < 10000
    ensures Four(n) + a == Two(n / 100) + (Two(n % 100) + a)
  {
    PairsOfDigits(n);
    hide DigitChar;
    assert Four(n) == Two(n / 100) + Two(n % 100);
  }

  lemma PairsOfDigits(n: nat)
    ensures n / 1000 == n / 100 / 10 && n % 100 / 10 == n / 10 % 10 && n % 100 % 10 == n % 10
  {
    var tens, hundreds := n / 10, n / 100;
    assert n == 10 * tens + n % 10;
    assert tens == 10 * hundreds + tens % 10;
    assert hundreds == 10 * (hundreds / 10) + hundreds % 10;
    assert n % 100 == 10 * (tens % 10) + n % 10;
  }

  lemma FourOrder(m: nat, n: nat, a: string, b: string)
    requires m < n < 10000
    ensures Less(Four(m) + a, Four(n) + b)
  {
    FourSplit(m, a);
    FourSplit(n, b);
    hide Four, Two, Less;
    if m / 100 < n / 100 {
      TwoOrder(m / 100, n / 100, Two(m % 100) + a, Two(n % 100) + b);
    } else {
      SamePrefix(Two(m / 100), Two(m % 100) + a, Two(n % 100) + b);
      TwoOrder(m % 100, n % 100, a, b);
    }
  }

  /** Name order is capture order whenever the local seconds differ. */
  lemma EarlierSortsFirst(s: Stamp, t: Stamp, ms: nat, mt: nat, ls: string, lt: string)
    requires Printable(s) && Printable(t) && Earlier(s, t)
    ensures Less(Name(s, ms, ls), Name(t, mt, lt))
  {
    var a6, b6 := Tail(ms, ls), Tail(mt, lt);
    var a5, b5 := Two(s.sec) + a6, Two(t.sec) + b6;
    var a4, b4 := Two(s.min) + a5, Two(t.min) + b5;
    var a3, b3 := "-" + (Two(s.hour) + a4), "-" + (Two(t.hour) + b4);
    var a2, b2 := Two(s.day) + a3, Two(t.day) + b3;
    var a1, b1 := Two(s.month) + a2, Two(t.month) + b2;
    hide Less, Two, Four;
    if s.year < t.year {
      FourOrder(s.year, t.year, a1, b1);
    } else {
      SamePrefix(Four(s.year), a1, b1);
      if s.month < t.month {
        TwoOrder(s.month, t.month, a2, b2);
      } else {
        SamePrefix(Two(s.month), a2, b2);
        if s.day < t.day {
          TwoOrder(s.day, t.day, a3, b3);
        } else {
          SamePrefix(Two(s.day), a3, b3);
          SamePrefix("-", Two(s.hour) + a4, Two(t.hour) + b4);
          TimeOrder(s, t, a6, b6);
        }
      }
    }
  }

  lemma TimeOrder(s: Stamp, t: Stamp, a6: string, b6: string)
    requires Printable(s) && Printable(t) && Earlier(s, t)
    requires s.year == t.year && s.month == t.month && s.day == t.day
    ensures Less(Two(s.hour) + (Two(s.min) + (Two(s.sec) + a6)), Two(t.hour) + (Two(t.min) + (Two(t.sec) + b6)))
  {
    var a5, b5 := Two(s.sec) + a6, Two(t.sec) + b6;
    hide Less, Two;
    if s.hour < t.hour {
      TwoOrder(s.hour, t.hour, Two(s.min) + a5, Two(t.min) + b5);
    } else {
      SamePrefix(Two(s.hour), Two(s.min) + a5, Two(t.min) + b5);
      if s.min < t.min {
        TwoOrder(s.min, t.min, a5, b5);
      } else {
        SamePrefix(Two(s.min), a5, b5);
        TwoOrder(s.sec, t.sec, a6, b6);
      }
    }
  }

  // ---------- within one second ----------

  lemma {:induction false} DigitsOrder(m: nat, n: nat, a: string, b: string)
    requires m < n && |Digits(m)| == |Digits(n)|
    ensures Less(Digits(m) + a, Digits(n) + b)
    decreases n
  {
    var c, d := DigitChar(m % 10), DigitChar(n % 10);
    if n < 10 {
      FirstDiffers("", c, d, a, b);
      assert Digits(m) + a == "" + ([c] + a) && Digits(n) + b == "" + ([d] + b);
    } else {
      assert m >= 10;
      assert Digits(m) + a == Digits(m / 10) + ([c] + a);
      assert Digits(n) + b == Digits(n / 10) + ([d] + b);
      if m / 10 < n / 10 {
        DigitsOrder(m / 10, n / 10, [c] + a, [d] + b);
      } else {
        FirstDiffers(Digits(m / 10), c, d, a, b);
      }
    }
  }

  function Pow10(k: nat): (p: nat)
    ensures p > 0
  {
    if k == 0 then 1 else 10 * Pow10(k - 1)
  }

  /** The digit count brackets the number, and the leading digit is what the
      power of ten leaves. */
  lemma {:induction false} LeadingDigit(n: nat)
    requires n > 0
    ensures var k := |Digits(n)|;
            Pow10(k - 1) <= n < Pow10(k) && n / Pow10(k - 1) < 10 && Digits(n)[0] == DigitChar(n / Pow10(k - 1))
  {
    if n >= 10 {
      LeadingDigit(n / 10);
      var k := |Digits(n / 10)|;
      assert |Digits(n)| == k + 1 && Digits(n)[0] == Digits(n / 10)[0];
      NestedDivision(n, Pow10(k - 1));
    }
  }

  lemma NestedDivision(n: nat, p: nat)
    requires p > 0
    ensures n / (10 * p) == n / 10 / p
  {
    var q, r := n / 10 / p, n / 10 % p;
    assert n / 10 == q * p + r;
    var s := 10 * r + n % 10;
    assert n == q * (10 * p) + s && 0 <= s < 10 * p;
    Divides(n, 10 * p, q, s);
  }

  lemma Divides(n: nat, d: nat, q: nat, r: nat)
    requires d > 0 && n == q * d + r && r < d
    ensures n / d == q
  {
    var k := n / d;
    assert k * d <= n < k * d + d;
    if k < q { Multiples(k + 1, q, d); }
    if k > q { Multiples(q + 1, k, d); }
  }

  lemma Multiples(a: nat, b: nat, d: nat)
    requires a <= b
    ensures a * d <= b * d
  {
  }

  lemma {:induction false} Pow10Monotone(i: nat, j: nat)
    requires i <= j
    ensures Pow10(i) <= Pow10(j)
  {
    if i < j { Pow10Monotone(i, j - 1); }
  }

  /** More digits within the same second: the smaller number starts with 9, the
      larger with 1. */
  lemma CrossingPower(m: nat, n: nat)
    requires 1000 <= m < n < m + 1000 && |Digits(m)| != |Digits(n)|
    ensures Digits(m)[0] == '9' && Digits(n)[0] == '1'
  {
    LeadingDigit(m);
    LeadingDigit(n);
    var k, l := |Digits(m)|, |Digits(n)|;
    if k > l { Pow10Monotone(l, k - 1); }
    if l > k { Pow10Monotone(k, l - 1); }
    var p := Pow10(k - 1);
    if k < 4 { Pow10Monotone(k, 3); }
    Pow10Monotone(3, k - 1);
    assert Pow10(k) == 10 * p && p >= 1000;
    assert 9 * p <= m < 10 * p <= n < 11 * p;
    Divides(m, p, 9, m - 9 * p);
    if l > k + 1 { Pow10Monotone(k + 1, l - 1); }
    assert l == k + 1;
    Divides(n, 10 * p, 1, n - 10 * p);
  }

  /** Within one local second (on a clock past its first second and not
      wrapping in between) names sort in capture order exactly when the two
      millis() readings have the same number of digits: they are not padded. */
  lemma SameSecond(t: Stamp, m: nat, n: nat, lm: string, ln: string)
    requires Printable(t) && 1000 <= m < n < m + 1000
    ensures Less(Name(t, m, lm), Name(t, n, ln)) <==> |Digits(m)| == |Digits(n)|
  {
    SamePrefix(Four(t.year) + Two(t.month) + Two(t.day) + "-" + Two(t.hour) + Two(t.min) + Two(t.sec) + "_",
               Digits(m) + ("_" + (lm + ".jpg")), Digits(n) + ("_" + (ln + ".jpg")));
    NameSplit(t, m, lm);
    NameSplit(t, n, ln);
    var a, b := "_" + (lm + ".jpg"), "_" + (ln + ".jpg");
    if |Digits(m)| == |Digits(n)| {
      DigitsOrder(m, n, a, b);
    } else {
      CrossingPower(m, n);
      assert (Digits(m) + a)[0] == '9' && (Digits(n) + b)[0] == '1';
    }
    hide Name;
  }

  lemma NameSplit(t: Stamp, m: nat, l: string)
    requires Printable(t)
    ensures Name(t, m, l)
         == Four(t.year) + Two(t.month) + Two(t.day) + "-" + Two(t.hour) + Two(t.min) + Two(t.sec) + "_"
            + (Digits(m) + ("_" + (l + ".jpg")))
  {
  }

  // ---------- reading names back ----------

  /** The time the name starts with, before mktime. */
  function ParseStamp(name: string): Option<Stamp>
  {
    if |name| < 15 || !AllDigits(name[..8]) || name[8] != '-' || !AllDigits(name[9..15]) then None
    else
      Some(Stamp(Read(name[..4]), Read(name[4..6]), Read(name[6..8]),
                 Read(name[9..11]), Read(name[11..13]), Read(name[13..15])))
  }

  function Read(s: string): nat { if ToInt(s) < 0 then 0 else ToInt(s) }

  lemma NameReadsBack(t: Stamp, millis: nat, source: string)
    requires Printable(t)
    ensures ParseStamp(Name(t, millis, source)) == Some(t)
  {
    var s := Name(t, millis, source);
    NameSlices(t, millis, source);
    assert s[..8] == Four(t.year) + (Two(t.month) + Two(t.day));
    assert s[9..15] == Two(t.hour) + (Two(t.min) + Two(t.sec));
    hide Name, ToInt;
    FourBack(t.year);
    TwoBack(t.month);
    TwoBack(t.day);
    TwoBack(t.hour);
    TwoBack(t.min);
    TwoBack(t.sec);
    hide Two, Four;
  }

  lemma NameSlices(t: Stamp, millis: nat, source: string)
    requires Printable(t)
    ensures var s := Name(t, millis, source);
            && |s| >= 15 && s[..4] == Four(t.year) && s[4..6] == Two(t.month) && s[6..8] == Two(t.day)
            && s[8] == '-' && s[9..11] == Two(t.hour) && s[11..13] == Two(t.min) && s[13..15] == Two(t.sec)
  {
    hide Two, Four, Tail;
  }

  // ---------- retention ----------

  /** mktime on the parsed fields; -1 when it fails. */
  function Taken(name: string, mktime: Stamp -> int): int
  {
    match ParseStamp(name)
    case None => -1
    case Some(t) => mktime(t)
  }

  predicate Expired(name: string, mktime: Stamp -> int, days: nat, now: int)
  {
    days != 0 && Taken(name, mktime) != -1 && Taken(name, mktime) < now - days * 86_400
  }

  function Expire(names: seq<string>, mktime: Stamp -> int, days: nat, now: int): seq<string>
  {
    if names == [] then []
    else
      var n := |names| - 1;
      Expire(names[..n], mktime, days, now) + if Expired(names[n], mktime, days, now) then [names[n]] else []
  }

  method FilesToExpire(names: seq<string>, mktime: Stamp -> int, days: nat, now: int) returns (result: seq<string>)
    ensures result == Expire(names, mktime, days, now)
  {
    result := [];
    if days == 0 {
      KeepForever(names, mktime, now);
      return;
    }
    var cutoff := now - days * 86_400;
    var i := 0;
    while i < |names|
      invariant 0 <= i <= |names| && result == Expire(names[..i], mktime, days, now)
    {
      var ts := Taken(names[i], mktime);
      assert names[..i + 1][..i] == names[..i];
      if ts != -1 && ts < cutoff { result := result + [names[i]]; }
      i := i + 1;
    }
    assert names[..i] == names;
  }

  lemma {:induction false} KeepForever(names: seq<string>, mktime: Stamp -> int, now: int)
    ensures Expire(names, mktime, 0, now) == []
  {
    if names != [] { KeepForever(names[..|names| - 1], mktime, now); }
  }

  /** A file the board wrote at local time t is due for deletion exactly when
      that time is more than the retention before now. */
  lemma WrittenFileExpires(t: Stamp, millis: nat, source: string, mktime: Stamp -> int, days: nat, now: int)
    requires Printable(t) && mktime(t) != -1
    ensures Expired(Name(t, millis, source), mktime, days, now)
       <==> days != 0 && mktime(t) < now - days * 86_400
  {
    NameReadsBack(t, millis, source);
  }
}
