/** The parts of Arduino's String and of the C library that the firmware's
    printers and parsers rely on. One char stands for one byte. */
module Text {

  // ---------- separated text ----------

  /** The pieces of s between occurrences of sep; "" gives one empty piece. */
  function Split(s: string, sep: char): (pieces: seq<string>)
    ensures |pieces| >= 1
    ensures forall i :: 0 <= i < |pieces| ==> sep !in pieces[i]
  {
    if s == "" then [""]
    else
      var rest := Split(s[1..], sep);
      if s[0] == sep then [""] + rest else [[s[0]] + rest[0]] + rest[1..]
  }

  function Join(pieces: seq<string>, sep: char): string
  {
    if pieces == [] then ""
    else if |pieces| == 1 then pieces[0]
    else pieces[0] + [sep] + Join(pieces[1..], sep)
  }

  /** Every piece followed by sep. */
  function Terminated(pieces: seq<string>, sep: char): string
  {
    if pieces == [] then "" else pieces[0] + [sep] + Terminated(pieces[1..], sep)
  }

  lemma {:induction false} SplitUnseparated(s: string, sep: char)
    requires sep !in s
    ensures Split(s, sep) == [s]
  {
    if s != "" {
      SplitUnseparated(s[1..], sep);
      assert [s[0]] + s[1..] == s;
    }
  }

  lemma {:induction false} SplitAtSeparator(a: string, sep: char, b: string)
    requires sep !in a
    ensures Split(a + [sep] + b, sep) == [a] + Split(b, sep)
  {
    var s := a + [sep] + b;
    if a == "" {
      assert s[1..] == b;
    } else {
      SplitAtSeparator(a[1..], sep, b);
      assert s[1..] == a[1..] + [sep] + b;
      assert [a[0]] + a[1..] == a;
    }
  }

  lemma JoinThree(a: string, b: string, c: string, sep: char)
    ensures Join([a, b, c], sep) == a + [sep] + b + [sep] + c
  {
    assert [a, b, c][1..] == [b, c] && [b, c][1..] == [c];
    assert Join([b, c], sep) == b + [sep] + Join([c], sep) == b + [sep] + c;
    assert a + [sep] + (b + [sep] + c) == a + [sep] + b + [sep] + c;
  }

  /** Splitting undoes joining, provided no piece holds the separator. */
  lemma {:induction false} SplitJoin(pieces: seq<string>, sep: char)
    requires pieces != [] && forall i :: 0 <= i < |pieces| ==> sep !in pieces[i]
    ensures Split(Join(pieces, sep), sep) == pieces
  {
    if |pieces| == 1 {
      SplitUnseparated(pieces[0], sep);
    } else {
      SplitJoin(pieces[1..], sep);
      SplitAtSeparator(pieces[0], sep, Join(pieces[1..], sep));
    }
  }

  lemma {:induction false} SplitTerminated(pieces: seq<string>, sep: char)
    requires forall i :: 0 <= i < |pieces| ==> sep !in pieces[i]
    ensures Split(Terminated(pieces, sep), sep) == pieces + [""]
  {
    if pieces != [] {
      SplitTerminated(pieces[1..], sep);
      SplitAtSeparator(pieces[0], sep, Terminated(pieces[1..], sep));
    }
  }

  lemma {:induction false} TerminatedConcat(a: seq<string>, b: seq<string>, sep: char)
    ensures Terminated(a + b, sep) == Terminated(a, sep) + Terminated(b, sep)
  {
    if a == [] {
      assert a + b == b;
    } else {
      assert (a + b)[1..] == a[1..] + b;
      TerminatedConcat(a[1..], b, sep);
    }
  }

  lemma {:induction false} JoinAppend(pieces: seq<string>, last: string, sep: char)
    requires pieces != []
    ensures Join(pieces + [last], sep) == Join(pieces, sep) + [sep] + last
  {
    if |pieces| > 1 {
      assert (pieces + [last])[1..] == pieces[1..] + [last];
      JoinAppend(pieces[1..], last, sep);
    }
  }

  lemma {:induction false} JoinFree(pieces: seq<string>, sep: char, c: char)
    requires c != sep && forall i :: 0 <= i < |pieces| ==> c !in pieces[i]
    ensures c !in Join(pieces, sep)
  {
    if |pieces| > 1 { JoinFree(pieces[1..], sep, c); }
  }

  lemma {:induction false} SplitFree(s: string, sep: char, c: char)
    requires c !in s
    ensures forall i :: 0 <= i < |Split(s, sep)| ==> c !in Split(s, sep)[i]
  {
    if s != "" { SplitFree(s[1..], sep, c); }
  }

  lemma SplitHere(record: string, sep: char, start: nat, i: nat)
    requires start <= i < |record| && record[i] == sep && sep !in record[start..i]
    ensures Split(record[start..], sep) == [record[start..i]] + Split(record[i + 1..], sep)
  {
    assert record[start..] == record[start..i] + [sep] + record[i + 1..];
    SplitAtSeparator(record[start..i], sep, record[i + 1..]);
  }

  lemma NotYet(record: string, sep: char, start: nat, i: nat)
    requires start <= i < |record| && record[i] != sep && sep !in record[start..i]
    ensures sep !in record[start..i + 1]
  {
    assert record[start..i + 1] == record[start..i] + [record[i]];
  }

  /** splitFields, splitFieldsBySep: one pass with a start index. */
  method SplitFields(record: string, sep: char) returns (fields: seq<string>)
    ensures fields == Split(record, sep)
  {
    hide Split;
    fields := [];
    var start, i := 0, 0;
    assert record[start..] == record;
    while i <= |record|
      invariant 0 <= start <= i <= |record| + 1
      invariant i <= |record| ==> sep !in record[start..i]
      invariant i <= |record| ==> Split(record, sep) == fields + Split(record[start..], sep)
      invariant i == |record| + 1 ==> fields == Split(record, sep)
    {
      if i == |record| {
        assert record[start..i] == record[start..];
        SplitUnseparated(record[start..], sep);
        fields := fields + [record[start..i]];
        start := i;
      } else if record[i] == sep {
        SplitHere(record, sep, start, i);
        fields := fields + [record[start..i]];
        start := i + 1;
      } else {
        NotYet(record, sep, start, i);
      }
      i := i + 1;
    }
  }

  function NonEmpty(pieces: seq<string>): (r: seq<string>)
    ensures forall i :: 0 <= i < |r| ==> r[i] in pieces && r[i] != ""
  {
    if pieces == [] then []
    else if pieces[0] == "" then NonEmpty(pieces[1..])
    else [pieces[0]] + NonEmpty(pieces[1..])
  }

  lemma {:induction false} NonEmptyConcat(a: seq<string>, b: seq<string>)
    ensures NonEmpty(a + b) == NonEmpty(a) + NonEmpty(b)
  {
    if a == [] {
      assert a + b == b;
    } else {
      assert (a + b)[1..] == a[1..] + b;
      NonEmptyConcat(a[1..], b);
    }
  }

  lemma {:induction false} NonEmptyAll(pieces: seq<string>)
    requires forall i :: 0 <= i < |pieces| ==> pieces[i] != ""
    ensures NonEmpty(pieces) == pieces
  {
    if pieces != [] { NonEmptyAll(pieces[1..]); }
  }

  /** String::replace(sep, ""). */
  function Strip(s: string, c: char): (r: string)
    ensures c !in r
    ensures |r| <= |s|
    ensures c !in s <==> r == s
    ensures forall x :: x in r ==> x in s
  {
    if s == "" then ""
    else if s[0] == c then Strip(s[1..], c)
    else [s[0]] + Strip(s[1..], c)
  }

  // ---------- letters ----------

  function LowerChar(c: char): char
  {
    if 'A' <= c <= 'Z' then (c as int + 32) as char else c
  }

  function Lower(s: string): (r: string)
    ensures |r| == |s|
  {
    seq(|s|, i requires 0 <= i < |s| => LowerChar(s[i]))
  }

  predicate EqualsIgnoreCase(a: string, b: string) { Lower(a) == Lower(b) }

  predicate IsDigit(c: char) { '0' <= c <= '9' }

  predicate IsSpace(c: char)
  {
    c == ' ' || c == '\t' || c == '\n' || c == '\U{0B}' || c == '\U{0C}' || c == '\r'
  }

  predicate AllDigits(s: string) { forall i :: 0 <= i < |s| ==> IsDigit(s[i]) }

  function TrimLeft(s: string): string
  {
    if s != "" && IsSpace(s[0]) then TrimLeft(s[1..]) else s
  }

  function TrimRight(s: string): string
  {
    if s != "" && IsSpace(s[|s| - 1]) then TrimRight(s[..|s| - 1]) else s
  }

  function Trim(s: string): string { TrimRight(TrimLeft(s)) }

  /** strcmp order, the order behind String's < and std::sort on names. */
  predicate Less(a: string, b: string)
  {
    b != "" && (a == "" || a[0] < b[0] || (a[0] == b[0] && Less(a[1..], b[1..])))
  }

  lemma {:induction false} LessTrichotomy(a: string, b: string)
    ensures Less(a, b) || a == b || Less(b, a)
    ensures !(Less(a, b) && Less(b, a)) && !Less(a, a)
  {
    if a != "" && b != "" && a[0] == b[0] {
      LessTrichotomy(a[1..], b[1..]);
      assert a == [a[0]] + a[1..] && b == [b[0]] + b[1..];
    }
    if a != "" { LessTrichotomy(a[1..], a[1..]); }
  }

  lemma {:induction false} LessTransitive(a: string, b: string, c: string)
    requires Less(a, b) && Less(b, c)
    ensures Less(a, c)
  {
    if a != "" && a[0] == b[0] == c[0] { LessTransitive(a[1..], b[1..], c[1..]); }
  }

  // ---------- numbers ----------

  function DigitChar(d: nat): (c: char)
    requires d < 10
    ensures IsDigit(c) && c as int == '0' as int + d
  {
    ('0' as int + d) as char
  }

  function DigitValue(c: char): (d: nat)
    requires IsDigit(c)
    ensures d < 10 && DigitChar(d) == c
  {
    c as int - '0' as int
  }

  /** String(n) for an unsigned n: no sign, no leading zero. */
  function Digits(n: nat): (s: string)
    ensures s != "" && AllDigits(s)
    ensures forall c :: c in s ==> IsDigit(c)
  {
    if n < 10 then [DigitChar(n)] else Digits(n / 10) + [DigitChar(n % 10)]
  }

  function Decimal(n: int): (s: string)
    ensures s != ""
    ensures n >= 0 ==> s == Digits(n)
    ensures forall c :: c in s ==> IsDigit(c) || c == '-'
  {
    if n < 0 then "-" + Digits(-n) else Digits(n)
  }

  /** The value of the longest run of digits s starts with, after acc. */
  function DigitRun(s: string, acc: nat): nat
  {
    if s != "" && IsDigit(s[0]) then DigitRun(s[1..], acc * 10 + DigitValue(s[0])) else acc
  }

  function Clamp(n: int, lo: int, hi: int): int
  {
    if n < lo then lo else if n > hi then hi else n
  }

  /** strtol: optional spaces, optional sign, digits; saturates at the type's ends. */
  function StrTo(s: string, lo: int, hi: int): (n: int)
    requires lo <= 0 <= hi
    ensures lo <= n <= hi
  {
    var t := TrimLeft(s);
    if t != "" && t[0] == '-' then Clamp(-(DigitRun(t[1..], 0) as int), lo, hi)
    else if t != "" && t[0] == '+' then Clamp(DigitRun(t[1..], 0), lo, hi)
    else Clamp(DigitRun(t, 0), lo, hi)
  }

  const INT_MAX := 0x7FFF_FFFF
  const INT_MIN := -0x8000_0000

  /** String::toInt() is atol on a 32-bit long. */
  function ToInt(s: string): (n: int)
    ensures INT_MIN <= n <= INT_MAX
  {
    StrTo(s, INT_MIN, INT_MAX)
  }

  lemma {:induction false} DigitRunConcat(a: string, b: string, acc: nat)
    requires AllDigits(a)
    ensures DigitRun(a + b, acc) == DigitRun(b, DigitRun(a, acc))
  {
    if a == "" {
      assert a + b == b;
    } else {
      assert (a + b)[1..] == a[1..] + b;
      DigitRunConcat(a[1..], b, acc * 10 + DigitValue(a[0]));
    }
  }

  lemma {:induction false} DigitRunDigits(n: nat)
    ensures DigitRun(Digits(n), 0) == n
  {
    if n >= 10 {
      DigitRunDigits(n / 10);
      DigitRunConcat(Digits(n / 10), [DigitChar(n % 10)], 0);
      assert DigitRun([DigitChar(n % 10)], n / 10) == DigitRun("", n / 10 * 10 + n % 10);
    }
  }

  /** toInt() gives a printed number back exactly when it fits a signed 32-bit
      long; a larger unsigned value comes back as 2^31 - 1. */
  lemma {:induction false} ToIntDecimal(n: int)
    ensures ToInt(Decimal(n)) == Clamp(n, INT_MIN, INT_MAX)
  {
    var s := Decimal(n);
    assert TrimLeft(s) == s;
    if n < 0 {
      DigitRunDigits(-n);
      assert s[1..] == Digits(-n);
    } else {
      DigitRunDigits(n);
    }
  }

  lemma ToIntTwo(s: string)
    requires |s| == 2 && AllDigits(s)
    ensures ToInt(s) == DigitValue(s[0]) * 10 + DigitValue(s[1])
  {
    assert TrimLeft(s) == s;
    assert s[1..][1..] == "";
    assert DigitRun(s[1..], DigitValue(s[0])) == DigitValue(s[0]) * 10 + DigitValue(s[1]);
  }

  // ---------- searching ----------

  predicate OccursAt(s: string, pat: string, i: int)
  {
    0 <= i && i + |pat| <= |s| && s[i..i + |pat|] == pat
  }

  ghost predicate Contains(s: string, pat: string) { exists i :: OccursAt(s, pat, i) }

  /** String::indexOf(pat, from): the first occurrence at or after from, or -1. */
  function IndexOf(s: string, pat: string, from: nat): (r: int)
    ensures r == -1 || from <= r <= |s| - |pat|
    decreases |s| - from
  {
    if OccursAt(s, pat, from) then from
    else if from >= |s| then -1
    else IndexOf(s, pat, from + 1)
  }

  lemma {:induction false} IndexOfFirst(s: string, pat: string, from: nat)
    ensures var r := IndexOf(s, pat, from);
            && (r >= 0 ==> OccursAt(s, pat, r))
            && forall i :: from <= i && OccursAt(s, pat, i) ==> 0 <= r <= i
    decreases |s| - from
  {
    if !OccursAt(s, pat, from) && from < |s| { IndexOfFirst(s, pat, from + 1); }
  }

  /** String::lastIndexOf(pat): the last occurrence, or -1. */
  function LastIndexOf(s: string, pat: string): (r: int)
    ensures r == -1 || OccursAt(s, pat, r)
    ensures forall i :: OccursAt(s, pat, i) ==> i <= r
  {
    LastIndexUpTo(s, pat, |s|)
  }

  function LastIndexUpTo(s: string, pat: string, upTo: nat): (r: int)
    ensures r == -1 || (r <= upTo && OccursAt(s, pat, r))
    ensures forall i :: i <= upTo && OccursAt(s, pat, i) ==> i <= r
  {
    if OccursAt(s, pat, upTo) then upTo
    else if upTo == 0 then -1
    else LastIndexUpTo(s, pat, upTo - 1)
  }

  predicate StartsWith(s: string, prefix: string) { prefix <= s }

  lemma Mismatch(s: string, pat: string, i: nat, k: nat)
    requires k < |pat| && i + k < |s| && s[i + k] != pat[k]
    ensures !OccursAt(s, pat, i)
  {
    if i + |pat| <= |s| { assert s[i..i + |pat|][k] == s[i + k]; }
  }

  /** An occurrence that avoids c stays on one side of a c. */
  lemma OccursBefore(a: string, c: char, b: string, pat: string, i: int)
    requires c !in pat && 0 <= i <= |a|
    requires pat != ""
    ensures OccursAt(a + [c] + b, pat, i) <==> OccursAt(a, pat, i)
  {
    var s := a + [c] + b;
    if i + |pat| <= |a| {
      assert s[i..i + |pat|] == a[i..i + |pat|];
    } else {
      Mismatch(s, pat, i, |a| - i);
    }
  }
}
