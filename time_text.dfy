/** Wall-clock text as the schedulers see it: `strftime("%H:%M")`, the
    `HH:MM` regular expression of the window scheduler, what
    `strptime(s, "%H:%M")` accepts, zero-padding, and Python's ordering
    of strings (by code point, lexicographically). */
module TimeText {

  /** The weekday abbreviations, Monday first, indexed like `weekday()`. */
  const WeekdayNames: seq<string> := ["Пн", "Вт", "Ср", "Чт", "Пт", "Сб", "Вс"]

  predicate IsDigit(c: char) {
    '0' <= c <= '9'
  }

  function DigitChar(d: nat): (c: char)
    requires d < 10
    ensures IsDigit(c)
  {
    ('0' as int + d) as char
  }

  function DigitValue(c: char): (d: nat)
    requires IsDigit(c)
    ensures d < 10 && DigitChar(d) == c
  {
    c as int - '0' as int
  }

  /** A five-character `HH:MM` string with hour 0..23 and minute 0..59. */
  predicate IsCanonical(s: string) {
    && |s| == 5
    && IsDigit(s[0]) && IsDigit(s[1]) && s[2] == ':' && IsDigit(s[3]) && IsDigit(s[4])
    && DigitValue(s[0]) * 10 + DigitValue(s[1]) < 24
    && DigitValue(s[3]) < 6
  }

  function HourOf(s: string): (h: nat)
    requires IsCanonical(s)
    ensures h < 24
  {
    DigitValue(s[0]) * 10 + DigitValue(s[1])
  }

  function MinuteOf(s: string): (m: nat)
    requires IsCanonical(s)
    ensures m < 60
  {
    DigitValue(s[3]) * 10 + DigitValue(s[4])
  }

  /** Minutes since midnight of a canonical time. */
  function Minutes(s: string): (n: nat)
    requires IsCanonical(s)
    ensures n < 24 * 60
  {
    HourOf(s) * 60 + MinuteOf(s)
  }

  /** `strftime("%H:%M")` of a clock reading: the canonical text that reads
      back as the same hour and minute. */
  function FormatHM(h: nat, m: nat): (r: string)
    requires h < 24 && m < 60
    ensures IsCanonical(r) && HourOf(r) == h && MinuteOf(r) == m
    ensures Minutes(r) == h * 60 + m
  {
    [DigitChar(h / 10), DigitChar(h % 10), ':', DigitChar(m / 10), DigitChar(m % 10)]
  }

  /** Every canonical string is the formatting of its own hour and minute,
      so FormatHM is a bijection onto the canonical strings. */
  lemma FormatHMOfCanonical(s: string)
    requires IsCanonical(s)
    ensures FormatHM(HourOf(s), MinuteOf(s)) == s
  {
    var r := FormatHM(HourOf(s), MinuteOf(s));
    assert r[0] == DigitChar(DigitValue(s[0])) == s[0];
    assert r[3] == DigitChar(DigitValue(s[3])) == s[3];
  }

  /** The decimal value of a string of digits, as Python's `int()` reads it. */
  function DecimalValue(t: string): (n: nat)
    requires forall i :: 0 <= i < |t| ==> IsDigit(t[i])
  {
    if |t| == 0 then 0 else DecimalValue(t[..|t| - 1]) * 10 + DigitValue(t[|t| - 1])
  }

  /** Python's `str(n)` of a non-negative integer: its decimal digits,
      which `int()` reads back as `n`. */
  function NatText(n: nat): (r: string)
    ensures |r| > 0
    ensures forall i :: 0 <= i < |r| ==> IsDigit(r[i])
    ensures DecimalValue(r) == n
  {
    if n < 10 then
      [DigitChar(n)]
    else
      var r := NatText(n / 10) + [DigitChar(n % 10)];
      assert r[..|r| - 1] == NatText(n / 10);
      r
  }

  /** The hour alternative `([0-1]?[0-9]|2[0-3])`, which is also the set
      `strptime` accepts for `%H` (`2[0-3]|[0-1]\d|\d`). */
  predicate HourText(t: string) {
    || (|t| == 1 && IsDigit(t[0]))
    || (|t| == 2 && '0' <= t[0] <= '1' && IsDigit(t[1]))
    || (|t| == 2 && t[0] == '2' && '0' <= t[1] <= '3')
  }

  /** The minute part `[0-5][0-9]` of the regular expression. */
  predicate TwoDigitMinuteText(t: string) {
    |t| == 2 && '0' <= t[0] <= '5' && IsDigit(t[1])
  }

  /** What `strptime` accepts for `%M`: `[0-5]\d|\d`. */
  predicate StrptimeMinuteText(t: string) {
    TwoDigitMinuteText(t) || (|t| == 1 && IsDigit(t[0]))
  }

  /** A full match of `^([0-1]?[0-9]|2[0-3]):([0-5][0-9])$`: digits
      around the colon, reading as an hour below 24 and a minute below 60. */
  predicate MatchesTimePattern(s: string): (r: bool)
    ensures r ==> 4 <= |s| && forall i :: 0 <= i < |s| && i != |s| - 3 ==> IsDigit(s[i])
    ensures r ==> DecimalValue(s[..|s| - 3]) < 24 && DecimalValue(s[|s| - 2..]) < 60
  {
    if (|s| == 4 || |s| == 5) && s[|s| - 3] == ':' && HourText(s[..|s| - 3]) && TwoDigitMinuteText(s[|s| - 2..]) then
      HourTextValue(s[..|s| - 3]);
      MinuteTextValue(s[|s| - 2..]);
      true
    else
      false
  }

  /** `datetime.strptime(s, "%H:%M")` returns instead of raising ValueError:
      an hour of one or two digits, a colon, a minute of one or two digits,
      and nothing after it. On five characters this is exactly the regular
      expression; the shorter forms leave out a leading zero. */
  predicate StrptimeAccepts(s: string): (r: bool)
    ensures r ==> 3 <= |s| <= 5
    ensures r && |s| == 5 ==> MatchesTimePattern(s)
    ensures |s| == 5 && MatchesTimePattern(s) ==> r
  {
    || (|s| >= 2 && s[1] == ':' && HourText(s[..1]) && StrptimeMinuteText(s[2..]))
    || (|s| >= 3 && s[2] == ':' && HourText(s[..2]) && StrptimeMinuteText(s[3..]))
  }

  lemma DecimalOne(t: string)
    requires |t| == 1 && IsDigit(t[0])
    ensures DecimalValue(t) == DigitValue(t[0])
  {
    assert t[..0] == [];
  }

  lemma DecimalTwo(t: string)
    requires |t| == 2 && IsDigit(t[0]) && IsDigit(t[1])
    ensures DecimalValue(t) == DigitValue(t[0]) * 10 + DigitValue(t[1])
  {
    DecimalOne(t[..1]);
  }

  lemma HourTextValue(t: string)
    requires HourText(t)
    ensures forall i :: 0 <= i < |t| ==> IsDigit(t[i])
    ensures DecimalValue(t) < 24
  {
    if |t| == 2 {
      DecimalTwo(t);
    } else {
      DecimalOne(t);
    }
  }

  lemma MinuteTextValue(t: string)
    requires TwoDigitMinuteText(t)
    ensures forall i :: 0 <= i < |t| ==> IsDigit(t[i])
    ensures DecimalValue(t) < 60
  {
    DecimalTwo(t);
  }

  /** The zero-padding step: `f"{int(h):02d}:{int(m):02d}"` of the two
      halves of a string the regular expression accepted. */
  function NormalizeTime(s: string): (r: string)
    requires MatchesTimePattern(s)
    ensures IsCanonical(r)
  {
    HourTextValue(s[..|s| - 3]);
    MinuteTextValue(s[|s| - 2..]);
    FormatHM(DecimalValue(s[..|s| - 3]), DecimalValue(s[|s| - 2..]))
  }

  /** Normalising an already canonical string returns it unchanged, and the
      regular expression accepts every canonical string. */
  lemma NormalizeCanonical(s: string)
    requires IsCanonical(s)
    ensures MatchesTimePattern(s)
    ensures NormalizeTime(s) == s
  {
    DecimalTwo(s[..2]);
    DecimalTwo(s[3..]);
    FormatHMOfCanonical(s);
  }

  /** Normalising keeps the value: the hour and minute read back from the
      padded text are the integers Python's `int()` reads from the input. */
  lemma NormalizeKeepsValue(s: string)
    requires MatchesTimePattern(s)
    ensures HourOf(NormalizeTime(s)) == DecimalValue(s[..|s| - 3])
    ensures MinuteOf(NormalizeTime(s)) == DecimalValue(s[|s| - 2..])
  {
    HourTextValue(s[..|s| - 3]);
    MinuteTextValue(s[|s| - 2..]);
  }

  /** Every string the regular expression accepts, `strptime` accepts too;
      the converse fails, since `strptime` also takes a one-digit minute. */
  lemma PatternImpliesStrptime(s: string)
    requires MatchesTimePattern(s)
    ensures StrptimeAccepts(s)
  {
    if |s| == 4 {
      assert s[..1] == s[..|s| - 3] && s[2..] == s[|s| - 2..];
    } else {
      assert s[..2] == s[..|s| - 3] && s[3..] == s[|s| - 2..];
    }
  }

  lemma StrptimeAcceptsShortMinute()
    ensures StrptimeAccepts("12:5") && !MatchesTimePattern("12:5")
  {
    assert "12:5"[..2] == "12" && "12:5"[3..] == "5";
  }

  /** Python's `a < b` on strings: lexicographic by code point. */
  predicate StrLess(a: string, b: string)
    decreases |a|
  {
    if |a| == 0 then |b| > 0
    else if |b| == 0 then false
    else if a[0] != b[0] then a[0] < b[0]
    else StrLess(a[1..], b[1..])
  }

  /** Python's `a <= b` on strings. */
  predicate StrLessEq(a: string, b: string) {
    a == b || StrLess(a, b)
  }

  lemma DigitOrder(c: char, d: char)
    requires IsDigit(c) && IsDigit(d)
    ensures c < d <==> DigitValue(c) < DigitValue(d)
    ensures c == d <==> DigitValue(c) == DigitValue(d)
  {
  }

  /** On canonical strings the string comparison `<` agrees with comparing
      minutes since midnight. */
  lemma CanonicalOrder(a: string, b: string)
    requires IsCanonical(a) && IsCanonical(b)
    ensures StrLess(a, b) <==> Minutes(a) < Minutes(b)
  {
    DigitOrder(a[0], b[0]);
    DigitOrder(a[1], b[1]);
    DigitOrder(a[3], b[3]);
    DigitOrder(a[4], b[4]);
    var x0, x1, x3, x4 := DigitValue(a[0]), DigitValue(a[1]), DigitValue(a[3]), DigitValue(a[4]);
    var y0, y1, y3, y4 := DigitValue(b[0]), DigitValue(b[1]), DigitValue(b[3]), DigitValue(b[4]);
    assert Minutes(a) == x0 * 600 + x1 * 60 + x3 * 10 + x4;
    assert Minutes(b) == y0 * 600 + y1 * 60 + y3 * 10 + y4;
    if a[0] != b[0] {
      assert StrLess(a, b) == (x0 < y0);
    } else if a[1] != b[1] {
      assert StrLess(a, b) == StrLess(a[1..], b[1..]) == (x1 < y1);
    } else {
      assert StrLess(a, b) == StrLess(a[1..], b[1..]) == StrLess(a[2..], b[2..]) == StrLess(a[3..], b[3..]) by {
        assert a[1..][1..] == a[2..] && b[1..][1..] == b[2..];
        assert a[2..][1..] == a[3..] && b[2..][1..] == b[3..];
      }
      if a[3] != b[3] {
        assert StrLess(a[3..], b[3..]) == (x3 < y3);
      } else {
        assert a[3..][1..] == a[4..] && b[3..][1..] == b[4..];
        assert a[4..][1..] == [] == b[4..][1..];
        assert StrLess(a[3..], b[3..]) == StrLess(a[4..], b[4..]) == (x4 < y4);
      }
    }
  }

  /** Python's string order is total: of two different strings one is
      smaller. */
  lemma {:induction false} StrLessTotal(a: string, b: string)
    ensures a == b || StrLess(a, b) || StrLess(b, a)
    decreases |a|
  {
    if |a| > 0 && |b| > 0 && a[0] == b[0] {
      StrLessTotal(a[1..], b[1..]);
      if a[1..] == b[1..] {
        assert a == [a[0]] + a[1..] && b == [b[0]] + b[1..];
      }
    }
  }

  /** On canonical strings Python's `<=` agrees with comparing minutes. */
  lemma CanonicalOrderEq(a: string, b: string)
    requires IsCanonical(a) && IsCanonical(b)
    ensures StrLessEq(a, b) <==> Minutes(a) <= Minutes(b)
  {
    CanonicalOrder(a, b);
    CanonicalOrder(b, a);
    StrLessTotal(a, b);
  }
}
