// The duration formats the pages show: "HH:MM:SS" (components/TaskTimerControl.tsx:13-18,
// pages/DashboardPage.tsx:101-106) and "<h>h <m>m" (pages/TasksPage.tsx:8-12,
// pages/ReportsPage.tsx:145-149, pages/DashboardPage.tsx:29-33). Each format
// comes with a reader, so that a round-trip lemma can say what the text means.

module Format {
  import opened Types

  predicate IsDigit(c: char)
  {
    '0' <= c <= '9'
  }

  predicate AllDigits(s: string)
  {
    forall i :: 0 <= i < |s| ==> IsDigit(s[i])
  }

  function DigitChar(d: nat): (c: char)
    requires d < 10
    ensures IsDigit(c) && c as int - '0' as int == d
  {
    ('0' as int + d) as char
  }

  /** `n.toString()` for a non-negative integer: its decimal digits, no leading zero. */
  function NatToString(n: nat): (r: string)
    ensures |r| >= 1 && AllDigits(r)
    ensures |r| > 1 ==> r[0] != '0'
    decreases n
  {
    if n < 10 then [DigitChar(n)] else NatToString(n / 10) + [DigitChar(n % 10)]
  }

  /** The number a string of decimal digits denotes. */
  function DigitsValue(s: string): nat
    requires AllDigits(s)
    decreases |s|
  {
    if |s| == 0 then 0
    else DigitsValue(s[..|s| - 1]) * 10 + (s[|s| - 1] as int - '0' as int)
  }

  lemma {:induction false} NatToStringRoundTrip(n: nat)
    ensures DigitsValue(NatToString(n)) == n
    decreases n
  {
    if n >= 10 {
      NatToStringRoundTrip(n / 10);
      var s := NatToString(n);
      assert s[..|s| - 1] == NatToString(n / 10);
    }
  }

  /** A leading '0' does not change the value of a digit string. */
  lemma {:induction false} LeadingZero(s: string)
    requires AllDigits(s)
    ensures AllDigits("0" + s) && DigitsValue("0" + s) == DigitsValue(s)
    decreases |s|
  {
    if |s| > 0 {
      var t := "0" + s;
      assert t[..|t| - 1] == "0" + s[..|s| - 1];
      LeadingZero(s[..|s| - 1]);
    }
  }

  /** `padStart(2, '0')`: left-pad with '0' up to two characters; never truncates. */
  function PadStart2(s: string): (r: string)
    ensures |r| == if |s| >= 2 then |s| else 2
    ensures r[|r| - |s|..] == s
    ensures forall i :: 0 <= i < |r| - |s| ==> r[i] == '0'
  {
    if |s| >= 2 then s else if |s| == 1 then "0" + s else "00"
  }

  lemma PadStart2Value(s: string)
    requires AllDigits(s)
    ensures AllDigits(PadStart2(s)) && DigitsValue(PadStart2(s)) == DigitsValue(s)
  {
    if |s| == 1 {
      LeadingZero(s);
    } else if |s| == 0 {
      LeadingZero("0");
      LeadingZero("");
    }
  }

  /** The two-digit text of a number: its digits, padded to at least two. */
  function Field2(n: nat): (r: string)
    ensures |r| >= 2 && AllDigits(r)
    ensures n < 100 ==> |r| == 2
  {
    PadStart2Value(NatToString(n));
    NatToStringLength(n);
    PadStart2(NatToString(n))
  }

  lemma {:induction false} NatToStringLength(n: nat)
    ensures n < 10 ==> |NatToString(n)| == 1
    ensures 10 <= n < 100 ==> |NatToString(n)| == 2
  {
    if n >= 10 {
      NatToStringLength(n / 10);
    }
  }

  lemma Field2Value(n: nat)
    ensures DigitsValue(Field2(n)) == n
  {
    PadStart2Value(NatToString(n));
    NatToStringRoundTrip(n);
  }

  /** The seconds in `h` hours, `m` minutes and `s` seconds. */
  function Seconds(h: nat, m: nat, s: nat): nat
  {
    h * 3600 + m * 60 + s
  }

  /** Hours, minutes in 0..59 and seconds in 0..59 that add back up to `seconds`. */
  function ClockParts(seconds: nat): (r: (nat, nat, nat))
    ensures r.1 < 60 && r.2 < 60
    ensures Seconds(r.0, r.1, r.2) == seconds
  {
    var h := seconds / 3600;
    var rest := seconds % 3600;
    assert rest == (rest / 60) * 60 + rest % 60;
    assert seconds % 60 == rest % 60 by {
      assert seconds == (h * 60 + rest / 60) * 60 + rest % 60;
    }
    (h, rest / 60, seconds % 60)
  }

  /** formatTime of the timer control and the member dashboard: "HH:MM:SS". */
  function FormatClock(seconds: nat): (r: string)
    ensures |r| >= 8
    ensures seconds < 360000 ==> |r| == 8
  {
    var parts := ClockParts(seconds);
    Field2(parts.0) + ":" + Field2(parts.1) + ":" + Field2(parts.2)
  }

  /** The text before the first `sep` and the text after it. */
  function SplitAt(s: string, sep: char): (r: Option<(string, string)>)
    ensures r.Some? ==> s == r.value.0 + [sep] + r.value.1 && sep !in r.value.0
    ensures r.None? ==> sep !in s
    decreases |s|
  {
    if |s| == 0 then None
    else if s[0] == sep then Some(([], s[1..]))
    else
      match SplitAt(s[1..], sep)
      case None => None
      case Some(parts) => Some(([s[0]] + parts.0, parts.1))
  }

  lemma {:induction false} SplitAtJoin(a: string, sep: char, b: string)
    requires sep !in a
    ensures SplitAt(a + [sep] + b, sep) == Some((a, b))
    decreases |a|
  {
    var s := a + [sep] + b;
    if |a| > 0 {
      assert s[1..] == a[1..] + [sep] + b;
      SplitAtJoin(a[1..], sep, b);
      assert [a[0]] + a[1..] == a;
    } else {
      assert s[1..] == b;
    }
  }

  /**
   * The numbers of three digit fields read as hours, minutes and seconds:
   * the hours have at least two digits, the minutes and seconds exactly two.
   */
  function ClockFieldValues(h: string, m: string, s: string): Option<(nat, nat, nat)>
  {
    if AllDigits(h) && AllDigits(m) && AllDigits(s) && |h| >= 2 && |m| == 2 && |s| == 2
    then Some((DigitsValue(h), DigitsValue(m), DigitsValue(s)))
    else None
  }

  /** Reads "HH:MM:SS" back into its hours, minutes and seconds. */
  function ParseClockFields(text: string): Option<(nat, nat, nat)>
  {
    match SplitAt(text, ':')
    case None => None
    case Some(first) =>
      match SplitAt(first.1, ':')
      case None => None
      case Some(second) => ClockFieldValues(first.0, second.0, second.1)
  }

  /** Reads "HH:MM:SS" back into seconds. */
  function ParseClock(text: string): Option<nat>
  {
    match ParseClockFields(text)
    case None => None
    case Some(f) => Some(Seconds(f.0, f.1, f.2))
  }

  /** Three padded digit fields joined by ':' read back as the values of those fields. */
  lemma ParseClockJoin(a: string, b: string, c: string)
    requires AllDigits(a) && AllDigits(b) && AllDigits(c)
    requires |a| >= 2 && |b| == 2 && |c| == 2
    ensures ParseClockFields(a + ":" + b + ":" + c)
         == Some((DigitsValue(a), DigitsValue(b), DigitsValue(c)))
  {
    assert ':' !in a && ':' !in b by {
      assert !IsDigit(':');
    }
    assert a + ":" + b + ":" + c == a + [':'] + (b + [':'] + c);
    SplitAtJoin(a, ':', b + [':'] + c);
    SplitAtJoin(b, ':', c);
  }

  /**
   * The clock text reads back, field by field, as the hours, the minutes in
   * 0..59 and the seconds in 0..59 of the total, and so as the total itself.
   */
  lemma FormatClockRoundTrip(seconds: nat)
    ensures ParseClockFields(FormatClock(seconds)) == Some(ClockParts(seconds))
    ensures ParseClock(FormatClock(seconds)) == Some(seconds)
  {
    var parts := ClockParts(seconds);
    var h, m, s := parts.0, parts.1, parts.2;
    Field2Value(h);
    Field2Value(m);
    Field2Value(s);
    ParseClockJoin(Field2(h), Field2(m), Field2(s));
  }

  /** Whole hours and the minutes in 0..59 left over; the seconds below a minute are dropped. */
  function HourMinuteParts(seconds: nat): (r: (nat, nat))
    ensures r.1 < 60
    ensures r.0 * 3600 + r.1 * 60 <= seconds < r.0 * 3600 + r.1 * 60 + 60
  {
    var h := seconds / 3600;
    var rest := seconds % 3600;
    assert rest == (rest / 60) * 60 + rest % 60;
    (h, rest / 60)
  }

  /** formatTime / formatTotalTime of the pages and the admin dashboard: "<h>h <m>m". */
  function FormatHoursMinutes(seconds: nat): (r: string)
    ensures |r| >= 5 && r[|r| - 1] == 'm' && 'h' in r
  {
    var (h, m) := HourMinuteParts(seconds);
    NatToString(h) + "h " + NatToString(m) + "m"
  }

  /** Reads "<h>h <m>m" back into its hours and minutes. */
  function ParseHoursMinutes(text: string): Option<(nat, nat)>
  {
    match SplitAt(text, 'h')
    case None => None
    case Some(parts) =>
      var (h, rest) := parts;
      if |rest| >= 2 && rest[0] == ' ' && rest[|rest| - 1] == 'm' then
        var m := rest[1..|rest| - 1];
        if AllDigits(h) && AllDigits(m) && |h| > 0 && |m| > 0
        then Some((DigitsValue(h), DigitsValue(m)))
        else None
      else None
  }

  /** The hours-minutes text reads back as the hours and minutes it was made from. */
  lemma FormatHoursMinutesRoundTrip(seconds: nat)
    ensures ParseHoursMinutes(FormatHoursMinutes(seconds)) == Some(HourMinuteParts(seconds))
  {
    var (h, m) := HourMinuteParts(seconds);
    var a, b := NatToString(h), NatToString(m);
    assert 'h' !in a by {
      assert !IsDigit('h');
    }
    var rest := " " + b + "m";
    assert FormatHoursMinutes(seconds) == a + ['h'] + rest;
    SplitAtJoin(a, 'h', rest);
    assert rest[1..|rest| - 1] == b;
    NatToStringRoundTrip(h);
    NatToStringRoundTrip(m);
  }
}
