/** Rendering whole seconds as a clock: `Task::format_duration` and its
    copies print "[HH:MM:SS]", and the older timer views print the same shape
    with an indent and a trailing blank. */
module DurationFormat {

  function DigitChar(d: nat): (c: char)
    requires d < 10
    ensures '0' <= c <= '9'
  {
    ('0' as int + d) as char
  }

  function DigitValue(c: char): int
  {
    c as int - '0' as int
  }

  /** Decimal digits of `n`, as `{}` prints an unsigned integer. */
  function Digits(n: nat): (r: string)
    ensures |r| >= 1
    ensures forall i :: 0 <= i < |r| ==> '0' <= r[i] <= '9'
  {
    if n < 10 then [DigitChar(n)] else Digits(n / 10) + [DigitChar(n % 10)]
  }

  /** Reads back a string of decimal digits. */
  function DecimalValue(s: string): int
  {
    if |s| == 0 then 0 else DecimalValue(s[..|s| - 1]) * 10 + DigitValue(s[|s| - 1])
  }

  lemma {:induction false} DigitsRoundTrip(n: nat)
    ensures DecimalValue(Digits(n)) == n
  {
    var d := Digits(n);
    if n >= 10 {
      DigitsRoundTrip(n / 10);
      assert d[..|d| - 1] == Digits(n / 10);
      assert DigitValue(d[|d| - 1]) == n % 10;
      calc {
        DecimalValue(d);
        DecimalValue(Digits(n / 10)) * 10 + n % 10;
        (n / 10) * 10 + n % 10;
      }
    } else {
      assert DecimalValue(d) == DecimalValue(d[..0]) * 10 + DigitValue(d[0]);
    }
  }

  /** `{:02}`: zero-padded to at least two digits. */
  function Pad2(n: nat): (r: string)
  {
    if n < 10 then "0" + Digits(n) else Digits(n)
  }

  lemma Pad2Small(n: nat)
    requires n < 100
    ensures Pad2(n) == [DigitChar(n / 10), DigitChar(n % 10)]
  {
    if n >= 10 {
      assert Digits(n / 10) == [DigitChar(n / 10)];
    }
  }

  /** Pad2 never loses the number: the padded digits read back as `n`. */
  lemma {:induction false} Pad2RoundTrip(n: nat)
    ensures |Pad2(n)| >= 2
    ensures DecimalValue(Pad2(n)) == n
  {
    DigitsRoundTrip(n);
    if n < 10 {
      assert Pad2(n) == [DigitChar(0), DigitChar(n)];
      assert Pad2(n)[..1] == [DigitChar(0)];
    } else {
      var d := Digits(n);
      assert d[..|d| - 1] == Digits(n / 10);
    }
  }

  /** Hours, minutes within the hour and seconds within the minute. */
  function Hms(secs: nat): (r: (nat, nat, nat))
    ensures r.0 * 3600 + r.1 * 60 + r.2 == secs
    ensures r.1 < 60 && r.2 < 60
  {
    (secs / 3600, (secs % 3600) / 60, secs % 60)
  }

  /** The seconds that a 10-character clock "[HH:MM:SS]" denotes. */
  function ReadClock(s: string): int
    requires |s| >= 10
  {
    (DigitValue(s[1]) * 10 + DigitValue(s[2])) * 3600 +
    (DigitValue(s[4]) * 10 + DigitValue(s[5])) * 60 +
    DigitValue(s[7]) * 10 + DigitValue(s[8])
  }

  /** `Task::format_duration`. */
  function FormatDuration(secs: nat): (r: string)
    ensures |r| >= 10 && r[0] == '[' && r[|r| - 1] == ']'
  {
    var (h, m, s) := Hms(secs);
    "[" + Pad2(h) + ":" + Pad2(m) + ":" + Pad2(s) + "]"
  }

  /** Below 100 hours the clock is exactly ten characters and reads back as
      the seconds it was made from. */
  lemma FormatDurationRoundTrip(secs: nat)
    requires secs < 360000
    ensures |FormatDuration(secs)| == 10
    ensures ReadClock(FormatDuration(secs)) == secs
  {
    var (h, m, s) := Hms(secs);
    assert h < 100;
    Pad2Small(h);
    Pad2Small(m);
    Pad2Small(s);
    var r := FormatDuration(secs);
    assert r == ['[', DigitChar(h / 10), DigitChar(h % 10), ':', DigitChar(m / 10), DigitChar(m % 10),
                 ':', DigitChar(s / 10), DigitChar(s % 10), ']'];
    assert DigitValue(r[1]) * 10 + DigitValue(r[2]) == h;
    assert DigitValue(r[4]) * 10 + DigitValue(r[5]) == m;
    assert DigitValue(r[7]) * 10 + DigitValue(r[8]) == s;
  }

  /** `n` blanks, as `format!("{:1$}", "", n)` pads the empty string. */
  function Blanks(n: nat): (r: string)
    ensures |r| == n && forall i :: 0 <= i < n ==> r[i] == ' '
  {
    if n == 0 then "" else Blanks(n - 1) + " "
  }

  /** `format_time` of the timer and markdown views, as written: the minutes
      field is `total_seconds / 60`, the total minutes, not the minutes within
      the hour. */
  function FormatTimeAsWritten(totalSeconds: nat, indentLevel: nat): (r: string)
    ensures |r| >= indentLevel + 11
    ensures r[..indentLevel] == Blanks(indentLevel) && r[|r| - 1] == ' '
  {
    Blanks(indentLevel) + "[" + Pad2(totalSeconds / 3600) + ":" + Pad2(totalSeconds / 60) + ":"
      + Pad2(totalSeconds % 60) + "] "
  }

  /** One hour prints with sixty minutes: "[01:60:00] ". */
  lemma FormatTimeAsWrittenOneHour()
    ensures FormatTimeAsWritten(3600, 0) == "[01:60:00] "
    ensures ReadClock(FormatTimeAsWritten(3600, 0)) != 3600
  {
    Pad2Small(1);
    Pad2Small(60);
    Pad2Small(0);
  }

  /** `format_time` as evidently intended: the same clock as
      `format_duration`, after the indent and followed by one blank. */
  function FormatTime(totalSeconds: nat, indentLevel: nat): (r: string)
    ensures |r| >= indentLevel + 11 && r[..indentLevel] == Blanks(indentLevel)
  {
    Blanks(indentLevel) + FormatDuration(totalSeconds) + " "
  }

  /** The corrected clock reads back as the total it was given. */
  lemma FormatTimeRoundTrip(totalSeconds: nat, indentLevel: nat)
    requires totalSeconds < 360000
    ensures |FormatTime(totalSeconds, indentLevel)| == indentLevel + 11
    ensures ReadClock(FormatTime(totalSeconds, indentLevel)[indentLevel..]) == totalSeconds
  {
    FormatDurationRoundTrip(totalSeconds);
    assert FormatTime(totalSeconds, indentLevel)[indentLevel..] == FormatDuration(totalSeconds) + " ";
  }
}
