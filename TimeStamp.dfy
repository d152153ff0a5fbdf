/** The moment a log record was made (`src/task_timer/views/log/time_stamp.rs`).
    Reading the local clock is outside the model: a stamp is a value the
    caller supplies. */
module TimeStamps {
  import opened DurationFormat

  datatype TimeStamp = TimeStamp(day: nat, month: string, hours: nat, minutes: nat, seconds: nat)

  /** `print`: "{day} {month}: HH:MM:SS", the day unpadded, the month as
      given and the clock fields padded to two digits. */
  function Print(t: TimeStamp): (r: string)
    ensures |r| >= |Digits(t.day)| + |t.month| + 11
    ensures r[..|Digits(t.day)|] == Digits(t.day) && r[|Digits(t.day)|] == ' '
    ensures r[|Digits(t.day)| + 1..|Digits(t.day)| + 1 + |t.month|] == t.month
  {
    Pad2RoundTrip(t.hours);
    Pad2RoundTrip(t.minutes);
    Pad2RoundTrip(t.seconds);
    var d := Digits(t.day);
    var head := d + " " + t.month;
    var r := head + ": " + Pad2(t.hours) + ":" + Pad2(t.minutes) + ":" + Pad2(t.seconds);
    assert r[..|head|] == head;
    assert r[..|d|] == d;
    assert r[|d| + 1..|d| + 1 + |t.month|] == t.month;
    r
  }

  /** A stamp of a real time of day prints as a fixed-width clock after the
      date, and both read back: the day as its decimal digits and the clock
      as the seconds since midnight. */
  lemma PrintReadsBack(t: TimeStamp)
    requires t.hours < 24 && t.minutes < 60 && t.seconds < 60
    ensures |Print(t)| == |Digits(t.day)| + |t.month| + 11
    ensures DecimalValue(Print(t)[..|Digits(t.day)|]) == t.day
    ensures ReadClock("[" + Print(t)[|Print(t)| - 8..] + "]") == t.hours * 3600 + t.minutes * 60 + t.seconds
  {
    DigitsRoundTrip(t.day);
    Pad2Small(t.hours);
    Pad2Small(t.minutes);
    Pad2Small(t.seconds);
    var p := Print(t);
    var clock := "[" + p[|p| - 8..] + "]";
    assert p[|p| - 8..] == Pad2(t.hours) + ":" + Pad2(t.minutes) + ":" + Pad2(t.seconds);
    assert clock == ['[', DigitChar(t.hours / 10), DigitChar(t.hours % 10), ':',
                     DigitChar(t.minutes / 10), DigitChar(t.minutes % 10), ':',
                     DigitChar(t.seconds / 10), DigitChar(t.seconds % 10), ']'];
  }
}
