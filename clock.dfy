/** Times of day and their "HH:MM" text form (strftime and strptime with "%H:%M"). */
module Clock {
  import opened Wrappers
  import opened Decimal

  type Hour = h: int | 0 <= h < 24
  type MinuteOfHour = m: int | 0 <= m < 60

  /** The hour and minute of a datetime; the calendar date is discarded by the source. */
  datatype TimeOfDay = TimeOfDay(hour: Hour, minute: MinuteOfHour)

  /** Minutes since midnight of the reference day. */
  function MinuteOfDay(t: TimeOfDay): (m: int)
    ensures 0 <= m < 24 * 60
  {
    60 * t.hour + t.minute
  }

  /** Zero-padded "HH:MM", as strftime("%H:%M") writes it. */
  function FormatHHMM(t: TimeOfDay): (s: string)
    ensures |s| == 5 && s[2] == ':'
    ensures IsDigit(s[0]) && IsDigit(s[1]) && IsDigit(s[3]) && IsDigit(s[4])
  {
    [DigitChar(t.hour / 10), DigitChar(t.hour % 10), ':', DigitChar(t.minute / 10), DigitChar(t.minute % 10)]
  }

  /** Reads exactly two hour digits, a colon and two minute digits; anything else is rejected
      (strptime would raise ValueError). Every accepted string is the formatting of its result. */
  function ParseHHMM(s: string): (r: Option<TimeOfDay>)
    ensures r.Some? ==> FormatHHMM(r.value) == s
  {
    if |s| == 5 && IsDigit(s[0]) && IsDigit(s[1]) && s[2] == ':' && IsDigit(s[3]) && IsDigit(s[4]) then
      var h := 10 * DigitValue(s[0]) + DigitValue(s[1]);
      var m := 10 * DigitValue(s[3]) + DigitValue(s[4]);
      if h < 24 && m < 60 then Some(TimeOfDay(h, m)) else None
    else
      None
  }

  /** Formatting a time and parsing the text gives back the same hour and minute. */
  lemma ParseFormat(t: TimeOfDay)
    ensures ParseHHMM(FormatHHMM(t)) == Some(t)
  {
    var s := FormatHHMM(t);
    assert DigitValue(s[0]) == t.hour / 10 && DigitValue(s[1]) == t.hour % 10;
    assert DigitValue(s[3]) == t.minute / 10 && DigitValue(s[4]) == t.minute % 10;
  }
}
