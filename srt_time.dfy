/** `format_srt_time`: seconds to the SubRip time stamp `HH:MM:SS,mmm`, with times as exact reals. */
module SrtTime {
  import opened Wrappers
  import opened Decimal
  import opened Lines
  import opened Numbers

  /** The four fields of a time stamp; the hour is not bounded. */
  datatype Fields = Fields(hour: int, minute: int, second: int, millisec: int)

  /** The field arithmetic of `format_srt_time`: `seconds % 1` is floored (in [0, 1)), `int()`
      truncates, and `%`/`//` by 60 floor. For a non-negative time the fields are in range and add
      back up to the time truncated to whole milliseconds. */
  function TimeFields(seconds: real): (f: Fields)
    ensures 0 <= f.minute < 60 && 0 <= f.second < 60 && 0 <= f.millisec < 1000
    ensures seconds >= 0.0 ==> f.hour >= 0
    ensures seconds >= 0.0 ==> f.hour * 3600 + f.minute * 60 + f.second == seconds.Floor
    ensures seconds >= 0.0 ==> seconds.Floor * 1000 + f.millisec == (seconds * 1000.0).Floor
  {
    var frac := seconds - seconds.Floor as real;
    var millisec := Trunc(frac * 1000.0);
    var totalSeconds := Trunc(seconds);
    var totalMinutes := totalSeconds / 60;
    FloorShift(frac * 1000.0, seconds.Floor * 1000);
    Fields(totalMinutes / 60, totalMinutes % 60, totalSeconds % 60, millisec)
  }

  /** Adding a whole number moves the floor by that number. */
  lemma FloorShift(x: real, k: int)
    ensures (x + k as real).Floor == x.Floor + k
  {
  }

  /** `f"{n:02d}"` also for a negative n: the sign counts towards the width of 2. */
  function HourText(hour: int): (s: string)
    ensures |s| >= 2
    ensures s[0] == '-' <==> hour < 0
    ensures hour >= 0 ==> IsDigits(s)
  {
    if hour < 0 then "-" + DigitsOf(-hour) else ZeroPad(hour, 2)
  }

  /** The four rendered fields joined by the SubRip separators. */
  function TimeText(hour: string, minute: string, second: string, millisec: string): (s: string)
    ensures |s| == |hour| + |minute| + |second| + |millisec| + 3
  {
    hour + ":" + minute + ":" + second + "," + millisec
  }

  /** `format_srt_time(seconds)`. */
  function FormatSrtTime(seconds: real): (s: string)
    ensures |s| >= 12
  {
    var f := TimeFields(seconds);
    ZeroPadWidth(f.minute, 2);
    ZeroPadWidth(f.second, 2);
    ZeroPadWidth(f.millisec, 3);
    TimeText(HourText(f.hour), ZeroPad(f.minute, 2), ZeroPad(f.second, 2), ZeroPad(f.millisec, 3))
  }

  /** A rendered time holds only digits, `-`, `:` and `,`: no blank and no line break. */
  lemma FormatPlain(seconds: real)
    ensures var s := FormatSrtTime(seconds);
      IndexOf(s, ' ') == |s| && IndexOf(s, '\n') == |s|
  {
    var f := TimeFields(seconds);
    var s := FormatSrtTime(seconds);
    var h, m, sec, ms := HourText(f.hour), ZeroPad(f.minute, 2), ZeroPad(f.second, 2), ZeroPad(f.millisec, 3);
    assert s == h + ":" + m + ":" + sec + "," + ms;
    assert forall i :: 0 <= i < |h| ==> h[i] != ' ' && h[i] != '\n';
    assert forall i :: 0 <= i < |s| ==> s[i] != ' ' && s[i] != '\n';
    IndexOfAbsent(s, ' ');
    IndexOfAbsent(s, '\n');
  }

  /** The value in milliseconds of the four fields of a time stamp; None unless each is a string
      of digits and the minute and second are below 60. */
  function ParseFields(h: string, m: string, sec: string, ms: string): (r: Option<int>)
    ensures r.Some? ==> r.value >= 0
  {
    if !(IsDigits(h) && IsDigits(m) && IsDigits(sec) && IsDigits(ms)) then None
    else if ParseDigits(m) >= 60 || ParseDigits(sec) >= 60 then None
    else Some(ParseDigits(h) * 3600000 + ParseDigits(m) * 60000 + ParseDigits(sec) * 1000 + ParseDigits(ms))
  }

  /** Reads `H:MM:SS,mmm` (at least one hour digit, exactly 2, 2 and 3 digits after) back as a count
      of milliseconds; None for anything else or a minute or second out of range. */
  function ParseSrtTime(s: string): (r: Option<int>)
    ensures r.Some? ==> r.value >= 0
  {
    if |s| < 11 || s[|s| - 10] != ':' || s[|s| - 7] != ':' || s[|s| - 4] != ',' then None
    else ParseFields(s[..|s| - 10], s[|s| - 9..|s| - 7], s[|s| - 6..|s| - 4], s[|s| - 3..])
  }

  /** Where the separators of a time text sit, counted from its end, once the minute, second and
      millisecond fields have their fixed widths. */
  lemma TimeTextShape(h: string, m: string, sec: string, ms: string)
    requires |m| == 2 && |sec| == 2 && |ms| == 3
    ensures var s := TimeText(h, m, sec, ms);
      s[|s| - 10] == ':' && s[|s| - 7] == ':' && s[|s| - 4] == ',' &&
      s[..|s| - 10] == h && s[|s| - 9..|s| - 7] == m && s[|s| - 6..|s| - 4] == sec && s[|s| - 3..] == ms
  {
    var s := TimeText(h, m, sec, ms);
    assert s == h + (":" + m + ":" + sec + "," + ms);
    assert s[|h|..] == ":" + m + ":" + sec + "," + ms;
  }

  /** Reading a time text splits it back into its four fields, whatever they hold, as long as the
      hour is not empty and the other fields have their fixed widths. */
  lemma SplitTimeText(h: string, m: string, sec: string, ms: string)
    requires |h| >= 1 && |m| == 2 && |sec| == 2 && |ms| == 3
    ensures ParseSrtTime(TimeText(h, m, sec, ms)) == ParseFields(h, m, sec, ms)
  {
    var s := TimeText(h, m, sec, ms);
    TimeTextShape(h, m, sec, ms);
    assert |s| >= 11;
  }

  /** The layout of a rendered non-negative time: the last ten characters are `:MM:SS,mmm` with
      separators in fixed places, and everything before them is the zero-padded hour, two digits
      below 100 hours and the full number above (no wrap at 24 or 100). */
  lemma FormatShape(seconds: real)
    requires seconds >= 0.0
    ensures var s, f := FormatSrtTime(seconds), TimeFields(seconds);
      s[|s| - 10] == ':' && s[|s| - 7] == ':' && s[|s| - 4] == ',' &&
      s[..|s| - 10] == ZeroPad(f.hour, 2) &&
      s[|s| - 9..|s| - 7] == ZeroPad(f.minute, 2) &&
      s[|s| - 6..|s| - 4] == ZeroPad(f.second, 2) &&
      s[|s| - 3..] == ZeroPad(f.millisec, 3) &&
      (f.hour < 100 <==> |s| == 12)
  {
    var f := TimeFields(seconds);
    ZeroPadWidth(f.minute, 2);
    ZeroPadWidth(f.second, 2);
    ZeroPadWidth(f.millisec, 3);
    DigitsOfLength(f.hour, 2);
    TimeTextShape(ZeroPad(f.hour, 2), ZeroPad(f.minute, 2), ZeroPad(f.second, 2), ZeroPad(f.millisec, 3));
  }

  /** Reading a rendered non-negative time back gives it truncated to whole milliseconds. */
  lemma ParseFormat(seconds: real)
    requires seconds >= 0.0
    ensures ParseSrtTime(FormatSrtTime(seconds)) == Some((seconds * 1000.0).Floor)
  {
    var f := TimeFields(seconds);
    var h, m, sec, ms := ZeroPad(f.hour, 2), ZeroPad(f.minute, 2), ZeroPad(f.second, 2), ZeroPad(f.millisec, 3);
    assert FormatSrtTime(seconds) == TimeText(h, m, sec, ms);
    assert ParseSrtTime(TimeText(h, m, sec, ms)) == Some(f.hour * 3600000 + f.minute * 60000 + f.second * 1000 + f.millisec) by {
      ZeroPadWidth(f.minute, 2);
      ZeroPadWidth(f.second, 2);
      ZeroPadWidth(f.millisec, 3);
      ParseZeroPad(f.hour, 2);
      ParseZeroPad(f.minute, 2);
      ParseZeroPad(f.second, 2);
      ParseZeroPad(f.millisec, 3);
      SplitTimeText(h, m, sec, ms);
    }
  }

  lemma FormatZero()
    ensures FormatSrtTime(0.0) == "00:00:00,000"
  {
    assert TimeFields(0.0) == Fields(0, 0, 0, 0);
  }

  lemma FormatOneHourOneMinute()
    ensures FormatSrtTime(3661.5) == "01:01:01,500"
  {
    assert TimeFields(3661.5) == Fields(1, 1, 1, 500);
    assert DigitsOf(500) == "500" by {
      assert DigitsOf(50) == "50";
    }
  }

  /** Exact reals give 234 milliseconds here; IEEE doubles would give 233. */
  lemma FormatSixtyOneSeconds()
    ensures FormatSrtTime(61.234) == "00:01:01,234"
  {
    assert TimeFields(61.234) == Fields(0, 1, 1, 234);
    assert DigitsOf(234) == "234" by {
      assert DigitsOf(23) == "23";
    }
  }

  /** The hour field is not wrapped: 100 hours prints three hour digits. */
  lemma FormatHundredHours()
    ensures FormatSrtTime(360000.0) == "100:00:00,000"
  {
    assert TimeFields(360000.0) == Fields(100, 0, 0, 0);
    assert DigitsOf(100) == "100" by {
      assert DigitsOf(10) == "10";
    }
  }

  /** A negative time keeps Python's mixed semantics: `% 1` and `//` floor while `int()`
      truncates, and the negative hour prints as a sign and one digit. */
  lemma FormatMinusOneAndAHalf()
    ensures FormatSrtTime(-1.5) == "-1:59:59,500"
  {
    assert TimeFields(-1.5) == Fields(-1, 59, 59, 500);
    assert DigitsOf(59) == "59";
    assert DigitsOf(500) == "500" by {
      assert DigitsOf(50) == "50";
    }
  }
}
