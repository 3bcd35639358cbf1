/**
 The runtime line of the toolbar clock: "running " followed by the elapsed
 time, in whole seconds, written with the .NET constant ("c") time-span
 format `[d.]hh:mm:ss`.
 */
module RuntimeText {
  import opened Options
  import opened Digits
  import opened TimeText

  const SecondsPerDay: nat := 86400

  const RunningPrefix: string := "running "

  /**
   A span of whole seconds in the "c" format: the day count and a dot only when
   there is at least one whole day, then hours, minutes and seconds of two
   digits each. The fraction `.fffffff` of the format is written only for a
   span with a part below one second, which a span of whole seconds never has.
   */
  function ConstantSpan(seconds: nat): (r: string)
    ensures |r| >= 8
    ensures seconds < SecondsPerDay <==> |r| == 8
    ensures seconds >= SecondsPerDay ==> |r| >= 10 && r[|r| - 9] == '.' && AllDigits(r[..|r| - 9]) && r[0] != '0'
  {
    var days, rest := seconds / SecondsPerDay, seconds % SecondsPerDay;
    var clock := ClockText(rest / 3600, rest % 3600 / 60, rest % 60);
    var r := (if days > 0 then Decimal(days) + "." else "") + clock;
    assert r[|r| - 8..] == clock;
    assert days > 0 ==> r[..|r| - 9] == Decimal(days);
    r
  }

  /** The number held by the two digits at `i` of `s`. */
  function FieldValue(s: string, i: nat): (n: nat)
    requires i + 1 < |s| && IsDigit(s[i]) && IsDigit(s[i + 1])
  {
    DigitValue(s[i]) * 10 + DigitValue(s[i + 1])
  }

  /** `c` has the shape "dd:dd:dd" with a decimal digit at each d. */
  predicate ClockShape(c: string) {
    && |c| == 8 && c[2] == ':' && c[5] == ':'
    && IsDigit(c[0]) && IsDigit(c[1]) && IsDigit(c[3]) && IsDigit(c[4]) && IsDigit(c[6]) && IsDigit(c[7])
  }

  /** Reads a "c" span of whole seconds back into its number of seconds; None when `text` is not one. */
  function ParseConstantSpan(text: string): (r: Option<nat>) {
    if |text| < 8 then None
    else
      var head, clock := text[..|text| - 8], text[|text| - 8..];
      if !ClockShape(clock) then None
      else
        var h, m, s := FieldValue(clock, 0), FieldValue(clock, 3), FieldValue(clock, 6);
        if !(h < 24 && m < 60 && s < 60) then None
        else if head == [] then Some(h * 3600 + m * 60 + s)
        else if |head| >= 2 && head[|head| - 1] == '.' && AllDigits(head[..|head| - 1]) then
          Some(DigitsValue(head[..|head| - 1]) * SecondsPerDay + h * 3600 + m * 60 + s)
        else None
  }

  /** How a span's text divides into the optional day count and the clock fields. */
  lemma ParseParts(head: string, clock: string, days: nat, h: nat, m: nat, s: nat)
    requires IsClockText(clock, h, m, s) && h < 24 && m < 60 && s < 60
    requires head == [] || head == Decimal(days) + "."
    ensures ParseConstantSpan(head + clock)
            == Some((if head == [] then 0 else days * SecondsPerDay) + h * 3600 + m * 60 + s)
  {
    var r := head + clock;
    assert r[..|r| - 8] == head && r[|r| - 8..] == clock;
    assert ClockShape(clock);
    assert FieldValue(clock, 0) == h && FieldValue(clock, 3) == m && FieldValue(clock, 6) == s;
    if head != [] {
      assert head[..|head| - 1] == Decimal(days);
    }
  }

  /** Days, hours, minutes and seconds of a span add back up to the span. */
  lemma SpanFieldsSum(seconds: nat)
    ensures seconds == seconds / SecondsPerDay * SecondsPerDay
                       + seconds % SecondsPerDay / 3600 * 3600
                       + seconds % SecondsPerDay % 3600 / 60 * 60
                       + seconds % SecondsPerDay % 60
  {
    var rest := seconds % SecondsPerDay;
    assert seconds == seconds / SecondsPerDay * SecondsPerDay + rest;
    var r2 := rest % 3600;
    assert rest == rest / 3600 * 3600 + r2;
    assert r2 == r2 / 60 * 60 + r2 % 60;
    assert r2 % 60 == rest % 60;
  }

  /** The fields of a span: days * 86400 + hh * 3600 + mm * 60 + ss is the span itself. */
  lemma ConstantSpanRoundTrip(seconds: nat)
    ensures ParseConstantSpan(ConstantSpan(seconds)) == Some(seconds)
  {
    var days, rest := seconds / SecondsPerDay, seconds % SecondsPerDay;
    var h, m, s := rest / 3600, rest % 3600 / 60, rest % 60;
    var head := if days > 0 then Decimal(days) + "." else "";
    assert ConstantSpan(seconds) == head + ClockText(h, m, s);
    ParseParts(head, ClockText(h, m, s), days, h, m, s);
    SpanFieldsSum(seconds);
  }

  /** Different spans never read the same. */
  lemma ConstantSpanInjective(a: nat, b: nat)
    requires ConstantSpan(a) == ConstantSpan(b)
    ensures a == b
  {
    ConstantSpanRoundTrip(a);
    ConstantSpanRoundTrip(b);
  }

  /**
   The runtime line for a running clock of `elapsedMs` milliseconds: the
   milliseconds are truncated to whole seconds before they are written.
   */
  function RuntimeLine(elapsedMs: nat): (r: string)
    ensures |r| >= 16 && r[..8] == RunningPrefix
    ensures elapsedMs < 1000 * SecondsPerDay <==> |r| == 16
  {
    RunningPrefix + ConstantSpan(elapsedMs / 1000)
  }

  /** The runtime line reads back as the whole seconds elapsed, whatever the milliseconds beyond them. */
  lemma RuntimeLineReadsBack(elapsedMs: nat)
    ensures ParseConstantSpan(RuntimeLine(elapsedMs)[8..]) == Some(elapsedMs / 1000)
  {
    var r := RuntimeLine(elapsedMs);
    assert r[8..] == ConstantSpan(elapsedMs / 1000);
    ConstantSpanRoundTrip(elapsedMs / 1000);
  }

  /** A span below one day is the bare clock text of its hours, minutes and seconds. */
  lemma SpanUnderADay(seconds: nat)
    requires seconds < SecondsPerDay
    ensures IsClockText(ConstantSpan(seconds), seconds / 3600, seconds % 3600 / 60, seconds % 60)
  {
  }

  /** Ninety seconds read "00:01:30". */
  lemma NinetySecondsSpan(seconds: nat)
    requires seconds == 90
    ensures ConstantSpan(seconds) == "00:01:30"
  {
    SpanUnderADay(seconds);
    assert IsClockText("00:01:30", 0, 1, 30);
    ClockTextUnique(ConstantSpan(seconds), "00:01:30", 0, 1, 30);
  }

  /** Ninety seconds of running. */
  lemma NinetySecondsExample(elapsedMs: nat)
    requires elapsedMs == 90_000
    ensures RuntimeLine(elapsedMs) == "running 00:01:30"
  {
    var seconds := elapsedMs / 1000;
    assert RuntimeLine(elapsedMs) == RunningPrefix + ConstantSpan(seconds);
    NinetySecondsSpan(seconds);
    assert RunningPrefix + "00:01:30" == "running 00:01:30";
  }

  /** Twenty-five hours read "1.01:00:00". */
  lemma TwentyFiveHoursSpan(seconds: nat)
    requires seconds == 90_000
    ensures ConstantSpan(seconds) == "1.01:00:00"
  {
    var days, rest := seconds / SecondsPerDay, seconds % SecondsPerDay;
    assert days == 1 && rest == 3600;
    var c := ClockText(rest / 3600, rest % 3600 / 60, rest % 60);
    assert IsClockText("01:00:00", 1, 0, 0);
    ClockTextUnique(c, "01:00:00", 1, 0, 0);
    assert Decimal(days) == "1";
    assert ConstantSpan(seconds) == Decimal(days) + "." + c;
    assert "1" + "." + "01:00:00" == "1.01:00:00";
  }

  /** Twenty-five hours of running: the day count appears. */
  lemma TwentyFiveHoursExample(elapsedMs: nat)
    requires elapsedMs == 90_000_000
    ensures RuntimeLine(elapsedMs) == "running 1.01:00:00"
  {
    TwentyFiveHoursSpan(elapsedMs / 1000);
  }
}
