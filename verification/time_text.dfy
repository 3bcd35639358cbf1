/**
 The wall-clock line of the toolbar clock: the fixed 24-hour pattern
 "HH:mm:ss", the fixed 12-hour pattern "hh:mm:ss tt", and the priority chain
 that chooses between them and the user's own pattern.
 */
module TimeText {
  import opened Options
  import opened Digits

  /**
   A wall-clock reading: the local clock of a DateTimeOffset, in ticks of 100
   nanoseconds since midnight of 0001-01-01.
   */
  type Instant = nat

  const TicksPerSecond: nat := 10_000_000
  const TicksPerMinute: nat := 60 * TicksPerSecond
  const TicksPerHour: nat := 60 * TicksPerMinute

  function Hour(t: Instant): (h: nat)
    ensures h < 24
  {
    (t / TicksPerHour) % 24
  }

  function Minute(t: Instant): (m: nat)
    ensures m < 60
  {
    (t / TicksPerMinute) % 60
  }

  function Second(t: Instant): (s: nat)
    ensures s < 60
  {
    (t / TicksPerSecond) % 60
  }

  lemma MulNonneg(a: nat, b: nat)
    ensures a * b >= 0
  {
  }

  /** Quotient and remainder are the only pair that rebuilds `x` with a remainder below `d`. */
  lemma DivModUnique(x: nat, d: nat, q: nat, r: nat)
    requires r < d && x == q * d + r
    ensures x / d == q && x % d == r
  {
    var q', r' := x / d, x % d;
    assert x == q' * d + r';
    assert (q' - q) * d == r - r';
    if q' > q {
      var k: nat := q' - q - 1;
      MulNonneg(k, d);
    } else if q' < q {
      var k: nat := q - q' - 1;
      MulNonneg(k, d);
    }
  }

  /** Dividing ticks by a whole number of seconds goes through the whole seconds. */
  lemma SecondsOf(t: Instant, n: nat)
    requires n > 0
    ensures t / (n * TicksPerSecond) == t / TicksPerSecond / n
    ensures t % (n * TicksPerSecond) / TicksPerSecond == t / TicksPerSecond % n
  {
    var secs, sub := t / TicksPerSecond, t % TicksPerSecond;
    var q, r := secs / n, secs % n;
    assert t == q * (n * TicksPerSecond) + (r * TicksPerSecond + sub);
    DivModUnique(t, n * TicksPerSecond, q, r * TicksPerSecond + sub);
    DivModUnique(r * TicksPerSecond + sub, TicksPerSecond, r, sub);
  }

  /** The seconds since midnight split into hours, minutes and seconds. */
  lemma DaySeconds(secs: nat)
    ensures secs % 86400 == secs / 3600 % 24 * 3600 + secs / 60 % 60 * 60 + secs % 60
  {
    var days, rest := secs / 86400, secs % 86400;
    var h, m, s := rest / 3600, rest % 3600 / 60, rest % 60;
    assert rest == h * 3600 + m * 60 + s;
    assert secs == days * 86400 + h * 3600 + m * 60 + s;
    DivModUnique(secs, 60, days * 1440 + h * 60 + m, s);
    DivModUnique(secs / 60, 60, days * 24 + h, m);
    DivModUnique(secs, 3600, days * 24 + h, m * 60 + s);
    DivModUnique(secs / 3600, 24, days, h);
  }

  /**
   The hour, minute and second of `t` are its time of day: the whole seconds
   since the last midnight are hour * 3600 + minute * 60 + second.
   */
  lemma TimeOfDaySum(t: Instant)
    ensures t % (24 * TicksPerHour) / TicksPerSecond == Hour(t) * 3600 + Minute(t) * 60 + Second(t)
  {
    SecondsOf(t, 3600);
    SecondsOf(t, 60);
    SecondsOf(t, 86400);
    DaySeconds(t / TicksPerSecond);
  }

  /**
   The host's general formatter `DateTimeOffset.ToString(pattern)`: given the
   pattern (None for a null reference) and the instant, the text, or None when
   the host throws FormatException because the pattern is not valid.
   */
  type HostFormatter = (Option<string>, Instant) -> Option<string>

  /** The characters at `i` and `i + 1` of `s` are two decimal digits that denote n. */
  predicate TwoDigitsAt(s: string, i: nat, n: nat) {
    i + 1 < |s| && IsDigit(s[i]) && IsDigit(s[i + 1]) && DigitValue(s[i]) * 10 + DigitValue(s[i + 1]) == n
  }

  /** Two places that hold the same two-digit number hold the same two characters. */
  lemma TwoDigitsUnique(a: string, i: nat, b: string, j: nat, n: nat)
    requires TwoDigitsAt(a, i, n) && TwoDigitsAt(b, j, n)
    ensures a[i] == b[j] && a[i + 1] == b[j + 1]
  {
    assert DigitValue(a[i]) == DigitValue(b[j]);
    assert DigitValue(a[i + 1]) == DigitValue(b[j + 1]);
  }

  /** `c` begins with "hh:mm:ss": three two-digit fields holding h, m and s, separated by colons. */
  predicate ClockFields(c: string, h: nat, m: nat, s: nat) {
    |c| >= 8 && c[2] == ':' && c[5] == ':' && TwoDigitsAt(c, 0, h) && TwoDigitsAt(c, 3, m) && TwoDigitsAt(c, 6, s)
  }

  /** `c` is exactly "hh:mm:ss" for h, m and s. */
  predicate IsClockText(c: string, h: nat, m: nat, s: nat) {
    |c| == 8 && ClockFields(c, h, m, s)
  }

  /** Two texts that begin with the same clock fields agree on their first eight characters. */
  lemma ClockFieldsUnique(a: string, b: string, h: nat, m: nat, s: nat)
    requires ClockFields(a, h, m, s) && ClockFields(b, h, m, s)
    ensures forall i :: 0 <= i < 8 ==> a[i] == b[i]
  {
    TwoDigitsUnique(a, 0, b, 0, h);
    TwoDigitsUnique(a, 3, b, 3, m);
    TwoDigitsUnique(a, 6, b, 6, s);
  }

  /** Three-field clock texts that hold the same values are the same text. */
  lemma ClockTextUnique(a: string, b: string, h: nat, m: nat, s: nat)
    requires IsClockText(a, h, m, s) && IsClockText(b, h, m, s)
    ensures a == b
  {
    ClockFieldsUnique(a, b, h, m, s);
  }

  /** n in two digits with a leading zero, as the specifiers "HH", "hh", "mm" and "ss" write it. */
  function TwoDigits(n: nat): (r: string)
    requires n < 100
    ensures |r| == 2 && TwoDigitsAt(r, 0, n)
  {
    [DigitChar(n / 10), DigitChar(n % 10)]
  }

  function ClockText(h: nat, m: nat, s: nat): (c: string)
    requires h < 100 && m < 100 && s < 100
    ensures IsClockText(c, h, m, s)
  {
    TwoDigits(h) + ":" + TwoDigits(m) + ":" + TwoDigits(s)
  }

  /** `r` is `t` written with the pattern "HH:mm:ss". */
  predicate Shows24(r: string, t: Instant) {
    IsClockText(r, Hour(t), Minute(t), Second(t))
  }

  /** The pattern "HH:mm:ss": hour 00..23, minute and second 00..59, eight characters. */
  function Clock24(t: Instant): (r: string)
    ensures Shows24(r, t)
  {
    ClockText(Hour(t), Minute(t), Second(t))
  }

  /** The "hh" specifier: hour 0 reads 12, hours 13..23 read 1..11. */
  function Hour12(h: nat): (r: nat)
    requires h < 24
    ensures 1 <= r <= 12 && r % 12 == h % 12
  {
    if h % 12 == 0 then 12 else h % 12
  }

  /** The "tt" specifier in the invariant culture: AM before noon, PM from noon on. */
  function Designator(h: nat): (r: string)
    requires h < 24
    ensures r == "AM" <==> h < 12
    ensures r == "PM" <==> h >= 12
  {
    if h < 12 then "AM" else "PM"
  }

  /** The 24-hour hour that a 12-hour hour and a designator stand for. */
  function From12(h12: nat, pm: bool): (h: nat) {
    h12 % 12 + if pm then 12 else 0
  }

  /** A 12-hour hour and its designator are determined by the 24-hour hour they stand for. */
  lemma From12Injective(a: nat, pmA: bool, b: nat, pmB: bool)
    requires 1 <= a <= 12 && 1 <= b <= 12
    requires From12(a, pmA) == From12(b, pmB)
    ensures a == b && pmA == pmB
  {
  }

  /**
   `r` is `t` written with the pattern "hh:mm:ss tt": a clock text whose hour
   field h12 lies in 1..12, a space, then AM or PM, with h12 and the designator
   standing for the hour of `t`.
   */
  predicate Shows12(r: string, t: Instant) {
    && |r| == 11 && r[8] == ' ' && (r[9] == 'A' || r[9] == 'P') && r[10] == 'M'
    && IsDigit(r[0]) && IsDigit(r[1])
    && var h12 := DigitValue(r[0]) * 10 + DigitValue(r[1]);
       && 1 <= h12 <= 12
       && ClockFields(r, h12, Minute(t), Second(t))
       && From12(h12, r[9] == 'P') == Hour(t)
  }

  /** The pattern "hh:mm:ss tt", the widget's fallback format. */
  function Clock12(t: Instant): (r: string) {
    var h := Hour(t);
    ClockText(Hour12(h), Minute(t), Second(t)) + " " + Designator(h)
  }

  /** "hh:mm:ss tt" shows the hour in 01..12 with AM before noon and PM from noon on. */
  lemma Clock12Shows(t: Instant)
    ensures Shows12(Clock12(t), t)
    ensures Clock12(t)[9] == 'A' <==> Hour(t) < 12
  {
    var h := Hour(t);
    var clock := ClockText(Hour12(h), Minute(t), Second(t));
    var r := clock + " " + Designator(h);
    assert r == Clock12(t);
    assert ClockFields(r, Hour12(h), Minute(t), Second(t)) by {
      assert forall i :: 0 <= i < 8 ==> r[i] == clock[i];
    }
    assert r[8] == ' ' && r[9] == Designator(h)[0] && r[10] == 'M';
  }

  /** Two texts that both show `t` as "hh:mm:ss tt" are the same text. */
  lemma Shows12Unique(a: string, b: string, t: Instant)
    requires Shows12(a, t) && Shows12(b, t)
    ensures a == b
  {
    var ha, hb := DigitValue(a[0]) * 10 + DigitValue(a[1]), DigitValue(b[0]) * 10 + DigitValue(b[1]);
    From12Injective(ha, a[9] == 'P', hb, b[9] == 'P');
    ClockFieldsUnique(a, b, ha, Minute(t), Second(t));
    assert forall i :: 0 <= i < 11 ==> a[i] == b[i];
  }

  /**
   The time line's priority chain: the 24-hour pattern when asked for; else the
   user's pattern handed to the host unless it is the empty string, with the
   12-hour pattern when the host rejects it; else the 12-hour pattern.
   */
  function TimeLine(use24HourDisplay: bool, pattern: Option<string>, now: Instant, host: HostFormatter): string {
    if use24HourDisplay then Clock24(now)
    else if pattern != Some("") then
      match host(pattern, now)
      case Some(text) => text
      case None => Clock12(now)
    else Clock12(now)
  }

  /**
   What the time line shows: "HH:mm:ss" in 24-hour mode; otherwise "hh:mm:ss tt"
   for the empty pattern; otherwise the host's text for the pattern, or
   "hh:mm:ss tt" when the host rejects the pattern.
   */
  lemma TimeLineShows(use24HourDisplay: bool, pattern: Option<string>, now: Instant, host: HostFormatter)
    ensures use24HourDisplay ==> Shows24(TimeLine(use24HourDisplay, pattern, now, host), now)
    ensures !use24HourDisplay && pattern == Some("") ==> Shows12(TimeLine(use24HourDisplay, pattern, now, host), now)
    ensures !use24HourDisplay && pattern != Some("") && host(pattern, now).Some? ==>
              TimeLine(use24HourDisplay, pattern, now, host) == host(pattern, now).value
    ensures !use24HourDisplay && pattern != Some("") && host(pattern, now).None? ==>
              Shows12(TimeLine(use24HourDisplay, pattern, now, host), now)
  {
    Clock12Shows(now);
  }

  /** In 24-hour mode the time line is exactly "HH:mm:ss", whatever the preferred pattern and the host. */
  lemma TimeLine24IgnoresPattern(pattern: Option<string>, now: Instant, host: HostFormatter)
    ensures TimeLine(true, pattern, now, host) == Clock24(now)
  {
  }

  /** A pattern the host rejects gives the same line as the empty pattern. */
  lemma RejectedPatternFallsBack(pattern: Option<string>, now: Instant, host: HostFormatter)
    requires host(pattern, now) == None
    ensures TimeLine(false, pattern, now, host) == TimeLine(false, Some(""), now, host) == Clock12(now)
  {
  }

  /** 14:05:09 on the first day of the calendar. */
  const Afternoon: Instant := 14 * TicksPerHour + 5 * TicksPerMinute + 9 * TicksPerSecond

  lemma AfternoonFields()
    ensures Hour(Afternoon) == 14 && Minute(Afternoon) == 5 && Second(Afternoon) == 9
  {
    assert Afternoon == 507_090_000_000;
    assert Afternoon / TicksPerHour == 14;
    assert Afternoon / TicksPerMinute == 845;
    assert Afternoon / TicksPerSecond == 50709;
  }

  /** 14:05:09 with the pattern "HH:mm:ss". */
  lemma Afternoon24()
    ensures Clock24(Afternoon) == "14:05:09"
  {
    AfternoonFields();
    assert IsClockText("14:05:09", 14, 5, 9);
    ClockTextUnique(Clock24(Afternoon), "14:05:09", 14, 5, 9);
  }

  /** 14:05:09 with the pattern "hh:mm:ss tt". */
  lemma Afternoon12()
    ensures Clock12(Afternoon) == "02:05:09 PM"
  {
    AfternoonFields();
    Clock12Shows(Afternoon);
    assert Shows12("02:05:09 PM", Afternoon);
    Shows12Unique(Clock12(Afternoon), "02:05:09 PM", Afternoon);
  }
}
