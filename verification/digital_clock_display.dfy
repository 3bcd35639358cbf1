/**
 The toolbar's digital clock widget: three display options with
 change-coalescing setters, the refresh that writes the two text lines, and
 the width and visibility policy.
 */
module Toolbar {
  import opened Options
  import opened TimeText
  import opened RuntimeText

  const WideWidth: int := 66
  const NarrowWidth: int := 45

  /**
   The width reserved for the widget: the narrow width only when the runtime
   line is hidden and the clock is 24-hour; the wide one otherwise, which also
   leaves room for a runtime of up to 99 days.
   */
  function LayoutWidth(showRuntime: bool, use24HourDisplay: bool): (w: int)
    ensures w == NarrowWidth <==> !showRuntime && use24HourDisplay
    ensures w == WideWidth <==> showRuntime || !use24HourDisplay
  {
    if showRuntime || !use24HourDisplay then WideWidth else NarrowWidth
  }

  /** The target opacity of the runtime line: shown fully or hidden, never removed from the layout. */
  function RuntimeOpacity(showRuntime: bool): (o: int)
    ensures o == 1 <==> showRuntime
    ensures o == 0 <==> !showRuntime
  {
    if showRuntime then 1 else 0
  }

  class DigitalClockDisplay {
    /** The host's `DateTimeOffset.ToString(pattern)`. */
    const format: HostFormatter

    var showRuntime: bool
    var use24HourDisplay: bool
    /** The user's pattern; None is the null reference the field starts with. */
    var preferTimeFormat: Option<string>

    var width: int
    /** The opacity the runtime line is faded to. */
    var runtimeOpacity: int
    /** The text of the wall-clock line. */
    var realTimeText: string
    /** The text of the runtime line. */
    var gameTimeText: string

    /** The wall-clock time and elapsed milliseconds of the last refresh, if there was one. */
    ghost var lastUpdate: Option<(Instant, nat)>

    /** The width and the runtime line's opacity follow the options. */
    ghost predicate MetricsValid()
      reads this
    {
      width == LayoutWidth(showRuntime, use24HourDisplay) && runtimeOpacity == RuntimeOpacity(showRuntime)
    }

    /**
     The object invariant of a loaded widget: the metrics follow the options, and
     both lines are what the current options give for the last refresh.
     */
    ghost predicate Valid()
      reads this
    {
      && MetricsValid()
      && match lastUpdate
         case None => realTimeText == "" && gameTimeText == ""
         case Some((now, elapsedMs)) =>
           realTimeText == TimeLine(use24HourDisplay, preferTimeFormat, now, format)
           && gameTimeText == RuntimeLine(elapsedMs)
    }

    /** A widget after construction and loading: default options, metrics laid out, empty lines. */
    constructor (format: HostFormatter)
      ensures Valid()
      ensures this.format == format
      ensures showRuntime && !use24HourDisplay && preferTimeFormat == None
      ensures width == WideWidth && runtimeOpacity == 1
      ensures realTimeText == "" && gameTimeText == "" && lastUpdate == None
    {
      this.format := format;
      showRuntime := true;
      use24HourDisplay := false;
      preferTimeFormat := None;
      realTimeText := "";
      gameTimeText := "";
      lastUpdate := None;
      new;
      UpdateMetrics();
    }

    /** Sets the width and the runtime line's target opacity from the options. */
    method UpdateMetrics()
      modifies this`width, this`runtimeOpacity
      ensures MetricsValid()
      ensures width == LayoutWidth(showRuntime, use24HourDisplay)
      ensures runtimeOpacity == RuntimeOpacity(showRuntime)
    {
      width := if showRuntime || !use24HourDisplay then 66 else 45;
      runtimeOpacity := if showRuntime then 1 else 0;
    }

    /**
     The refresh: writes the wall-clock line for `now` and the runtime line for
     `elapsedMs`. A pattern the host rejects falls back to "hh:mm:ss tt" for this
     refresh only; the stored pattern is kept.
     */
    method UpdateDisplay(now: Instant, elapsedMs: nat)
      requires MetricsValid()
      modifies this`realTimeText, this`gameTimeText, this`lastUpdate
      ensures Valid()
      ensures realTimeText == TimeLine(use24HourDisplay, preferTimeFormat, now, format)
      ensures gameTimeText == RuntimeLine(elapsedMs)
      ensures lastUpdate == Some((now, elapsedMs))
      ensures preferTimeFormat == old(preferTimeFormat)
    {
      if use24HourDisplay {
        realTimeText := Clock24(now);
      } else if preferTimeFormat != Some("") {
        match format(preferTimeFormat, now)
        case Some(text) =>
          realTimeText := text;
        case None =>
          realTimeText := Clock12(now);
      } else {
        realTimeText := Clock12(now);
      }
      assert realTimeText == TimeLine(use24HourDisplay, preferTimeFormat, now, format);
      gameTimeText := RunningPrefix + ConstantSpan(elapsedMs / 1000);
      lastUpdate := Some((now, elapsedMs));
    }

    /**
     Shows or hides the runtime line. Nothing happens when the value is the
     current one; otherwise the metrics are recomputed and the text lines are
     left as they are.
     */
    method SetShowRuntime(value: bool)
      requires Valid()
      modifies this
      ensures Valid()
      ensures old(showRuntime) == value ==> unchanged(this)
      ensures showRuntime == value
      ensures use24HourDisplay == old(use24HourDisplay) && preferTimeFormat == old(preferTimeFormat)
      ensures width == LayoutWidth(value, use24HourDisplay) && runtimeOpacity == RuntimeOpacity(value)
      ensures realTimeText == old(realTimeText) && gameTimeText == old(gameTimeText)
      ensures lastUpdate == old(lastUpdate)
    {
      if showRuntime == value {
        return;
      }
      showRuntime := value;
      UpdateMetrics();
    }

    /**
     Switches between the 24-hour and the 12-hour clock. Nothing happens when the
     value is the current one; otherwise the metrics are recomputed and both lines
     are rewritten at once for `now` and `elapsedMs`.
     */
    method SetUse24HourDisplay(value: bool, now: Instant, elapsedMs: nat)
      requires Valid()
      modifies this
      ensures Valid()
      ensures old(use24HourDisplay) == value ==> unchanged(this)
      ensures use24HourDisplay == value
      ensures showRuntime == old(showRuntime) && preferTimeFormat == old(preferTimeFormat)
      ensures width == LayoutWidth(showRuntime, value) && runtimeOpacity == RuntimeOpacity(showRuntime)
      ensures old(use24HourDisplay) != value ==>
                && realTimeText == TimeLine(value, preferTimeFormat, now, format)
                && gameTimeText == RuntimeLine(elapsedMs)
                && lastUpdate == Some((now, elapsedMs))
    {
      if use24HourDisplay == value {
        return;
      }
      use24HourDisplay := value;
      UpdateMetrics();
      UpdateDisplay(now, elapsedMs);
    }

    /**
     Sets the user's pattern. Nothing happens when the value is the current one;
     otherwise the metrics are recomputed and both lines are rewritten at once
     for `now` and `elapsedMs`.
     */
    method SetPreferTimeFormat(value: Option<string>, now: Instant, elapsedMs: nat)
      requires Valid()
      modifies this
      ensures Valid()
      ensures old(preferTimeFormat) == value ==> unchanged(this)
      ensures preferTimeFormat == value
      ensures showRuntime == old(showRuntime) && use24HourDisplay == old(use24HourDisplay)
      ensures width == LayoutWidth(showRuntime, use24HourDisplay) && runtimeOpacity == RuntimeOpacity(showRuntime)
      ensures old(preferTimeFormat) != value ==>
                && realTimeText == TimeLine(use24HourDisplay, value, now, format)
                && gameTimeText == RuntimeLine(elapsedMs)
                && lastUpdate == Some((now, elapsedMs))
    {
      if preferTimeFormat == value {
        return;
      }
      preferTimeFormat := value;
      UpdateMetrics();
      UpdateDisplay(now, elapsedMs);
    }
  }

  /**
   A fresh widget given a pattern the host rejects: the wall-clock line falls
   back to "hh:mm:ss tt" at once, and the rejected pattern stays stored.
   */
  method RejectedPatternScenario(host: HostFormatter, now: Instant, elapsedMs: nat)
    returns (line: string, stored: Option<string>)
    requires host(Some(":"), now) == None
    ensures line == Clock12(now)
    ensures stored == Some(":")
  {
    var clock := new DigitalClockDisplay(host);
    clock.SetPreferTimeFormat(Some(":"), now, elapsedMs);
    RejectedPatternFallsBack(Some(":"), now, host);
    line, stored := clock.realTimeText, clock.preferTimeFormat;
  }

  /**
   A fresh widget switched to the 24-hour clock and then told to hide the
   runtime line: the switch rewrites the wall-clock line at once, hiding the
   runtime line narrows the widget and leaves both lines as they were.
   */
  method HideRuntimeScenario(host: HostFormatter, now: Instant, elapsedMs: nat)
    returns (line: string, runtime: string, w: int, opacity: int)
    ensures line == Clock24(now) && runtime == RuntimeLine(elapsedMs)
    ensures w == NarrowWidth && opacity == 0
  {
    var clock := new DigitalClockDisplay(host);
    clock.SetUse24HourDisplay(true, now, elapsedMs);
    TimeLine24IgnoresPattern(clock.preferTimeFormat, now, host);
    clock.SetShowRuntime(false);
    line, runtime, w, opacity := clock.realTimeText, clock.gameTimeText, clock.width, clock.runtimeOpacity;
  }
}
