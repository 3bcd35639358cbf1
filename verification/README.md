# Digital clock display of the osu! toolbar, in Dafny

This project models the toolbar clock widget `DigitalClockDisplay` of osu!.
The widget shows two lines:

- the wall-clock time, as "HH:mm:ss" in 24-hour mode, or as the user's own
  pattern handed to the host's date formatter, or as "hh:mm:ss tt";
- "running " followed by the game's running time in the .NET constant ("c")
  time-span format `[d.]hh:mm:ss`.

It has three options: `ShowRuntime`, `Use24HourDisplay` and `PreferTimeFormat`.
Each setter does nothing when the new value equals the current one. Otherwise
it stores the value and recomputes the width (66 or 45) and the runtime line's
target opacity (1 or 0). The two format options also rewrite both lines at once.

Modules:

- `Options`: the `Option` type, used for the nullable pattern and for a
  formatting call that may throw.
- `Digits`: decimal digits, their values, and the day count written in decimal.
- `TimeText`: the wall-clock reading (`Instant`, in 100 ns ticks) and the
  patterns "HH:mm:ss" and "hh:mm:ss tt". It also holds the priority chain
  `TimeLine` that picks the wall-clock line. Each rendering is described by a
  predicate (`Shows24`, `Shows12`) that says what the text means. Lemmas prove
  that the rendering satisfies that predicate and that only one text does.
- `RuntimeText`: the "c" rendering of a span of whole seconds. It comes with a
  parser (`ParseConstantSpan`) and a round-trip proof: days·86400 + hh·3600 +
  mm·60 + ss gives back the span.
- `Toolbar`: the width and opacity policy and the class `DigitalClockDisplay`.
  The class has the options, the metrics and the two text lines as fields, and
  a ghost record of the last refresh. Its invariant `Valid()` says two things.
  The metrics follow the options. Both lines are what the current options give
  for the last refresh. So the invariant shows why hiding the runtime line needs
  no re-render while the two format options do.

The host's `DateTimeOffset.ToString(pattern)` for arbitrary patterns is not
interpreted. It is the widget's constant `format`, a function from a pattern
and an instant to a text, or to `None` where the host throws `FormatException`.

The preferred pattern starts as null. The field is declared without an
initialiser (DigitalClockDisplay.cs line 49), and the guard at line 88 only
excludes "". So a fresh widget in 12-hour mode hands a null pattern to the host
formatter instead of using "hh:mm:ss tt". The model's field is an
`Option<string>` that starts as `None`, and `TimeLine` passes `None` to the
host.

## Model

| member | source | states |
|---|---|---|
| Digits.Decimal | osu.Game/Overlays/Toolbar/DigitalClockDisplay.cs:102 | the day count of a "c" span in decimal: non-empty, all digits, no leading zero except "0" itself, and it reads back as the number |
| TimeText.Hour | osu.Game/Overlays/Toolbar/DigitalClockDisplay.cs:86 | the hour of the local clock lies in 0..23 |
| TimeText.TimeOfDaySum | osu.Game/Overlays/Toolbar/DigitalClockDisplay.cs:86 | the hour, minute and second of an instant (`Hour`, `Minute`, `Second`) are its time of day: the whole seconds since midnight equal hour·3600 + minute·60 + second |
| TimeText.ClockText | osu.Game/Overlays/Toolbar/DigitalClockDisplay.cs:86 | "hh:mm:ss", built from three `TwoDigits` fields: eight characters, colons at 2 and 5, and three two-digit fields holding the given hour, minute and second |
| TimeText.ClockTextUnique | osu.Game/Overlays/Toolbar/DigitalClockDisplay.cs:86 | two clock texts with the same three fields are the same text, so the pattern fixes the text exactly |
| TimeText.Clock24 | osu.Game/Overlays/Toolbar/DigitalClockDisplay.cs:86 | "HH:mm:ss" is the clock text of the instant's hour (00..23), minute and second (00..59) |
| TimeText.Hour12 | osu.Game/Overlays/Toolbar/DigitalClockDisplay.cs:100 | the "hh" hour lies in 1..12 and agrees with the 24-hour hour modulo 12 (0 reads 12, 13 reads 1) |
| TimeText.Designator | osu.Game/Overlays/Toolbar/DigitalClockDisplay.cs:100 | the "tt" designator is AM exactly when the hour is below 12, and PM exactly when it is 12 or more |
| TimeText.Clock12Shows | osu.Game/Overlays/Toolbar/DigitalClockDisplay.cs:99-100 | `Clock12`, the pattern "hh:mm:ss tt", has 11 characters, an hour field in 01..12, the minute and second, a space and AM or PM; the hour field and the designator give back the 24-hour hour |
| TimeText.Shows12Unique | osu.Game/Overlays/Toolbar/DigitalClockDisplay.cs:96-100 | only one text shows an instant as "hh:mm:ss tt" |
| TimeText.TimeLineShows | osu.Game/Overlays/Toolbar/DigitalClockDisplay.cs:84-101 | the priority chain `TimeLine`: "HH:mm:ss" in 24-hour mode; else "hh:mm:ss tt" for the empty pattern; else the host's text for the pattern, or "hh:mm:ss tt" when the host rejects it |
| TimeText.TimeLine24IgnoresPattern | osu.Game/Overlays/Toolbar/DigitalClockDisplay.cs:84-87 | in 24-hour mode the line is "HH:mm:ss" whatever the stored pattern and the host formatter |
| TimeText.RejectedPatternFallsBack | osu.Game/Overlays/Toolbar/DigitalClockDisplay.cs:91-100 | a pattern the host rejects gives exactly the line of the empty pattern, "hh:mm:ss tt" |
| TimeText.Afternoon24 | osu.Game/Overlays/Toolbar/DigitalClockDisplay.cs:86 | 14:05:09 reads "14:05:09" |
| TimeText.Afternoon12 | osu.Game/Overlays/Toolbar/DigitalClockDisplay.cs:100 | 14:05:09 reads "02:05:09 PM" |
| RuntimeText.ConstantSpan | osu.Game/Overlays/Toolbar/DigitalClockDisplay.cs:102 | the "c" form: exactly 8 characters below one day; from one day on, a day count of at least one digit, without leading zero, and a dot before the clock fields |
| RuntimeText.ConstantSpanRoundTrip | osu.Game/Overlays/Toolbar/DigitalClockDisplay.cs:102 | the "c" text parses back to the span: hh < 24, mm < 60, ss < 60 and d·86400 + hh·3600 + mm·60 + ss is the number of seconds |
| RuntimeText.ConstantSpanInjective | osu.Game/Overlays/Toolbar/DigitalClockDisplay.cs:102 | different spans give different texts |
| RuntimeText.RuntimeLine | osu.Game/Overlays/Toolbar/DigitalClockDisplay.cs:102 | the runtime line starts with "running " and is 16 characters exactly while the running time is below one day |
| RuntimeText.RuntimeLineReadsBack | osu.Game/Overlays/Toolbar/DigitalClockDisplay.cs:102 | after "running " the line parses back to the elapsed milliseconds truncated to whole seconds |
| RuntimeText.NinetySecondsExample | osu.Game/Overlays/Toolbar/DigitalClockDisplay.cs:102 | 90000 ms read "running 00:01:30" |
| RuntimeText.TwentyFiveHoursExample | osu.Game/Overlays/Toolbar/DigitalClockDisplay.cs:102 | 90000000 ms read "running 1.01:00:00" |
| Toolbar.LayoutWidth | osu.Game/Overlays/Toolbar/DigitalClockDisplay.cs:107 | the width is 45 exactly when the runtime line is hidden and the clock is 24-hour, and 66 in the other three cases |
| Toolbar.RuntimeOpacity | osu.Game/Overlays/Toolbar/DigitalClockDisplay.cs:109 | the runtime line's target opacity is 1 exactly when it is shown and 0 exactly when it is hidden |
| Toolbar.DigitalClockDisplay.constructor | osu.Game/Overlays/Toolbar/DigitalClockDisplay.cs:17-79 | a loaded widget: runtime shown, 12-hour mode, null pattern, width 66, opacity 1, empty lines, invariant established |
| Toolbar.DigitalClockDisplay.UpdateMetrics | osu.Game/Overlays/Toolbar/DigitalClockDisplay.cs:105-110 | width and opacity become the policy applied to the options; nothing else changes |
| Toolbar.DigitalClockDisplay.UpdateDisplay | osu.Game/Overlays/Toolbar/DigitalClockDisplay.cs:82-103 | the wall-clock line becomes the priority chain's line and the runtime line the "c" line of the elapsed time, whatever `showRuntime` holds; it never fails and leaves the stored pattern as it was |
| Toolbar.DigitalClockDisplay.SetShowRuntime | osu.Game/Overlays/Toolbar/DigitalClockDisplay.cs:19-30 | the same value changes nothing; a new value is stored, width and opacity follow it, and both lines and the other options are left untouched |
| Toolbar.DigitalClockDisplay.SetUse24HourDisplay | osu.Game/Overlays/Toolbar/DigitalClockDisplay.cs:34-47 | the same value changes nothing; a new value is stored, width and opacity follow it, and both lines are rewritten at once for the given time |
| Toolbar.DigitalClockDisplay.SetPreferTimeFormat | osu.Game/Overlays/Toolbar/DigitalClockDisplay.cs:49-61 | the same value (null included) changes nothing; a new value is stored, width and opacity follow it, and both lines are rewritten at once for the given time |
| Toolbar.RejectedPatternScenario | osu.Game/Overlays/Toolbar/DigitalClockDisplay.cs:53-60 | setting a pattern the host rejects (":") shows "hh:mm:ss tt" at once and keeps ":" stored |
| Toolbar.HideRuntimeScenario | osu.Game/Overlays/Toolbar/DigitalClockDisplay.cs:22-45 | switching to 24-hour shows "HH:mm:ss" at once; hiding the runtime line then gives width 45 and opacity 0 and leaves both lines as they were |

## Left out

- `load` builds the two text sprites, their position, colour and font, and sets
  `AutoSizeAxes` (lines 63-78). This is scene-graph wiring. The constructor
  stands for construction followed by `load`, and being loaded is a
  precondition of every setter through `Valid()`.
- Setters called before `load`: a setter given a new value dereferences the
  text slots, which do not exist yet. A widget in that state is not modelled.
- `FadeTo` animates the opacity over time. Only its target opacity is kept.
- `DateTimeOffset.Now` and `Clock.CurrentTime` become the parameters `now` and
  `elapsedMs` of `UpdateDisplay` and of the two format setters. The `ClockDisplay`
  base class, which schedules the periodic refresh, is not part of this model.
- `DateTimeOffset.ToString(pattern)` for user patterns is a host library call.
  It is the uninterpreted function `format`, so no concrete output of a user
  pattern (such as "HH:mm") can be derived. The model also leaves open what the
  host makes of a null pattern.
- Culture: the ':' time separator and the AM/PM designators are those of the
  invariant culture. The UTC offset of a `DateTimeOffset` is not modelled: an
  `Instant` is the local date and time in ticks since 0001-01-01, so the host
  formatter is a function of the local date and time alone.
- Floating point: `Clock.CurrentTime` is a double in the source. Here it is a
  `nat` of milliseconds, and truncation to whole seconds is integer division.
  `Width` and the opacity are floats in the source and integers here.
- RuntimeText.RuntimeLine: does not model the overflow of the `(int)` cast,
  which would need about 68 years of running time.
- The "c" format's fraction `.fffffff` is not modelled. It is written only for
  spans with a part below one second, and the runtime span is built from whole
  seconds.
- The property getters just return the fields; in the model the fields are
  read directly.
