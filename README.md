# ShowLyrics core in Dafny

This project models two independent parts of ShowLyrics, a desktop lyrics viewer written in Python on Qt, and proves properties of both.

1. **`LyricTime`** (`src/models/lyrics/data_types.py`) is a playback position in minutes, seconds and milliseconds. The model covers:
   - its range check;
   - its conversions to and from a millisecond count;
   - the `+`, `-`, `==` and `<` operators;
   - `strptime`, a hand-written parser. It walks a format string and a time string in lockstep. It knows the placeholders `%M`, `%S`, `%m` and `%%`.
2. **The frameless-window chrome.** This is written three times:
   - `src/ui/generic_view_components.py`: resizing and moving are handed to the window system;
   - `ui/custom_widgets.py`: string colours and a style sheet, with a hand-made drag;
   - `ui/customWidgets.py`: a fixed five-pixel border, with the same drag.

   The model covers:
   - the border-style value object, with its clamping and its colour/fallback rule;
   - the border hit-test;
   - the border-to-cursor table;
   - the drag-geometry step;
   - the event handlers, which update `resizeActive`, `offendingBorder` and `systemMove`.

Modules and files:

| file | module | models |
|---|---|---|
| `wrappers.dfy` | `Wrappers` | `Option` and `Result` |
| `decimal.dfy` | `Decimal` | ASCII digits, digit-run values, `str(n)` for naturals |
| `lyric_time.dfy` | `LyricTimes` | the `LyricTime` value, `validate_time`, the millisecond conversions, the operators |
| `strptime.dfy` | `TimeParsing` | `strptime`: a reference function `Scan`/`Parse`, and the imperative loop `Strptime` and `FindNonNumericIdx` proved equal to it |
| `strptime_laws.dfy` | `TimeParsingLaws` | round trips and error laws of `strptime`, over a token view of format strings |
| `chrome.dfy` | `Chrome` | what the three widget files share: the flag, hit-test, cursor table, drag step and manual event step |
| `generic_view_components.dfy` | `GenericViewComponents` | `FramelessRoundedBorderWidget`, `ResizableWidget`, `QMovableResizableWidget` |
| `custom_widgets.dfy` | `CustomWidgets` | `ResizableFramelessWidget` of `ui/custom_widgets.py` |
| `fixed_border_widgets.dfy` | `FixedBorderWidgets` | `ResizableFramelessWidget` of `ui/customWidgets.py` |

Modelling choices:
- **The border flag.** An `enum.Flag` value is modelled as the set of its bits, `set<Bit>`.
  - `UNSET` is its own bit, `{Unset}`, as in the enumeration.
  - The hit-test starts from `UNSET`, adds the matched edges and removes the `UNSET` bit with `^` when an edge matched. This is what the code does.
- **Qt calls become fields and inputs.**
  - `setCursor`/`unsetCursor` write a `cursor: Option<CursorShape>` field.
  - `setGeometry` writes a `geometry` field.
  - `startSystemResize` and `startSystemMove` become boolean inputs to the event methods: what the window system answered.
- **Events.** An event is a datatype: mouse press, release, move, double click, window activation, paint, or anything else.
- **A reference function beside each class.** Each class event handler has a pure step function beside it: `ManualStep`, `ResizeStep`, `MovableStep` or `CustomStep`. The method's `ensures` equates the new fields and the return value with that step. The properties are then lemmas about the step.
- **Argument types.** The generic `BorderStyle` checks its arguments' types at run time, so its keyword arguments are a map from key to a tagged Python value. A `bool` counts as an `int` there, as `isinstance` says.

Where the code and the documented intent differ, the model follows the code. The one exception is the `to_milliseconds` cache slot: `+`, `-` and `<` are modelled over the formula of `to_milliseconds`, and the as-written slot read is modelled beside them (see "## Findings").
- **Only a move returns True.** In `ui/custom_widgets.py` and `ui/customWidgets.py`, `event` returns `True` only for a mouse move. Press, release and other mouse events fall through to `return False`.
- **Window activation (`src/ui/generic_view_components.py`).** `ResizableWidget.event` resets `offendingBorder` to `UNSET` only when a resize was active. A release clears `resizeActive` but keeps `offendingBorder`.
- **Repainting.** In `ui/custom_widgets.py` the paint branch of `event` calls `_custom_repaint`, which exists there only as a comment. A paint event therefore raises `AttributeError`; the model returns that as an outcome.
- **Formats without placeholders.** The `strptime` docstring says such a format raises. It does not: a purely literal match returns 0:0.0 (`TimeParsingLaws.LiteralOnlyFormat`).
- **A repeated placeholder.** A second `%M`, `%S` or `%m` raises a "multiple instances" `ValueError` inside the `try`. The `except ValueError` turns it into the generic "does not match" error, and the model returns that error.

## Model

| member | source | states |
|---|---|---|
| LyricTimes.New | src/models/lyrics/data_types.py:33-39 | the constructor succeeds exactly for 0..59 minutes, 0..59 seconds and 0..999 ms, and then holds those fields; otherwise it raises the out-of-range error |
| LyricTimes.ToMilliseconds | src/models/lyrics/data_types.py:197 | a valid time is a millisecond count in [0, 3 600 000) |
| LyricTimes.FromMilliseconds | src/models/lyrics/data_types.py:200-209 | every count converts to a valid time |
| LyricTimes.FromToRoundTrip | src/models/lyrics/data_types.py:193-209 | converting a valid time to milliseconds and back gives the same time |
| LyricTimes.ToFromRoundTrip | src/models/lyrics/data_types.py:193-209 | converting a count n ≥ 0 to a time and back gives n modulo one hour |
| LyricTimes.ToMillisecondsInjective | src/models/lyrics/data_types.py:193-198 | distinct valid times have distinct millisecond counts |
| LyricTimes.Add | src/models/lyrics/data_types.py:47-52 | `+` succeeds exactly for a time operand (TypeError otherwise), and its count is the sum modulo one hour |
| LyricTimes.AddCommutative | src/models/lyrics/data_types.py:47-52 | a + b == b + a |
| LyricTimes.AddZero | src/models/lyrics/data_types.py:47-52 | 0:0.0 is the identity of `+` |
| LyricTimes.AddAssociative | src/models/lyrics/data_types.py:47-52 | (a + b) + c == a + (b + c) |
| LyricTimes.Sub | src/models/lyrics/data_types.py:54-59 | `-`, with the sum of line 57 and the formula of `to_milliseconds`, succeeds exactly for a time operand and raises TypeError otherwise |
| LyricTimes.SubIsAdd | src/models/lyrics/data_types.py:54-59 | `-` with the sum of line 57 gives exactly what `+` gives, for every operand |
| LyricTimes.SubCounterexample | src/models/lyrics/data_types.py:54-59 | 0:2.0 - 0:1.0 evaluates to 0:3.0 |
| LyricTimes.SubCorrected | src/models/lyrics/data_types.py:54-59 | the intended `-`: its count is the absolute difference of the two counts |
| LyricTimes.SubCorrectedThenAdd | src/models/lyrics/data_types.py:47-59 | with the intended `-`, (a - b) + b == a whenever b is not later than a |
| LyricTimes.Equals | src/models/lyrics/data_types.py:211-219 | `==` holds exactly for a time operand with the same three fields |
| LyricTimes.Less | src/models/lyrics/data_types.py:221-230 | `<` is defined for time and int operands and raises TypeError for every other operand |
| LyricTimes.EqualsExcludesLess | src/models/lyrics/data_types.py:211-230 | equal times are not less than each other either way |
| LyricTimes.Trichotomy | src/models/lyrics/data_types.py:211-230 | on valid times exactly one of a < b, b < a, a == b holds |
| LyricTimes.LessThanInt | src/models/lyrics/data_types.py:225-226 | a valid time is never less than an int ≤ 0 and always less than an int ≥ 3 600 000 |
| LyricTimes.ToMillisecondsAsWritten | src/models/lyrics/data_types.py:193-198 | `to_milliseconds` as written raises AttributeError exactly when the cache slot is unassigned |
| LyricTimes.CacheReadFails | src/models/lyrics/data_types.py:31-39 | the object the constructor builds raises AttributeError on its first `to_milliseconds` call |
| LyricTimes.Construct | src/models/lyrics/data_types.py:30-39 | the constructor as written succeeds exactly when `validate_time` passes, and leaves the cache slot unassigned |
| LyricTimes.FreshOperatorsRaise | src/models/lyrics/data_types.py:47-59 | on a newly constructed time, `+` and `-` raise TypeError for a non-time operand and AttributeError for a time operand; `<` (lines 221-230) raises TypeError for an operand that is neither a time nor an int, and AttributeError otherwise |
| LyricTimes.FilledOperatorsAgree | src/models/lyrics/data_types.py:47-59 | when every cache slot holds the formula's value, the written `+`, `-` and `<` (lines 221-230) equal `Add`, `Sub` and `Less` for every operand |
| TimeParsing.Set | src/models/lyrics/data_types.py:128-150 | storing a field value sets that field and leaves the other two alone |
| TimeParsing.Record | src/models/lyrics/data_types.py:128-153 | storing a value is refused exactly when that field was already read |
| TimeParsing.ReadField | src/models/lyrics/data_types.py:124-166 | a successful field read consumes at least one and at most all remaining characters |
| TimeParsing.Parse | src/models/lyrics/data_types.py:172-184 | every time `strptime` returns is valid |
| TimeParsing.FindNonNumericIdx | src/models/lyrics/data_types.py:82-89 | the result is -1 or an index ≥ start, and it marks the end of the maximal ASCII-digit run from start (-1 when the run reaches the end) |
| TimeParsing.ScanAt | src/models/lyrics/data_types.py:90-166 | one loop iteration at positions ti and fi does what the reference walk does on the remaining strings |
| TimeParsing.ReadPlaceholderValue | src/models/lyrics/data_types.py:124-166 | the digit-run read of the loop succeeds exactly when the reference read does, and ends at the same index with the same fields |
| TimeParsing.Strptime | src/models/lyrics/data_types.py:77-184 | the `while` loop with its final checks returns exactly `Parse(timeStr, format)` |
| TimeParsingLaws.PlaceholderText | src/models/lyrics/data_types.py:75 | each field has a valid two-character placeholder other than `%%`, and it maps back to that field |
| TimeParsingLaws.Fill | src/models/lyrics/data_types.py:128-153 | after reading a format's placeholders, each field holds the rendered value when its placeholder occurs, and otherwise what it held before |
| TimeParsingLaws.Expected | src/models/lyrics/data_types.py:172-184 | the time a round trip produces is valid |
| TimeParsingLaws.ScanRender | src/models/lyrics/data_types.py:90-170 | the walk reads a rendered time back through a well-formed, separated, duplicate-free format |
| TimeParsingLaws.RenderRoundTrip | src/models/lyrics/data_types.py:77-184 | parsing a time rendered by a well-formed format that has separated, distinct placeholders gives that time's fields for the placeholders present and 0 for the rest |
| TimeParsingLaws.DefaultTokensShape | src/models/lyrics/data_types.py:62 | the default format `%M:%S.%m` is well formed, separated and free of duplicates |
| TimeParsingLaws.DefaultFormatRoundTrip | src/models/lyrics/data_types.py:62-184 | parsing a valid time rendered as minutes:seconds.ms with the default format gives it back |
| TimeParsingLaws.LiteralPrefix | src/models/lyrics/data_types.py:93-101 | a literal prefix shared by both strings is consumed and nothing else changes |
| TimeParsingLaws.LiteralMismatch | src/models/lyrics/data_types.py:93-98 | a literal format character that differs from the time character raises "does not match" |
| TimeParsingLaws.UnknownPlaceholderFails | src/models/lyrics/data_types.py:103-110 | a `%x` outside the four placeholders raises the unknown-placeholder error |
| TimeParsingLaws.DanglingPercentFails | src/models/lyrics/data_types.py:167-170 | a `%` at the end of the format raises the dangling-`%` error |
| TimeParsingLaws.PercentMatchesOne | src/models/lyrics/data_types.py:112-121 | `%%` consumes exactly one literal `%` and fails on anything else |
| TimeParsingLaws.MaximalRun | src/models/lyrics/data_types.py:124-128 | a field placeholder consumes the whole maximal digit run and stores its value |
| TimeParsingLaws.EmptyRunFails | src/models/lyrics/data_types.py:124-166 | a field placeholder with no digit under it raises "does not match" |
| TimeParsingLaws.FieldReadTwiceFails | src/models/lyrics/data_types.py:130-153 | a field placeholder for a field already read raises "does not match" |
| TimeParsingLaws.LeftoversFail | src/models/lyrics/data_types.py:172-182 | when only one of the two strings is used up, parsing fails |
| TimeParsingLaws.LiteralOnlyFormat | src/models/lyrics/data_types.py:172-184 | a format with no `%` that matches the time string exactly gives 0:0.0 |
| TimeParsingLaws.TokenizeFormatText | src/models/lyrics/data_types.py:90-121 | reading the text of a well-formed token list as a format gives the token list back |
| TimeParsingLaws.TokenizeSound | src/models/lyrics/data_types.py:90-121 | a format that reads as tokens is the text of those tokens |
| TimeParsingLaws.ScanSuccessTokenizes | src/models/lyrics/data_types.py:102-170 | a format that some time string matches has no unknown or dangling `%` |
| TimeParsingLaws.ScanSuccessShape | src/models/lyrics/data_types.py:124-182 | a successful walk meets each field's placeholder at most once; it sets exactly the fields whose placeholder occurs, each unset before |
| TimeParsingLaws.ParseSuccessShape | src/models/lyrics/data_types.py:172-182 | on success the format has no repeated placeholder, and every field whose placeholder is absent is 0 |
| TimeParsingLaws.RepeatedPlaceholderFails | src/models/lyrics/data_types.py:128-153 | a format that repeats a field placeholder never parses |
| TimeParsingLaws.DefaultFormatParse | src/models/lyrics/data_types.py:62-184 | with the default format, `m:s.ms` made of digit runs parses to the constructor applied to their values |
| TimeParsingLaws.DefaultFormatExample | src/models/lyrics/data_types.py:62-184 | "50:20.09" parses to 50 minutes, 20 seconds, 9 ms |
| TimeParsingLaws.OutOfRangeExample | src/models/lyrics/data_types.py:184-191 | "60:00.0" fails the range assertion instead of returning |
| Chrome.BorderValues | src/ui/generic_view_components.py:202-212 | the well-formed flag values are exactly the nine enumeration values UNSET, the four edges and the four corners |
| Chrome.HoveredBorder | ui/custom_widgets.py:248-264 | the hit-test always yields one of the nine values: never LEFT with RIGHT, TOP with BOTTOM, or UNSET with an edge |
| Chrome.HitTest | src/ui/generic_view_components.py:344-362 | for t ≥ 0: LEFT iff x ≤ t; RIGHT iff not LEFT and x ≥ w − t; TOP and BOTTOM likewise; UNSET iff strictly inside the ring |
| Chrome.CornerIsUnion | src/ui/generic_view_components.py:351-362 | a position on two bands of different axes gives the corner that is their union: TOPLEFT, TOPRIGHT, BOTTOMLEFT or BOTTOMRIGHT |
| Chrome.CursorByAxes | src/ui/generic_view_components.py:214-223 | the cursor table gives vertical for TOP/BOTTOM, horizontal for LEFT/RIGHT, BDiag for TOPRIGHT/BOTTOMLEFT, FDiag for TOPLEFT/BOTTOMRIGHT, and no cursor for UNSET |
| Chrome.HoverCursor | src/ui/generic_view_components.py:336-342 | after the hit-test the cursor is unset exactly strictly inside the border ring |
| Chrome.DragEdges | src/ui/generic_view_components.py:282-299 | edges not in the border keep their place; TOP before BOTTOM and LEFT before RIGHT move to the cursor while the opposite edge stays (up to the clamp) |
| Chrome.DragExample | src/ui/generic_view_components.py:282-299 | (100,100,400,180) dragged by BOTTOMRIGHT to (520,300) becomes (100,100,420,200) |
| Chrome.DragIdempotent | src/ui/generic_view_components.py:282-299 | a second drag step to the same cursor position changes nothing |
| Chrome.ManualStepConsistent | ui/custom_widgets.py:273-331 | the hand-drag event handler never leaves a resize active without a border |
| Chrome.ManualStepHandled | ui/customWidgets.py:115-166 | `event` returns True exactly for a mouse move |
| Chrome.ManualPressRelease | ui/customWidgets.py:122-130 | a press arms a resize exactly on the border ring and remembers the hovered border; a release clears the resize and resets the border to UNSET |
| Chrome.ManualMoveSeparation | ui/custom_widgets.py:290-326 | a move while idle changes only the cursor and a move while resizing only the geometry; nothing else moves the widget |
| GenericViewComponents.StyleAfter | src/ui/generic_view_components.py:80-115 | a call with a badly typed argument changes nothing; a valid style (thickness ≥ 3, radius ≥ 0) stays valid; a set colour stays set (the values themselves: `SizeRule`, `ColorRule`) |
| GenericViewComponents.ColorRule | src/ui/generic_view_components.py:102-115 | a given colour always wins; otherwise a set colour stays and only an unset colour takes the fallback |
| GenericViewComponents.SizeRule | src/ui/generic_view_components.py:98-102 | once the types check, a passed thickness becomes max(3, it) and a passed radius max(0, it); a size not passed keeps its old value |
| GenericViewComponents.StyleAfterIdempotent | src/ui/generic_view_components.py:80-115 | applying the same arguments twice equals applying them once |
| GenericViewComponents.MergeCopies | src/ui/generic_view_components.py:89-94 | merging from a valid style that has a colour copies its thickness, radius and colour |
| GenericViewComponents.MergeUnsetColor | src/ui/generic_view_components.py:89-94 | merging from a style without a colour keeps a set colour and otherwise takes the fallback |
| GenericViewComponents.MergeSizes | src/ui/generic_view_components.py:89-102 | merging from any style, with or without a colour, gives its thickness raised to 3 and its radius raised to 0 |
| GenericViewComponents.SetBorderStyleDefaults | src/ui/generic_view_components.py:175-189 | with its default arguments `setBorderStyle` resets thickness to 3 and radius to 0, and leaves a colour |
| GenericViewComponents.BadTypeIgnored | src/ui/generic_view_components.py:68-87 | a colour passed as the thickness leaves the style unchanged |
| GenericViewComponents.BorderStyle.constructor | src/ui/generic_view_components.py:59-66 | a new style is the default (3, 0, no colour) updated by its arguments |
| GenericViewComponents.BorderStyle.ArgTypeCheck | src/ui/generic_view_components.py:68-78 | the loop over the arguments answers whether every argument has its expected type |
| GenericViewComponents.BorderStyle.SetStyle | src/ui/generic_view_components.py:80-115 | the fields become `StyleAfter` of the old fields |
| GenericViewComponents.FramelessRoundedBorderWidget.SetBorderStyle | src/ui/generic_view_components.py:175-189 | the style becomes `StyleAfter` of the arguments `setBorderStyle` passes, with the palette colour as fallback |
| GenericViewComponents.FramelessRoundedBorderWidget.Event | src/ui/generic_view_components.py:191-198 | paint requests are taken, everything else goes on to the base class |
| GenericViewComponents.NativeEdges | src/ui/generic_view_components.py:225-234 | every border but UNSET has native edges, and they are its own edges |
| GenericViewComponents.ResizeStepConsistent | src/ui/generic_view_components.py:301-334 | the handler keeps the resize state consistent and never moves the widget itself |
| GenericViewComponents.ResizePress | src/ui/generic_view_components.py:308-320 | with resizing enabled, a press arms a resize exactly on the ring (thickness + 3), remembers the border, and is consumed exactly when the native resize starts |
| GenericViewComponents.ResizeEnds | src/ui/generic_view_components.py:322-332 | a release ends the resize and keeps the border; window activation ends it, and resets the border only when a resize was active |
| GenericViewComponents.ResizeDisabled | src/ui/generic_view_components.py:303-304 | with resizing disabled a mouse event changes nothing and is passed on |
| GenericViewComponents.OnlyPressConsumed | src/ui/generic_view_components.py:301-334 | only an enabled press can be consumed; other non-mouse events besides window activation change nothing |
| GenericViewComponents.ResizableWidget.SetEnableResize | src/ui/generic_view_components.py:249-251 | a `bool` argument sets the flag; anything else enables resizing |
| GenericViewComponents.ResizableWidget.IsCursorInBorder | src/ui/generic_view_components.py:364-371 | true exactly when the padded hit-test is not UNSET |
| GenericViewComponents.ResizableWidget.PressBranch | src/ui/generic_view_components.py:308-320 | a press arms a resize on the border under the cursor and is consumed exactly when a native edge exists and the window system starts the resize |
| GenericViewComponents.ResizableWidget.Event | src/ui/generic_view_components.py:301-334 | the new fields and the dispatch are those of the resize step, with the padded thickness |
| GenericViewComponents.ResizableWidget.FallbackMouseMove | src/ui/generic_view_components.py:261-299 | a move does the manual drag step (cursor while idle, geometry while resizing); other events change nothing |
| GenericViewComponents.MoveExcludesResize | src/ui/generic_view_components.py:379-396 | a move starts only on a left press off the border, consuming it and leaving the resize state untouched; a press on the border never starts one and arms a resize when enabled |
| GenericViewComponents.MoveStarts | src/ui/generic_view_components.py:379-388 | a left press off the border with no move under way starts a move exactly when `startSystemMove` succeeds; then it is consumed and the resize fields are unchanged |
| GenericViewComponents.MoveEnds | src/ui/generic_view_components.py:392-394 | window activation clears the move flag; no other event does |
| GenericViewComponents.MovableStepConsistent | src/ui/generic_view_components.py:379-396 | the movable widget keeps the resize state consistent |
| GenericViewComponents.QMovableResizableWidget.Event | src/ui/generic_view_components.py:379-396 | the move flag, resize fields and dispatch are those of the movable step |
| CustomWidgets.StripFixed | ui/custom_widgets.py:114-120 | a string is its own `strip()` exactly when it is empty or starts and ends with non-whitespace |
| CustomWidgets.StripIdempotent | ui/custom_widgets.py:114-120 | stripping twice is stripping once |
| CustomWidgets.StripEmpty | ui/custom_widgets.py:114-120 | only an all-whitespace string strips to "" |
| CustomWidgets.StyleAfter | ui/custom_widgets.py:92-123 | a valid style (thickness ≥ 5, radius ≥ 5, stripped colour) stays valid; a set colour stays set (the values themselves: `SizeRule`, `ColorRule`) |
| CustomWidgets.ColorRule | ui/custom_widgets.py:113-123 | a non-empty stripped colour always wins; otherwise a set colour stays and only an unset colour takes the stripped fallback |
| CustomWidgets.SizeRule | ui/custom_widgets.py:106-110 | without a `BorderStyle` in `obj`, a passed thickness or radius becomes max(5, it); a size not passed keeps its old value |
| CustomWidgets.StyleAfterIdempotent | ui/custom_widgets.py:92-123 | applying the same arguments twice equals applying them once |
| CustomWidgets.MergeCopies | ui/custom_widgets.py:97-103 | merging from a valid style with a colour copies it exactly |
| CustomWidgets.MergeSizes | ui/custom_widgets.py:98-110 | merging from any style, with or without a colour, gives its thickness and radius raised to 5 |
| CustomWidgets.SetBorderStyleDefaults | ui/custom_widgets.py:201-215 | the default arguments clamp thickness and radius to 5 and keep a set colour, else take the stripped background colour |
| CustomWidgets.StylesheetInjective | ui/custom_widgets.py:130-142 | the style sheet determines the radius and the colour, so the colour part appears exactly for a non-empty colour |
| CustomWidgets.BgColor | ui/custom_widgets.py:196-199 | the background colour string is non-empty and already stripped |
| CustomWidgets.BorderStyle.constructor | ui/custom_widgets.py:82-90 | a new style is the default (5, 5, "") updated by its arguments |
| CustomWidgets.BorderStyle.SetStyle | ui/custom_widgets.py:92-123 | the fields become `StyleAfter` of the old fields |
| CustomWidgets.BorderStyle.StylesheetOf | ui/custom_widgets.py:130-142 | the string built step by step is `Stylesheet` of the fields |
| CustomWidgets.CustomStepOutcome | ui/custom_widgets.py:273-331 | paint raises AttributeError; otherwise `event` returns True exactly for a mouse move; the state stays consistent |
| CustomWidgets.ResizableFramelessWidget.SetBorderStyle | ui/custom_widgets.py:201-226 | the style is updated, then all four margins of the layout (or of the widget without one) become max(5, thickness) |
| CustomWidgets.ResizableFramelessWidget.Event | ui/custom_widgets.py:273-331 | the new fields and the outcome are the hand-drag step with the style's thickness, and paint raises |
| FixedBorderWidgets.MarginsFor | ui/customWidgets.py:66-69 | all four margins equal max(5, thickness) |
| FixedBorderWidgets.FixedHitTest | ui/customWidgets.py:90-106 | with the fixed thickness 5, an edge is reported exactly within five pixels of it, and UNSET exactly inside (5, w−5)×(5, h−5) |
| FixedBorderWidgets.ResizableFramelessWidget.SetBorderThickness | ui/customWidgets.py:66-69 | only the margins change; the hit-test thickness stays 5 |
| FixedBorderWidgets.ResizableFramelessWidget.Event | ui/customWidgets.py:115-166 | the new fields and the return value are the hand-drag step with thickness 5, and the widget stays valid |

## Left out

- LyricTimes.Add, LyricTimes.Sub, LyricTimes.Less: these compute over the formula of `to_milliseconds` (src/models/lyrics/data_types.py:197), with no `__ms_cached` slot. As written, every call of these operators with an operand of the right type raises AttributeError at line 195 (see "## Findings"). `AddAsWritten`, `SubAsWritten` and `LessAsWritten` model that behaviour, and `FilledOperatorsAgree` ties them to these three.
- TimeParsing.ReadField: a digit run of any length is read. CPython's `int()` refuses a decimal string longer than its integer digit limit (4300 digits by default, settable by the interpreter's `int_max_str_digits` option), and the `except ValueError` would turn that into "does not match". The limit is interpreter configuration, so the model does not take it. For a longer run the model reads its value: the parse then fails with `OutOfRange`, or succeeds when leading zeros pad a small value.
- Painting: `_custom_repaint`, `paintEvent`, `__customPaintEvent` and the `QPainter` calls. For the paint branch only its outcome is modelled.
- The window system: `startSystemResize` and `startSystemMove` are inputs saying whether the call succeeded.
- `window()` and `windowHandle()` returning `None`: not modelled. A widget's `window()` is never `None`.
- `setCursor` and `setGeometry`: they are field writes, with no effect on the screen modelled.
- Floating-point mouse positions: modelled as integers.
- `int(ms / 1000)` in `convert_from_milliseconds`: modelled as exact truncation toward zero. Float rounding for counts beyond 2^53 is not modelled.
- QColor truthiness (generic variant): every `QColor` counts as true in a condition, so only `None` and an absent colour count as unset.
- Badly typed arguments in `ui/custom_widgets.py`: a non-string colour would raise `AttributeError` in `strip`, and a non-number size `TypeError` in `max`. This variant's arguments are typed as strings and ints there.
- `if self.layout()` in `ui/custom_widgets.py`: a layout counts as present whenever one is set.
- Logging: the `print` in `setBorderStyle` and the `qDebug` message for bad argument types produce no output in the model.
- The wording of error messages: errors are modelled by kind (`TimeError`), not by text.
- `__str__` and `__repr__` of `LyricTime`: string formatting only.
- Other data classes: `LRCEntry`, `TrackDetails` and `CustomDataClass`.
- `isResizeEnabled` and `isResizeDisabled`: plain reads of the `resizeEnabled` field.
- `fadeIn`/`fadeOut`, the title bar, labels, layouts, colour picker, image loader and the other view classes: Qt presentation with no state logic of the chrome.
- `ClickableSvgWidget` and the other modules of the application: the view models, the lyrics providers, fonts and icons.
- Python's `str.strip`: modelled with Python's whitespace set, as code points; no other Unicode processing is involved.

## Findings

| source | as written | input that shows it | evidently intended | confidence | as-written member | corrected member |
|---|---|---|---|---|---|---|
| src/models/lyrics/data_types.py:54-59 | `__sub__` converts `abs(self_ms + other_ms)`, a sum | 0:2.0 - 0:1.0 gives 0:3.0 | the absolute difference, 0:1.0 | not executed | LyricTimes.SubCounterexample | LyricTimes.SubCorrected |
| src/models/lyrics/data_types.py:193-198 | `to_milliseconds` first reads the `__ms_cached` slot, which nothing assigns, so the read raises `AttributeError` | `LyricTime(0, 0, 0).to_milliseconds()`, and with it every `+`, `-` and `<` | return `mins*60000 + secs*1000 + ms`, caching it | not executed | LyricTimes.CacheReadFails | LyricTimes.ToMilliseconds |
