# SQUiXL touchscreen UI toolkit: a Dafny model

This project models the widget toolkit of a MicroPython touchscreen UI library
(`lib/squixl_ui_EX.py`) and the gesture classifier of its example application
(`ui_example_asyncT.py`), and proves properties of both.

- **Colours.** `rgb_to_565` packs three 8-bit channels into a 16-bit RGB565
  word (module `Color`).
- **Layout arithmetic** (module `Layout`):
  - the padded, half-open hit rectangle `within_bounds`;
  - the label and text-box alignment offsets;
  - the text-box overflow guards;
  - the slider's knob position and touch-to-value map;
  - the progress bar's fill width.

  Python's `int()` on a float truncates toward zero and `//` floors. Both are
  written out explicitly.
- **The screen registry of `UIManager`** (module `Registry`). It is a value:
  a map from screen name to background colour and ordered control list, plus
  the current screen name. It comes with `add_screen`, `set_screen` and
  `add_control`.
- **The widgets and the manager** (module `Toolkit`). These are classes whose
  methods update their fields in place:
  - `UILabel`, `UITextBox`, `UITextOnly`, `UIButton`, `UISlider`,
    `UICheckBox`, `UIDial` and `UIProgressBar`, together as a closed
    `Widget` sum;
  - `UIManager`, which holds the registry in its own fields and implements
    `draw_all` and `process_touch` as loops over the current screen's
    controls.

  The frame buffer is a `Surface` object. Its `log` records one `Fill` per
  screen fill and one `Drawn(widget, look)` per widget repaint, where `look`
  holds the layout that repaint computed. Each control's `manager` and
  `assigned_screen` attributes live in a small `Binding` object owned by the
  control. Application callbacks are recorded, not run: a widget logs each invocation
  and its argument in a `calls` field.
- **`str()` on integers** (module `Decimal`), which `screen_tap` uses to build the
  text `"x:y"`. A parser is given as its inverse.
- **The touch loop of the example application** (modules `Gesture` and `App`):
  - The touch controller is a feed of polls, each a list of contacts. Past
    the end of the feed, every poll reports no contact.
  - `ReadEpisode` is the nested `while n > 0` polling and is proved equal to
    the specification function `EpisodeAt`.
  - `Classify` is the swipe/tap decision.
  - `ScreenSwipe` and `ScreenTap` are the two routes.
  - `TouchCheckStep` is the rest of one pass of the `while True` body once
    its episode is read, `Pass` is a whole pass, and `TouchCheck` runs passes
    over a finite feed; `Outcomes` describes the run it makes.

The swipe test at `ui_example_asyncT.py:289` is written `if yMove or xMove >
tap_move`, which Python reads as `yMove != 0 or xMove > 20`. The test is
asymmetric: any vertical movement swipes, while horizontal movement swipes
only rightward and only beyond 20 px. The model keeps it as written.
`Gesture.IsSwipe` states it, and `Gesture.VerticalJitterSwipes` and
`Gesture.FlatLeftwardMoveIsTap` spell out its consequences.

## Model

| member | source | states |
|---|---|---|
| Color.Rgb565 | lib/squixl_ui_EX.py:34-39 | bits 15..11 of the result are the top 5 bits of red, bits 10..5 the top 6 of green, bits 4..0 the top 5 of blue; the result fits 16 bits |
| Color.Rgb565Injective | lib/squixl_ui_EX.py:34-39 | two colours pack equal exactly when their truncated channels agree |
| Color.Primaries | lib/squixl_ui_EX.py:34-39 | red, green, blue and white pack to 0xF800, 0x07E0, 0x001F and 0xFFFF |
| Layout.Trunc | lib/squixl_ui_EX.py:129 | Python `int()` on a float: the integer part, rounded toward zero |
| Layout.OrFallback | lib/squixl_ui_EX.py:93-94 | `w or self.w`: None and 0 fall back, any other value is kept |
| Layout.WithinBounds | lib/squixl_ui_EX.py:91-96 | a point hits exactly when it lies in the half-open rectangle grown by 10 px (or by the given pad) on every side, with a None or 0 width or height replaced by the control's own |
| Layout.WithinBoundsWider | lib/squixl_ui_EX.py:91-96 | widening the hit width never loses a point (the check box's `w + 6` box contains its plain one) |
| Toolkit.FontOr | lib/squixl_ui_EX.py:122 | a widget's own font when it has one, otherwise the manager's default font |
| Toolkit.Manager.BackColor | lib/squixl_ui_EX.py:105-109 | `get_back_color`: the widget's own background when set, otherwise the background of the current screen |
| Layout.Centered | lib/squixl_ui_EX.py:257-258 | `origin + (extent - size) // 2` leaves equal margins on both sides, up to one pixel, the extra pixel going after the run |
| Layout.CenterOffset | lib/squixl_ui_EX.py:129 | `int(w/2 - tw/2)` centres text narrower than the box to within one pixel, and is at most 0 for wider text |
| Layout.LabelOffset | lib/squixl_ui_EX.py:123-129 | label alignment: 0 for left, for an unknown alignment or for a non-positive width; right-aligned text ends at the label's right edge; centred text uses the truncated centre offset |
| Layout.TextBoxPlacement | lib/squixl_ui_EX.py:179-199 | the text box skips its text exactly when font height plus clearance exceeds the height (TooHigh), or, for positive width, when text width plus clearance reaches the width (TooWide); otherwise the text row is centred, and the offset is the clearance (left), keeps the clearance at the right edge (right), is the centre offset (centre) or is 0 (any other alignment, or a non-positive width) |
| Layout.TextBoxTextInside | lib/squixl_ui_EX.py:179-199 | whenever the text is printed with a non-negative clearance, it lies inside the box vertically and, for positive width, horizontally |
| Layout.Clamp01 | lib/squixl_ui_EX.py:300 | `max(0, min(1, r))` lies in [0, 1], is r on [0, 1], and is 0 or 1 beyond it |
| Layout.ClampValue | lib/squixl_ui_EX.py:323 | `max(min, min(max, v))` lies in [min, max] when min <= max, keeps in-range values, gives min below and max above, and always gives min when max < min |
| Layout.ClampValueIdempotent | lib/squixl_ui_EX.py:323 | clamping a clamped value changes nothing |
| Layout.Relative | lib/squixl_ui_EX.py:299-300 | the relative position lies in [0, 1]; a zero-width range gives 0 instead of dividing by zero; values below or above the range give 0 or 1; in range it is exactly the proportion of the range covered |
| Layout.RelativeMonotone | lib/squixl_ui_EX.py:299-300 | a larger value never has a smaller relative position |
| Layout.Scaled | lib/squixl_ui_EX.py:301 | `int(rel * d)` for rel in [0, 1] lies in [0, d], is 0 at rel 0 and d at rel 1 |
| Layout.ScaledMonotone | lib/squixl_ui_EX.py:301 | a larger relative position never covers fewer pixels |
| Layout.KnobX | lib/squixl_ui_EX.py:299-301 | the 4 px knob stays within the slider's track: at x for a value at or below min (or an empty range), at x + w - 4 for one at or above max |
| Layout.KnobMonotone | lib/squixl_ui_EX.py:299-301 | a larger slider value never moves the knob left |
| Layout.FillWidth | lib/squixl_ui_EX.py:530-532 | the progress fill lies in [0, w - 2]: empty at or below min, full at or above max |
| Layout.FillMonotone | lib/squixl_ui_EX.py:530-532 | a larger progress value never shortens the fill |
| Layout.TrackSpan | lib/squixl_ui_EX.py:308 | the touch map's divisor `w - 1 if w > 1 else 1` is at least 1 |
| Layout.SliderValueAt | lib/squixl_ui_EX.py:308-310 | the value set by a touch lies between min and max (either order), is min at or left of x and max at or right of x + w - 1 |
| Layout.SliderValueRelative | lib/squixl_ui_EX.py:299-310 | drawing reads back from a touch-set value exactly the proportion the touch took along the track |
| Layout.KnobFollowsTouch | lib/squixl_ui_EX.py:299-312 | after a touch on the track, the knob is drawn at or left of the touch and never left of the slider |
| Registry.Registry.AddScreen | lib/squixl_ui_EX.py:559-562 | registers the name with the given colour and an empty control list, leaves every other screen alone, makes the name current only when no screen was current, and keeps the registry invariant |
| Registry.Registry.SetScreen | lib/squixl_ui_EX.py:564-568 | a known name becomes current; an unknown name changes nothing; screens are untouched |
| Registry.Registry.AddControl | lib/squixl_ui_EX.py:570-579 | appends the control when the screen exists and does not hold it yet, otherwise changes nothing; other screens and the current screen are untouched, and no screen ever holds a control twice |
| Registry.FirstScreenStaysCurrent | lib/squixl_ui_EX.py:559-562 | however many screens are added, the first one added stays current (or the previously current one does) |
| Registry.ReAddingEmptiesScreen | lib/squixl_ui_EX.py:560 | adding a screen name again discards the controls it held |
| Registry.AddControlTwice | lib/squixl_ui_EX.py:571-578 | adding the same control to a screen twice has the effect of adding it once |
| Registry.TwoScreensOneControl | lib/squixl_ui_EX.py:570-575 | one control can be added to two different screens |
| Toolkit.Label.constructor | lib/squixl_ui_EX.py:114-116 | stores position, size, text and colours; left alignment, zero offset and zero measured width; unregistered |
| Toolkit.Label.SetAlignment | lib/squixl_ui_EX.py:148-149 | stores the alignment |
| Toolkit.Label.Draw | lib/squixl_ui_EX.py:118-140 | unregistered: nothing changes; otherwise it erases the rectangle the previous text occupied, measures the text in its own font or the manager's, sets the alignment offset, and logs one repaint that prints at the offset on the own or current-screen background |
| Toolkit.Label.SetText | lib/squixl_ui_EX.py:142-146 | stores the text; repaints exactly when the label's screen is current, otherwise leaves the surface and the layout fields alone |
| Toolkit.EraseCoversPrint | lib/squixl_ui_EX.py:133-140 | after a repaint, the rectangle `erase_text` paints over (`Label.Footprint`) is exactly the box of the text just printed: its position, its measured width and the font height |
| Toolkit.TextBox.constructor | lib/squixl_ui_EX.py:159-163 | stores position, size, text, colours and border clearance; left alignment, zero offset; unregistered |
| Toolkit.TextBox.SetAlignment | lib/squixl_ui_EX.py:204-205 | stores the alignment |
| Toolkit.TextBox.Draw | lib/squixl_ui_EX.py:165-201 | unregistered: nothing; otherwise it logs the box, with the text only when it fits; the alignment offset is kept when too high, reset to 0 when too wide, and set to the placement's offset otherwise |
| Toolkit.TextBox.SetText | lib/squixl_ui_EX.py:212-215 | stores the text; repaints (with the offset as above) exactly when its screen is current |
| Toolkit.LinesAt | lib/squixl_ui_EX.py:225-227 | each queued line is printed at its own position and colour on the given background, one print per line |
| Toolkit.TextOnly.constructor | lib/squixl_ui_EX.py:219-223 | starts with an empty line list at the given column, base row and row step |
| Toolkit.TextOnly.Draw | lib/squixl_ui_EX.py:225-227 | logs one repaint printing every queued line on the current screen's background |
| Toolkit.TextOnly.SetText | lib/squixl_ui_EX.py:229-233 | appends the line at the current base row and moves the base down one step, keeping the lines a column one step apart; repaints exactly when its screen is current |
| Toolkit.Button.constructor | lib/squixl_ui_EX.py:239-242 | stores position, size, text, callback and colours; not flashing, no callback runs yet; unregistered |
| Toolkit.Button.Hit | lib/squixl_ui_EX.py:263 | a tap inside the button's rectangle grown by 10 px on every side, and nothing else |
| Toolkit.Button.Draw | lib/squixl_ui_EX.py:244-259 | logs one repaint with fill, border and text colours swapped while flashing, and the label centred in the button |
| Toolkit.Button.ProcessTouch | lib/squixl_ui_EX.py:261-271 | consumes exactly a tap in the padded bounds; the callback runs once with `flash` true and `flash` is false on return; anything else changes nothing |
| Toolkit.Button.SetText | lib/squixl_ui_EX.py:273-276 | stores the text; repaints exactly when its screen is current |
| Toolkit.Slider.constructor | lib/squixl_ui_EX.py:281-290 | stores position, size, range, initial value and callback; not dragging, no callback runs yet; unregistered |
| Toolkit.Slider.Presses | lib/squixl_ui_EX.py:307 | a tap or drag inside the slider's rectangle grown by 10 px on every side |
| Toolkit.Slider.Grabs | lib/squixl_ui_EX.py:305-320 | the slider consumes a drag end exactly while dragging, and any other event exactly when it presses the slider |
| Toolkit.Slider.Draw | lib/squixl_ui_EX.py:292-303 | logs one repaint with the knob at `KnobX` of the current value |
| Toolkit.Slider.ProcessTouch | lib/squixl_ui_EX.py:305-320 | a tap or drag in bounds sets the value from the touch x, starts dragging, repaints, then passes the value to the callback; a drag end is consumed only while dragging and stops it without changing the value; anything else is declined and changes nothing |
| Toolkit.Slider.SetValue | lib/squixl_ui_EX.py:322-324 | stores the clamped value and repaints whether or not its screen is current |
| Toolkit.CheckBox.constructor | lib/squixl_ui_EX.py:329-335 | a square of the given size at (x, y) with its caption, initial state, callback and colours; no callback runs yet; unregistered |
| Toolkit.CheckBox.Hit | lib/squixl_ui_EX.py:361-362 | a tap inside the box widened by 6 px (falling back to the plain size when that width is 0) and grown by 10 px on every side |
| Toolkit.CheckBox.InnerPad | lib/squixl_ui_EX.py:345 | `max(3, w // 5)`: at least 3 and at least `w // 5`, and one of the two |
| Toolkit.CheckBox.Draw | lib/squixl_ui_EX.py:337-355 | logs one repaint with the inner box inset by `max(3, w // 5)` exactly when checked, and the caption 6 px right of the box |
| Toolkit.CheckBox.ProcessTouch | lib/squixl_ui_EX.py:358-368 | consumes exactly a tap in the box widened by 6 px; it toggles `checked`, repaints, then passes the new state to the callback; anything else changes nothing |
| Toolkit.CheckBox.SetChecked | lib/squixl_ui_EX.py:370-372 | stores the state and repaints whether or not its screen is current |
| Toolkit.TapTwice | lib/squixl_ui_EX.py:358-368 | two taps in bounds restore `checked` and report the toggled and then the original state |
| Toolkit.Dial.constructor | lib/squixl_ui_EX.py:377-395 | stores position and radius; no needle value; unregistered |
| Toolkit.Dial.Draw | lib/squixl_ui_EX.py:403-441 | logs one repaint with the stored needle shown exactly when the dial's screen is current |
| Toolkit.Dial.SetValue | lib/squixl_ui_EX.py:443-466 | stores the angle; draws the needle only while the dial's screen is current, otherwise leaves the surface alone |
| Toolkit.ProgressBar.constructor | lib/squixl_ui_EX.py:516-524 | stores position, size, range and initial value; unregistered |
| Toolkit.ProgressBar.Draw | lib/squixl_ui_EX.py:526-535 | logs one repaint with the fill at `FillWidth` of the current value |
| Toolkit.ProgressBar.SetValue | lib/squixl_ui_EX.py:537-540 | stores the clamped value; repaints exactly when its screen is current |
| Toolkit.DrawWidget | lib/squixl_ui_EX.py:585-586 | `ctrl.draw()` of any control appends exactly one repaint of that control to its manager's surface, and leaves the control's interaction state (text, alignment, value, dragging, checked, flash, callback log, needle, queued lines) as it was |
| Toolkit.TouchWidget | lib/squixl_ui_EX.py:592 | `ctrl.process_touch(evt)` returns whether the control consumes the event; labels, text boxes, text-only areas, dials and progress bars never do; a consuming control ends in its reaction state (a button logs one callback run under `flash` and ends unflashed, a pressed slider takes the touch value and drags, a released one stops dragging, a check box toggles and reports) and sliders and check boxes repaint once; a control that declines changes nothing |
| Toolkit.Manager.constructor | lib/squixl_ui_EX.py:553-557 | no screens and no current screen |
| Toolkit.Manager.AddScreen | lib/squixl_ui_EX.py:559-562 | the manager's registry becomes `Registry.AddScreen` of the old one, and the manager invariant holds |
| Toolkit.Manager.SetScreen | lib/squixl_ui_EX.py:564-568 | the registry becomes `Registry.SetScreen` of the old one |
| Toolkit.Manager.AddControl | lib/squixl_ui_EX.py:570-579 | the registry becomes `Registry.AddControl` of the old one; an accepted control gets this manager and the screen name as its registration, and a refused one keeps its registration |
| Toolkit.Manager.DrawAll | lib/squixl_ui_EX.py:581-586 | no current screen: the surface is untouched; otherwise exactly one fill with the current screen's background, then one repaint of each of its controls in insertion order, after whatever the surface held; no registered control's interaction state changes |
| Toolkit.Manager.Paint | lib/squixl_ui_EX.py:585-586 | the redraw loop: appends exactly one repaint of each given control, in order, keeping what the surface held and every control's interaction state |
| Toolkit.Manager.ProcessTouch | lib/squixl_ui_EX.py:588-594 | offers the event to the current screen's controls in insertion order and stops at the first whose answer, taken before the call, consumes it (`FirstConsumer`): it returns true exactly when there is one; the probed controls are the prefix ending at it, or all of them without one; the consumer ends in the state its answer names and the surface gains only its repaint; without a consumer nothing is painted; every control other than the consumer is unchanged, as long as no callback touches a control or the screen (see Left out); no current screen returns false |
| Toolkit.Manager.Offer | lib/squixl_ui_EX.py:591-594 | the dispatch loop: the offered controls are a prefix ending at the first consumer, or all of them when none consumes; the consumer ends in its reaction state, every other control is unchanged, as long as no callback touches a control or the screen (see Left out) |
| Toolkit.Answers | lib/squixl_ui_EX.py:591-594 | one answer per control, in order: none when the control's `process_touch` would decline the event, otherwise the state it would leave the control in |
| Toolkit.FirstConsumer | lib/squixl_ui_EX.py:591-594 | where the loop stops: the position of an answer that consumes with every earlier answer declining, and no position exactly when every answer declines |
| Toolkit.FirstConsumerAt | lib/squixl_ui_EX.py:592-594 | a control that consumes, preceded only by controls that decline, is where the loop stops |
| Decimal.NatToString | ui_example_asyncT.py:264 | `str(n)` for `n >= 0` is a non-empty run of digits with no leading zero |
| Decimal.IntToString | ui_example_asyncT.py:264 | `str(i)` is non-empty, contains no ':', and starts with '-' exactly when i is negative |
| Decimal.NatRoundTrip | ui_example_asyncT.py:264 | the digits of `str(n)` denote n |
| Decimal.IntRoundTrip | ui_example_asyncT.py:264 | parsing `str(i)` gives back i |
| Decimal.IntToStringInjective | ui_example_asyncT.py:264 | different integers print differently |
| App.TapTextRoundTrip | ui_example_asyncT.py:264 | the text `str(x)+':'+str(y)` determines the tapped point: splitting at the first ':' and parsing both halves gives back (x, y) |
| Gesture.Release | ui_example_asyncT.py:279-284 | the first poll at or after i without contact: every poll before it has a contact |
| Gesture.EpisodeAt | ui_example_asyncT.py:272-284 | a pass without contact at its first poll reads one poll; otherwise the episode starts at that poll's first contact and the next pass starts at least two polls later |
| Gesture.EpisodeShape | ui_example_asyncT.py:272-284 | every poll of a touch episode before its release has a contact and the release poll has none; the end point is the first contact of the last poll before the release, or the previous pass's end point when the release comes right after the start |
| Gesture.ReadEpisode | ui_example_asyncT.py:272-284 | the nested polling loops read exactly the episode `EpisodeAt` describes |
| Gesture.OnlyFirstContactRead | ui_example_asyncT.py:275-282 | feeds that agree on which polls have contacts and on those polls' first contacts give the same episode: further contacts and sizes are ignored |
| Gesture.IsSwipe | ui_example_asyncT.py:289 | `yMove or xMove > 20`: any nonzero vertical move is a swipe; with no vertical move, a swipe exactly when the horizontal move exceeds 20 |
| Gesture.Classify | ui_example_asyncT.py:287-310 | a swipe exactly when `IsSwipe` holds on the movement; a tap is at the start point when `tap_time < 400` and at the end point otherwise |
| Gesture.SwipeFollowsMotion | ui_example_asyncT.py:290-299 | each swipe direction implies its movement: down and up need a dominant positive or negative y move, right and left a non-smaller positive or negative x move; a left swipe always has vertical movement |
| Gesture.DominantAxisDecides | ui_example_asyncT.py:290-299 | in the swipe branch, the axis with larger absolute movement and its sign choose the direction; ties go horizontal |
| Gesture.StillContactIsTap | ui_example_asyncT.py:287-304 | a contact that ends where it started is a tap at that point, never a swipe |
| Gesture.FlatLeftwardMoveIsTap | ui_example_asyncT.py:289 | a leftward move with no vertical movement is a tap, however long |
| Gesture.VerticalJitterSwipes | ui_example_asyncT.py:289 | any vertical movement, even one pixel, is a swipe |
| Gesture.MediumAndLongTapsAgree | ui_example_asyncT.py:305-310 | medium and long taps are classified identically |
| Gesture.ClassifyExamples | ui_example_asyncT.py:287-310 | a 60 px downward move swipes down, a 60 px rightward one swipes right, and a 10 px move is a tap on its start when short or on its end when long |
| App.OutcomeOf | ui_example_asyncT.py:271-310 | a pass idles exactly when the first poll has no contact, crashes exactly when a touch episode has no end point, and otherwise swipes or taps as `Classify` decides on its start, end and duration |
| App.TapOutcome | ui_example_asyncT.py:289-310 | a pass taps exactly when the movement is no swipe, and taps the start point exactly for a short tap |
| App.ScreenSwipe | ui_example_asyncT.py:248-258 | left makes "home" current, right makes "w_data" current, each followed by a full redraw (the surface untouched when no screen is current); up and down change nothing, neither the surface nor any control; no control's interaction state changes in any direction |
| App.Redraw | ui_example_asyncT.py:255-258 | `mgr.draw_all()` as `Toolkit.Manager.DrawAll` states it, from a handler that may touch any registered control, keeping every control's interaction state |
| App.ScreenTap | ui_example_asyncT.py:263-266 | `tb_1` ends up showing `str(x)+':'+str(y)`, and exactly one tap event at (x, y) is dispatched to the manager. It is consumed exactly when some control of the current screen answers the tap, judged before `tb_1` is written; the first such control ends in the state its answer names. The surface gains `tb_1`'s repaint showing the new text when its screen is current, then the consumer's repaint. Every other current-screen control apart from `tb_1` is unchanged, and its modifies clause leaves every control of other screens alone. Screens and the current screen are untouched. All of this assumes no callback touches a control or the screen (see Left out) |
| App.ShowTap | ui_example_asyncT.py:264 | `tb_1` holds the tap text, and the surface gains its repaint showing that text exactly when its screen is current; no control's answer to the tap changes, since a text box declines every touch |
| App.TouchCheckStep | ui_example_asyncT.py:285-309 | the rest of one pass, once its episode is read: the outcome is `OutcomeOf` the episode. A swipe goes to `ScreenSwipe`, dispatches nothing, keeps every control's interaction state and the text of `tb_1`; left and right switch screen and redraw it (the surface untouched when no screen is current), up and down change nothing, `tb_1` included. A tap goes to `ScreenTap` with all of its results: the text, the one dispatched tap, the first control answering it ending in its answer's state, the surface gaining the text box's and the consumer's repaints, and every other control (of any screen) apart from `tb_1` unchanged, as long as no callback touches a control or the screen (see Left out). A pass that idles or would crash changes nothing, neither the surface, the current screen nor any control |
| App.Outcomes | ui_example_asyncT.py:269-312 | the outcomes of the passes from a poll to the end of a finite feed, each pass starting where the previous one released and carrying its end point over: empty exactly when the feed is exhausted, and a crash can only be the last outcome |
| App.OutcomesStep | ui_example_asyncT.py:269-312 | one pass peels one outcome off the run: a crash ends it, any other outcome is followed by the outcomes from the next episode on |
| App.TapsOf | ui_example_asyncT.py:262-266 | the events the manager is handed by a run of passes: one `TOUCH_TAP` at the tapped point per tapping pass, every one a tap, at most one per pass |
| App.TapsOfAppend | ui_example_asyncT.py:269-312 | the taps of two runs one after the other are the taps of the first followed by those of the second |
| App.Pass | ui_example_asyncT.py:271-309 | one pass of the `while True` body: the episode read is `EpisodeAt` the start poll, the outcome is its `OutcomeOf`, and the manager is handed exactly that outcome's tap |
| App.TouchCheck | ui_example_asyncT.py:269-312 | runs passes over a finite feed, the next pass starting after the previous one and keeping the last end point when an episode had none of its own: it crashes exactly when `Outcomes` of the whole feed holds a crash, and the manager is handed exactly the taps of those outcomes, in order, and nothing else (so the drag, drag-end, double, long and swipe event kinds never reach a widget) |

## Left out

- `lib/mqtt_ui.py` is not part of this model. It is network and concurrency code: MQTT topics, Wi-Fi and asyncio events.
- The rest of `ui_example_asyncT.py` is not modelled: Wi-Fi, MQTT handlers, demo tasks and the module-level construction of the display, fonts and widgets. `TouchCheck` takes the manager and the text box `tb_1` as parameters.
- Pixel primitives are not modelled: `fill`, `rect`, `rect_round`, `hline`, `ellipse` and `poly`. Neither are `print_text`, CWriter, `WriterDevice` and glyph rendering. Each is a foreign library call. A repaint is one log entry that records the layout it computed.
- `UIDial` geometry is not modelled: `_target_coords`, the tick loops, the needle polygon and `show_txt`'s legend offsets. They are floating-point trigonometry with no state, so a dial's look records only whether and at what angle it shows the needle.
- `UIDial.__init__` passes its colours to `UIControl.__init__` as `w`, `h` and `text`. The model keeps only the dial's position, radius, registration and needle.
- Timing is not modelled: `ticks_ms`, `ticks_diff` and the 100 ms sleeps. The episode duration `tap_time` is an input to `TouchCheckStep`; `TouchCheck` takes it from `tapTimes`, indexed by the poll at which the pass starts.
- `squixl.touch.clear_points()` is not modelled: the feed is read as given. The `while True` loop is modelled as a run over a finite feed that stops when the feed is used up or a pass crashes.
- Callbacks are recorded, not run. Each invocation and its argument is appended to the widget's `calls`; a button's entry is the `flash` state the callback ran under. The example's own callbacks do change state: the brightness and volume sliders call `set_text` on their labels (ui_example_asyncT.py:124, 137), the `Dials` button's `on_dials` switches to `w_data` and redraws (ui_example_asyncT.py:163-165, wired at 173-182), and `Home`'s `screen_home` switches to `home` and redraws (ui_example_asyncT.py:237-243). The frame results of `Toolkit.Manager.ProcessTouch`, `Toolkit.Manager.Offer`, `App.ScreenTap` and `App.TouchCheckStep` (other controls unchanged, the current screen untouched, only the consumer's repaint painted) hold only for callbacks that touch no control, surface or screen.
- `set_font` is not modelled: each widget's font is fixed at construction, either its own or None, meaning the manager's default.
- A widget text of `None` is not modelled, and neither is a colour of `None` that reaches a drawing primitive. Texts are strings, and label and text-box background colours are optional with `get_back_color`'s fallback; a draw that would need the current screen's background when none is current is excluded by its precondition.
- Nothing clamps a slider's or progress bar's initial value, and the model does not either. Only `set_value` clamps.
- Toolkit.Manager.ProcessTouch: without a current screen the source returns the undefined name `false`, which raises NameError; the model returns false.
- Toolkit.Label.SetText: requires a registered label; on an unregistered one the source raises AttributeError at `self.manager.current_screen`.
- Toolkit.TextBox.SetText: requires a registered text box, for the same reason.
- Toolkit.TextOnly.SetText: requires a registered text-only area, for the same reason (`UITextOnly` never even initialises `manager`).
- Toolkit.Button.SetText: requires a registered button, for the same reason.
- Toolkit.Dial.SetValue: requires a registered dial, for the same reason; `Toolkit.Dial.Draw` likewise, since `UIDial.draw` has no unregistered guard.
- Toolkit.ProgressBar.SetValue: requires a registered progress bar, for the same reason.
- App.TouchCheckStep: an episode whose end point was never assigned raises UnboundLocalError in the source; the model reports it as the `Crashed` outcome and changes nothing.
- Python floats are modelled as exact reals. `Layout.Relative`, `Layout.SliderValueAt`, `Layout.KnobX` and `Layout.FillWidth` compute in floating point in the source, so `Layout.SliderValueRelative`'s exact read-back holds only in real arithmetic; with IEEE rounding, `int()` can land one pixel lower.
- Other asyncio tasks are not modelled: `demo_dial2`, `demo_cpu_pb`, the MQTT handlers and `main`'s `mgr.set_screen('home')` can run at `touch_check`'s `await` points. `TouchCheck` assumes nothing else changes the manager or the widgets between its polls.
