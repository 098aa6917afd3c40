/**
 * The widget toolkit of lib/squixl_ui_EX.py: touch events, the widget classes with
 * their interaction state, and `UIManager`, which owns the screens, the current
 * screen pointer, redraw and touch dispatch.
 *
 * The frame buffer is a `Surface` whose `log` records abstract paint commands:
 * one `Fill` per full-screen fill and one `Drawn(widget, look)` per widget
 * repaint, where `look` holds the layout that repaint computed (text positions,
 * knob x, fill width, ...).  Pixel primitives and glyph rendering are not modelled.
 * Application callbacks are recorded, not run: a widget with a callback logs each invocation
 * and its argument in its own `calls` field.
 *
 * The two back-references that `UIManager.add_control` writes into a control
 * (`manager` and `assigned_screen`) live in a per-widget `Binding` object, so that
 * registration and painting touch disjoint parts of the heap.
 */
module Toolkit {
  import opened Wrappers
  import opened Layout
  import opened Registry

  type Color = int

  /** Touch event kinds, TOUCH_TAP (0) .. TOUCH_UNKNOWN (9) in the source. */
  datatype TouchKind =
    | Tap | Double | Long | SwipeUp | SwipeRight | SwipeDown | SwipeLeft | Drag | DragEnd | Unknown

  /** `TouchEvent(event_type, x, y)`. */
  datatype TouchEvent = TouchEvent(kind: TouchKind, x: int, y: int)

  /** The two font metrics the toolkit reads: glyph height and widest glyph. */
  datatype Font = Font(height: int, maxWidth: int)

  /** A widget's own font when it has one, else the manager's default font. */
  function FontOr(own: Option<Font>, fallback: Font): (f: Font)
    ensures own.Some? ==> f == own.value
    ensures own.None? ==> f == fallback
  {
    if own.Some? then own.value else fallback
  }

  datatype Rect = Rect(x: int, y: int, w: int, h: int)

  /** A string printed at (x, y) in foreground `fg` on background `bg`. */
  datatype TextAt = TextAt(x: int, y: int, text: string, fg: Color, bg: Color)

  /** One line queued by `UITextOnly.set_text`: (text, x, y, font, colour). */
  datatype Line = Line(text: string, x: int, y: int, font: Font, color: Color)

  /** What one widget repaint put on the surface. */
  datatype Look =
    | LabelLook(erased: Rect, at: TextAt)
    | TextBoxLook(box: Rect, text: Option<TextAt>)
    | LinesLook(lines: seq<TextAt>)
    | ButtonLook(fill: Color, border: Color, at: TextAt)
    | SliderLook(knobX: int)
    | CheckBoxLook(inner: Option<Rect>, caption: TextAt)
    | ProgressLook(fillWidth: int)
    | DialLook(needle: Option<real>)
    | NeedleLook(angle: real)

  datatype Op = Fill(color: Color) | Drawn(w: Widget, look: Look)

  /** The shared frame buffer, as the sequence of paint commands it received. */
  class Surface {
    var log: seq<Op>

    constructor()
      ensures log == []
    {
      log := [];
    }
  }

  /** A control's registration: the `manager` and `assigned_screen` attributes. */
  class Binding {
    var manager: Manager?
    var assignedScreen: Option<string>

    constructor()
      ensures manager == null && assignedScreen == None
    {
      manager := null;
      assignedScreen := None;
    }
  }

  /** The surface a widget paints on: its manager's, or none while unregistered. */
  function CanvasOf(b: Binding): set<Surface>
    reads b
  {
    if b.manager == null then {} else {b.manager.buf}
  }

  /** The closed set of control kinds the toolkit offers. */
  datatype Widget =
    | LabelW(lab: Label)
    | TextBoxW(textBox: TextBox)
    | TextOnlyW(textOnly: TextOnly)
    | ButtonW(button: Button)
    | SliderW(slider: Slider)
    | CheckBoxW(checkBox: CheckBox)
    | DialW(dial: Dial)
    | ProgressBarW(bar: ProgressBar)

  function Obj(w: Widget): object {
    match w
    case LabelW(c) => c
    case TextBoxW(c) => c
    case TextOnlyW(c) => c
    case ButtonW(c) => c
    case SliderW(c) => c
    case CheckBoxW(c) => c
    case DialW(c) => c
    case ProgressBarW(c) => c
  }

  lemma ObjInjective(v: Widget, w: Widget)
    requires Obj(v) == Obj(w)
    ensures v == w
  {
  }

  /** A control is neither a manager, a surface nor a binding, so changing it changes none of those. */
  lemma ObjIsControl(w: Widget, m: Manager, s: Surface, b: Binding)
    ensures Obj(w) != m && Obj(w) != s && Obj(w) != b
  {
  }

  /** Distinct controls are distinct objects. */
  lemma ObjsDistinct(cs: seq<Widget>, i: int)
    requires NoDuplicates(cs) && 0 <= i < |cs|
    ensures forall j :: 0 <= j < |cs| && j != i ==> Obj(cs[j]) != Obj(cs[i])
  {
    forall j | 0 <= j < |cs| && j != i
      ensures Obj(cs[j]) != Obj(cs[i])
    {
      if Obj(cs[j]) == Obj(cs[i]) {
        ObjInjective(cs[j], cs[i]);
      }
    }
  }

  /** No control of `cs` is the manager, its surface or a registration. */
  lemma ObjsOfApart(cs: seq<Widget>, m: Manager)
    ensures m !in ObjsOf(cs) && m.buf !in ObjsOf(cs)
    ensures forall j :: 0 <= j < |cs| ==> RegOf(cs[j]) !in ObjsOf(cs)
  {
    forall k, j | 0 <= k < |cs| && 0 <= j < |cs|
      ensures Obj(cs[k]) != m && Obj(cs[k]) != m.buf && Obj(cs[k]) != RegOf(cs[j])
    {
      ObjIsControl(cs[k], m, m.buf, RegOf(cs[j]));
    }
    forall k | 0 <= k < |cs|
      ensures Obj(cs[k]) != m && Obj(cs[k]) != m.buf
    {
      ObjIsControl(cs[k], m, m.buf, RegOf(cs[k]));
    }
  }

  lemma ObjNotBinding(w: Widget, b: Binding)
    ensures Obj(w) != b
  {
  }

  /** The manager invariant depends only on the registry and the registrations. */
  twostate lemma ValidKept(m: Manager)
    requires old(m.Valid())
    requires unchanged(m`screens, m`current) && unchanged(old(m.Regs()))
    ensures m.Valid()
  {
    assert m.Regs() == old(m.Regs());
  }

  /** Registrations are never controls, so painting controls leaves them alone. */
  lemma NoBindingIsControl(cs: seq<Widget>, rs: set<Binding>)
    ensures forall r :: r in rs ==> r !in ObjsOf(cs)
  {
    forall r, k | r in rs && 0 <= k < |cs|
      ensures Obj(cs[k]) != r
    {
      ObjNotBinding(cs[k], r);
    }
  }

  /** Changing one control leaves every registration alone. */
  lemma ObjApart(w: Widget, cs: seq<Widget>, m: Manager)
    ensures forall j :: 0 <= j < |cs| ==> Obj(w) != RegOf(cs[j]) && Obj(w) != m && Obj(w) != m.buf
  {
    forall j | 0 <= j < |cs|
      ensures Obj(w) != RegOf(cs[j]) && Obj(w) != m && Obj(w) != m.buf
    {
      ObjIsControl(w, m, m.buf, RegOf(cs[j]));
    }
  }

  function RegOf(w: Widget): Binding {
    match w
    case LabelW(c) => c.reg
    case TextBoxW(c) => c.reg
    case TextOnlyW(c) => c.reg
    case ButtonW(c) => c.reg
    case SliderW(c) => c.reg
    case CheckBoxW(c) => c.reg
    case DialW(c) => c.reg
    case ProgressBarW(c) => c.reg
  }

  function ManagerOf(w: Widget): Manager?
    reads RegOf(w)
  {
    RegOf(w).manager
  }

  function AssignedOf(w: Widget): Option<string>
    reads RegOf(w)
  {
    RegOf(w).assignedScreen
  }

  /** Whether the widget's `process_touch` would return True for `evt` in the current state. */
  predicate Consumes(w: Widget, evt: TouchEvent)
    reads Obj(w)
  {
    match w
    case ButtonW(b) => b.Hit(evt)
    case SliderW(s) => s.Grabs(evt)
    case CheckBoxW(c) => c.Hit(evt)
    case _ => false
  }

  /** A control's interaction state: every field except the layout a repaint recomputes
      (a label's measured width and offset, a text box's offset). */
  datatype State =
    | LabelState(text: string, align: int)
    | TextBoxState(text: string, align: int)
    | TextOnlyState(lines: seq<Line>, startY: int)
    | ButtonState(text: string, flash: bool, calls: seq<bool>)
    | SliderState(value: real, dragging: bool, reported: seq<real>)
    | CheckBoxState(checked: bool, calls: seq<bool>)
    | DialState(needle: Option<real>)
    | ProgressState(value: real)

  function StateOf(w: Widget): State
    reads Obj(w)
  {
    match w
    case LabelW(c) => LabelState(c.text, c.align)
    case TextBoxW(c) => TextBoxState(c.text, c.align)
    case TextOnlyW(c) => TextOnlyState(c.textList, c.startY)
    case ButtonW(c) => ButtonState(c.text, c.flash, c.calls)
    case SliderW(c) => SliderState(c.value, c.dragging, c.calls)
    case CheckBoxW(c) => CheckBoxState(c.checked, c.calls)
    case DialW(c) => DialState(c.needle)
    case ProgressBarW(c) => ProgressState(c.value)
  }

  /**
   * The interaction state a control is left in by a `process_touch` that consumed
   * `evt`: a button records one callback run under `flash` and ends unflashed; a
   * slider pressed takes the value under the touch and drags, a slider released
   * stops dragging; a check box toggles and reports its new state.
   */
  function Reaction(w: Widget, evt: TouchEvent): State
    reads Obj(w)
  {
    match w
    case ButtonW(b) => ButtonState(b.text, false, b.calls + (if b.hasCallback then [true] else []))
    case SliderW(c) =>
      if c.Presses(evt) then
        var v := SliderValueAt(evt.x, c.x, c.w, c.min, c.max);
        SliderState(v, true, c.calls + (if c.hasCallback then [v] else []))
      else SliderState(c.value, false, c.calls)
    case CheckBoxW(c) =>
      CheckBoxState(!c.checked, c.calls + (if c.hasCallback then [!c.checked] else []))
    case _ => StateOf(w)
  }

  /** How a control answers `evt`: None when it declines, otherwise the state it is left in. */
  function Answer(w: Widget, evt: TouchEvent): Option<State>
    reads Obj(w)
  {
    if Consumes(w, evt) then Some(Reaction(w, evt)) else None
  }

  /** The answers of the controls `cs`, in order. */
  function Answers(cs: seq<Widget>, evt: TouchEvent): (r: seq<Option<State>>)
    reads ObjsOf(cs)
    ensures |r| == |cs| && forall k :: 0 <= k < |cs| ==> r[k] == Answer(cs[k], evt)
  {
    seq(|cs|, k requires 0 <= k < |cs| reads ObjsOf(cs) => Answer(cs[k], evt))
  }

  /** The position of the first control that consumes: where `process_touch` stops. */
  function FirstConsumer(a: seq<Option<State>>): (r: Option<nat>)
    ensures r.Some? ==> r.value < |a| && a[r.value].Some? && forall j :: 0 <= j < r.value ==> a[j].None?
    ensures r.None? ==> forall j :: 0 <= j < |a| ==> a[j].None?
  {
    if a == [] then None
    else if a[0].Some? then Some(0)
    else match FirstConsumer(a[1..])
      case None => None
      case Some(k) => Some(k + 1)
  }

  /** The first consumer is the first control that does not decline. */
  lemma FirstConsumerAt(a: seq<Option<State>>, i: nat)
    requires i < |a| && a[i].Some? && forall j :: 0 <= j < i ==> a[j].None?
    ensures FirstConsumer(a) == Some(i)
  {
  }

  /** What a consuming `process_touch` paints: sliders and check boxes repaint, buttons do not. */
  function TouchRepaint(w: Widget): seq<Op>
    reads Obj(w)
  {
    match w
    case SliderW(c) => [Drawn(w, c.Look())]
    case CheckBoxW(c) => [Drawn(w, c.Look())]
    case _ => []
  }

  // ------------------------------------------------------------------ UILabel

  class Label {
    const x: int
    const y: int
    const w: int
    const h: int
    const bgColor: Option<Color>
    const textColor: Color
    const font: Option<Font>
    const reg: Binding
    var text: string
    var align: int
    var alignOffset: int
    var textWidthPixels: int

    constructor(x: int, y: int, w: int, h: int, text: string,
                bgColor: Option<Color>, textColor: Color, font: Option<Font>)
      ensures this.x == x && this.y == y && this.w == w && this.h == h
      ensures this.text == text && this.bgColor == bgColor && this.textColor == textColor
      ensures this.font == font
      ensures align == ALIGNMENT_LEFT && alignOffset == 0 && textWidthPixels == 0
      ensures fresh(reg) && reg.manager == null && reg.assignedScreen == None
    {
      this.x, this.y, this.w, this.h := x, y, w, h;
      this.text, this.bgColor, this.textColor, this.font := text, bgColor, textColor, font;
      align, alignOffset, textWidthPixels := ALIGNMENT_LEFT, 0, 0;
      reg := new Binding();
    }

    /** The rectangle the last repaint printed text into, which `erase_text` paints over. */
    function Footprint(f: Font): Rect
      reads this
    {
      Rect(x + alignOffset, y, textWidthPixels, f.height)
    }

    /** The state a repaint leaves: measured width, alignment offset, and one log entry. */
    ghost predicate Repainted(m: Manager, erased: Rect, before: seq<Op>)
      reads this, m, m.buf
      requires m.BackKnown(bgColor)
    {
      var f := FontOr(font, m.font);
      && textWidthPixels == |text| * f.maxWidth
      && alignOffset == LabelOffset(align, w, textWidthPixels)
      && m.buf.log == before + [Drawn(LabelW(this),
           LabelLook(erased, TextAt(x + alignOffset, y, text, textColor, m.BackColor(bgColor))))]
    }

    method SetAlignment(a: int)
      modifies this`align
      ensures align == a
    {
      align := a;
    }

    /** `draw`: erase the old text footprint, measure, align, print. */
    method Draw()
      requires reg.manager != null ==> reg.manager.BackKnown(bgColor)
      modifies this`alignOffset, this`textWidthPixels, CanvasOf(reg)
      ensures reg.manager == null ==>
        alignOffset == old(alignOffset) && textWidthPixels == old(textWidthPixels)
      ensures reg.manager != null ==>
        Repainted(reg.manager, old(Footprint(FontOr(font, reg.manager.font))), old(reg.manager.buf.log))
    {
      var m := reg.manager;
      if m == null {
        return;
      }
      var f := FontOr(font, m.font);
      var erased := Footprint(f);
      textWidthPixels := |text| * f.maxWidth;
      alignOffset := LabelOffset(align, w, textWidthPixels);
      m.buf.log := m.buf.log + [Drawn(LabelW(this),
        LabelLook(erased, TextAt(x + alignOffset, y, text, textColor, m.BackColor(bgColor))))];
    }

    /** `set_text`: store the text; repaint only while the label's screen is current. */
    method SetText(t: string)
      requires reg.manager != null
      requires reg.manager.current == reg.assignedScreen ==> reg.manager.BackKnown(bgColor)
      modifies this`text, this`alignOffset, this`textWidthPixels, reg.manager.buf
      ensures text == t
      ensures reg.manager.current != reg.assignedScreen ==>
        alignOffset == old(alignOffset) && textWidthPixels == old(textWidthPixels) &&
        unchanged(reg.manager.buf)
      ensures reg.manager.current == reg.assignedScreen ==>
        Repainted(reg.manager, old(Footprint(FontOr(font, reg.manager.font))), old(reg.manager.buf.log))
    {
      text := t;
      if reg.manager.current == reg.assignedScreen {
        Draw();
      }
    }
  }

  /** After a repaint, `erase_text`'s rectangle is exactly the box of the text just
      printed, so the next repaint paints over all of it and nothing else. */
  lemma EraseCoversPrint(lab: Label, m: Manager, erased: Rect, before: seq<Op>)
    requires m.BackKnown(lab.bgColor) && lab.Repainted(m, erased, before)
    ensures var f := FontOr(lab.font, m.font); var op := m.buf.log[|before|];
      && op.Drawn? && op.look.LabelLook?
      && lab.Footprint(f) == Rect(op.look.at.x, op.look.at.y, |op.look.at.text| * f.maxWidth, f.height)
  {
  }

  // ---------------------------------------------------------------- UITextBox

  class TextBox {
    const x: int
    const y: int
    const w: int
    const h: int
    const fgColor: Option<Color>
    const bgColor: Option<Color>
    const textColor: Color
    const bdClearance: int
    const font: Option<Font>
    const reg: Binding
    var text: string
    var align: int
    var alignOffset: int

    constructor(x: int, y: int, w: int, h: int, text: string, fgColor: Option<Color>,
                bgColor: Option<Color>, textColor: Color, bdClearance: int, font: Option<Font>)
      ensures this.x == x && this.y == y && this.w == w && this.h == h && this.text == text
      ensures this.fgColor == fgColor && this.bgColor == bgColor && this.textColor == textColor
      ensures this.bdClearance == bdClearance && this.font == font
      ensures align == ALIGNMENT_LEFT && alignOffset == 0
      ensures fresh(reg) && reg.manager == null && reg.assignedScreen == None
    {
      this.x, this.y, this.w, this.h, this.text := x, y, w, h, text;
      this.fgColor, this.bgColor, this.textColor := fgColor, bgColor, textColor;
      this.bdClearance, this.font := bdClearance, font;
      align, alignOffset := ALIGNMENT_LEFT, 0;
      reg := new Binding();
    }

    /** Where text `t` would go, or which overflow guard would stop it. */
    function PlacementOf(m: Manager, t: string): Placement
      reads this
    {
      var f := FontOr(font, m.font);
      TextBoxPlacement(y, w, h, bdClearance, align, f.height, |t| * f.maxWidth)
    }

    /** Where the current text goes. */
    function Placement(m: Manager): Placement
      reads this
    {
      PlacementOf(m, text)
    }

    /** A repaint showing `t` needs the background colour only when it prints the text. */
    predicate CanShow(m: Manager, t: string)
      reads this, m`screens, m`current
    {
      PlacementOf(m, t).At? ==> m.BackKnown(bgColor)
    }

    predicate CanDraw(m: Manager)
      reads this, m`screens, m`current
    {
      CanShow(m, text)
    }

    /** What a repaint shows while the box holds `t`. */
    function LookOf(m: Manager, t: string): Look
      reads this, m`screens, m`current
      requires CanShow(m, t)
    {
      var p := PlacementOf(m, t);
      TextBoxLook(Rect(x, y, w, h),
        if p.At? then Some(TextAt(x + p.offset, p.ty, t, textColor, m.BackColor(bgColor))) else None)
    }

    function Look(m: Manager): Look
      reads this, m`screens, m`current
      requires CanDraw(m)
    {
      LookOf(m, text)
    }

    /** `align_offset` after a repaint: untouched when too high, 0 when too wide. */
    function OffsetAfterDraw(m: Manager): int
      reads this
    {
      match Placement(m)
      case TooHigh => alignOffset
      case TooWide => 0
      case At(off, _) => off
    }

    method SetAlignment(a: int)
      modifies this`align
      ensures align == a
    {
      align := a;
    }

    /** `draw`: the container always, the text only when it fits. */
    method Draw()
      requires reg.manager != null ==> CanDraw(reg.manager)
      modifies this`alignOffset, CanvasOf(reg)
      ensures reg.manager == null ==> alignOffset == old(alignOffset)
      ensures reg.manager != null ==>
        alignOffset == old(OffsetAfterDraw(reg.manager)) &&
        reg.manager.buf.log == old(reg.manager.buf.log) + [Drawn(TextBoxW(this), old(Look(reg.manager)))]
    {
      var m := reg.manager;
      if m == null {
        return;
      }
      var look := Look(m);
      var p := Placement(m);
      match p {
        case TooHigh =>
        case TooWide => alignOffset := 0;
        case At(off, _) => alignOffset := off;
      }
      m.buf.log := m.buf.log + [Drawn(TextBoxW(this), look)];
    }

    /** `set_text`: store the text; repaint only while the box's screen is current. */
    method SetText(t: string)
      requires reg.manager != null
      requires reg.manager.current == reg.assignedScreen ==> reg.manager.BackKnown(bgColor)
      modifies this`text, this`alignOffset, reg.manager.buf
      ensures text == t
      ensures reg.manager.current != reg.assignedScreen ==>
        alignOffset == old(alignOffset) && unchanged(reg.manager.buf)
      ensures reg.manager.current == reg.assignedScreen ==>
        alignOffset == (match Placement(reg.manager) case TooHigh => old(alignOffset)
                                                     case TooWide => 0
                                                     case At(off, _) => off) &&
        reg.manager.buf.log == old(reg.manager.buf.log) + [Drawn(TextBoxW(this), Look(reg.manager))]
    {
      text := t;
      if reg.manager.current == reg.assignedScreen {
        Draw();
      }
    }
  }

  // --------------------------------------------------------------- UITextOnly

  /** The printed form of queued lines, all on one background colour. */
  function LinesAt(lines: seq<Line>, bg: Color): (r: seq<TextAt>)
    ensures |r| == |lines|
    ensures forall i :: 0 <= i < |lines| ==>
      r[i] == TextAt(lines[i].x, lines[i].y, lines[i].text, lines[i].color, bg)
  {
    if lines == [] then [] else
      [TextAt(lines[0].x, lines[0].y, lines[0].text, lines[0].color, bg)] + LinesAt(lines[1..], bg)
  }

  /** Moving the column's base down one row keeps every queued line where it was. */
  lemma ColumnStep(y: int, n: int, i: int, inc: int)
    ensures y - (n - i) * inc == (y + inc) - (n + 1 - i) * inc
  {
    assert (n + 1 - i) * inc == (n - i) * inc + inc;
  }

  class TextOnly {
    const startX: int
    const incY: int
    const reg: Binding
    var textList: seq<Line>
    var startY: int

    constructor(startX: int, startY: int, incY: int)
      ensures this.startX == startX && this.startY == startY && this.incY == incY
      ensures textList == [] && Valid()
      ensures fresh(reg) && reg.manager == null && reg.assignedScreen == None
    {
      this.startX, this.startY, this.incY := startX, startY, incY;
      textList := [];
      reg := new Binding();
    }

    /** The queued lines form a column at `start_x`, `inc_y` apart, ending just above `start_y`. */
    ghost predicate Valid()
      reads this
    {
      forall i :: 0 <= i < |textList| ==>
        textList[i].x == startX && textList[i].y == startY - (|textList| - i) * incY
    }

    function Look(m: Manager): Look
      reads this, m`screens, m`current
      requires m.Paintable()
    {
      LinesLook(LinesAt(textList, m.screens[m.current.value].bg))
    }

    /** `draw`: print every queued line on the current screen's background. */
    method Draw()
      requires reg.manager != null && reg.manager.Paintable()
      modifies reg.manager.buf
      ensures reg.manager.buf.log == old(reg.manager.buf.log) + [Drawn(TextOnlyW(this), Look(reg.manager))]
    {
      var m := reg.manager;
      m.buf.log := m.buf.log + [Drawn(TextOnlyW(this), Look(m))];
    }

    /** `set_text`: queue a line at the next row; repaint only while its screen is current. */
    method SetText(t: string, font: Font, color: Color)
      requires Valid()
      requires reg.manager != null
      requires reg.manager.current == reg.assignedScreen ==> reg.manager.Paintable()
      modifies this`textList, this`startY, reg.manager.buf
      ensures Valid()
      ensures textList == old(textList) + [Line(t, startX, old(startY), font, color)]
      ensures startY == old(startY) + incY
      ensures reg.manager.current != reg.assignedScreen ==> unchanged(reg.manager.buf)
      ensures reg.manager.current == reg.assignedScreen ==>
        reg.manager.buf.log == old(reg.manager.buf.log) + [Drawn(TextOnlyW(this), Look(reg.manager))]
    {
      ghost var n, y0 := |textList|, startY;
      textList := textList + [Line(t, startX, startY, font, color)];
      startY := startY + incY;
      forall i | 0 <= i < |textList|
        ensures textList[i].x == startX && textList[i].y == startY - (|textList| - i) * incY
      {
        ColumnStep(y0, n, i, incY);
      }
      if reg.manager.current == reg.assignedScreen {
        Draw();
      }
    }
  }

  // ----------------------------------------------------------------- UIButton

  class Button {
    const x: int
    const y: int
    const w: int
    const h: int
    const fgColor: Color
    const bgColor: Color
    const textColor: Color
    const font: Option<Font>
    const hasCallback: bool
    const reg: Binding
    var text: string
    var flash: bool
    /** One entry per callback invocation: the `flash` state the callback ran under. */
    var calls: seq<bool>

    constructor(x: int, y: int, w: int, h: int, text: string, hasCallback: bool,
                fgColor: Color, bgColor: Color, textColor: Color, font: Option<Font>)
      ensures this.x == x && this.y == y && this.w == w && this.h == h && this.text == text
      ensures this.hasCallback == hasCallback && this.font == font
      ensures this.fgColor == fgColor && this.bgColor == bgColor && this.textColor == textColor
      ensures !flash && calls == []
      ensures fresh(reg) && reg.manager == null && reg.assignedScreen == None
    {
      this.x, this.y, this.w, this.h, this.text := x, y, w, h, text;
      this.hasCallback, this.font := hasCallback, font;
      this.fgColor, this.bgColor, this.textColor := fgColor, bgColor, textColor;
      flash, calls := false, [];
      reg := new Binding();
    }

    /** A tap inside the button's own rectangle grown by TOUCH_PADDING on every side. */
    predicate Hit(evt: TouchEvent)
      ensures Hit(evt) <==> (evt.kind == Tap &&
        x - TOUCH_PADDING <= evt.x < x + w + TOUCH_PADDING && y - TOUCH_PADDING <= evt.y < y + h + TOUCH_PADDING)
    {
      evt.kind == Tap && WithinBounds(x, y, w, h, evt.x, evt.y, None, None, None)
    }

    /** Two-tone render: colours swapped while flashing; the label centred in the button. */
    function Look(m: Manager): Look
      reads this
    {
      var f := FontOr(font, m.font);
      var tw := |text| * f.maxWidth;
      ButtonLook(if flash then fgColor else bgColor, if flash then textColor else fgColor,
        TextAt(Centered(x, w, tw), Centered(y, h, f.height), text,
               if flash then bgColor else textColor, bgColor))
    }

    method Draw()
      modifies CanvasOf(reg)
      ensures reg.manager != null ==>
        reg.manager.buf.log == old(reg.manager.buf.log) + [Drawn(ButtonW(this), Look(reg.manager))]
    {
      var m := reg.manager;
      if m == null {
        return;
      }
      m.buf.log := m.buf.log + [Drawn(ButtonW(this), Look(m))];
    }

    /** `process_touch`: a tap in bounds flashes for exactly the callback's duration. */
    method ProcessTouch(evt: TouchEvent) returns (consumed: bool)
      modifies this`flash, this`calls
      ensures consumed == Hit(evt)
      ensures consumed ==> !flash && calls == old(calls) + (if hasCallback then [true] else [])
      ensures !consumed ==> flash == old(flash) && calls == old(calls)
    {
      if Hit(evt) {
        flash := true;
        if hasCallback {
          calls := calls + [flash];
        }
        flash := false;
        return true;
      }
      return false;
    }

    /** `set_text`: store the text; repaint only while the button's screen is current. */
    method SetText(t: string)
      requires reg.manager != null
      modifies this`text, reg.manager.buf
      ensures text == t
      ensures reg.manager.current != reg.assignedScreen ==> unchanged(reg.manager.buf)
      ensures reg.manager.current == reg.assignedScreen ==>
        reg.manager.buf.log == old(reg.manager.buf.log) + [Drawn(ButtonW(this), Look(reg.manager))]
    {
      text := t;
      if reg.manager.current == reg.assignedScreen {
        Draw();
      }
    }
  }

  // ----------------------------------------------------------------- UISlider

  class Slider {
    const x: int
    const y: int
    const w: int
    const h: int
    const min: real
    const max: real
    const hasCallback: bool
    const reg: Binding
    var value: real
    var dragging: bool
    /** One entry per callback invocation: the value passed. */
    var calls: seq<real>

    constructor(x: int, y: int, w: int, h: int, min: real, max: real, value: real, hasCallback: bool)
      ensures this.x == x && this.y == y && this.w == w && this.h == h
      ensures this.min == min && this.max == max && this.value == value
      ensures this.hasCallback == hasCallback && !dragging && calls == []
      ensures fresh(reg) && reg.manager == null && reg.assignedScreen == None
    {
      this.x, this.y, this.w, this.h := x, y, w, h;
      this.min, this.max, this.value, this.hasCallback := min, max, value, hasCallback;
      dragging, calls := false, [];
      reg := new Binding();
    }

    /** A tap or drag inside the slider's rectangle grown by TOUCH_PADDING on every side. */
    predicate Presses(evt: TouchEvent)
      ensures Presses(evt) <==> ((evt.kind == Tap || evt.kind == Drag) &&
        x - TOUCH_PADDING <= evt.x < x + w + TOUCH_PADDING && y - TOUCH_PADDING <= evt.y < y + h + TOUCH_PADDING)
    {
      (evt.kind == Tap || evt.kind == Drag) && WithinBounds(x, y, w, h, evt.x, evt.y, None, None, None)
    }

    /** Whether `process_touch` consumes `evt`: a press, or the end of a drag in progress. */
    predicate Grabs(evt: TouchEvent)
      reads this
      ensures evt.kind == DragEnd ==> (Grabs(evt) <==> dragging)
      ensures evt.kind != DragEnd ==> (Grabs(evt) <==> Presses(evt))
    {
      Presses(evt) || (evt.kind == DragEnd && dragging)
    }

    function Look(): Look
      reads this
    {
      SliderLook(KnobX(x, w, value, min, max))
    }

    method Draw()
      modifies CanvasOf(reg)
      ensures reg.manager != null ==>
        reg.manager.buf.log == old(reg.manager.buf.log) + [Drawn(SliderW(this), Look())]
    {
      var m := reg.manager;
      if m == null {
        return;
      }
      m.buf.log := m.buf.log + [Drawn(SliderW(this), Look())];
    }

    /** `process_touch`: a press sets the value from the touch x and starts dragging;
        a drag end is consumed only while dragging and keeps the value. */
    method ProcessTouch(evt: TouchEvent) returns (consumed: bool)
      modifies this`value, this`dragging, this`calls, CanvasOf(reg)
      ensures consumed == old(Grabs(evt))
      ensures Presses(evt) ==>
        value == SliderValueAt(evt.x, x, w, min, max) && dragging &&
        calls == old(calls) + (if hasCallback then [value] else [])
      ensures !Presses(evt) && consumed ==> value == old(value) && !dragging && calls == old(calls)
      ensures consumed && reg.manager != null ==>
        reg.manager.buf.log == old(reg.manager.buf.log) + [Drawn(SliderW(this), Look())]
      ensures !consumed ==> unchanged(this) && unchanged(CanvasOf(reg))
    {
      if Presses(evt) {
        value := SliderValueAt(evt.x, x, w, min, max);
        dragging := true;
        Draw();
        if hasCallback {
          calls := calls + [value];
        }
        return true;
      }
      if evt.kind == DragEnd && dragging {
        dragging := false;
        Draw();
        return true;
      }
      return false;
    }

    /** `set_value`: store the clamped value and repaint, whether or not its screen is current. */
    method SetValue(v: real)
      modifies this`value, CanvasOf(reg)
      ensures value == ClampValue(min, max, v)
      ensures reg.manager != null ==>
        reg.manager.buf.log == old(reg.manager.buf.log) + [Drawn(SliderW(this), Look())]
    {
      value := ClampValue(min, max, v);
      Draw();
    }
  }

  // --------------------------------------------------------------- UICheckBox

  class CheckBox {
    const x: int
    const y: int
    const w: int
    const h: int
    const text: string
    const fgColor: Color
    const bgColor: Color
    const checkColor: Color
    const textColor: Color
    const hasCallback: bool
    const reg: Binding
    var checked: bool
    /** One entry per callback invocation: the new `checked` state passed. */
    var calls: seq<bool>

    constructor(x: int, y: int, text: string, size: int, checked: bool, hasCallback: bool,
                fgColor: Color, bgColor: Color, checkColor: Color, textColor: Color)
      ensures this.x == x && this.y == y && this.w == size && this.h == size && this.text == text
      ensures this.checked == checked && this.hasCallback == hasCallback && calls == []
      ensures this.fgColor == fgColor && this.bgColor == bgColor
      ensures this.checkColor == checkColor && this.textColor == textColor
      ensures fresh(reg) && reg.manager == null && reg.assignedScreen == None
    {
      this.x, this.y, this.w, this.h, this.text := x, y, size, size, text;
      this.checked, this.hasCallback, calls := checked, hasCallback, [];
      this.fgColor, this.bgColor, this.checkColor, this.textColor := fgColor, bgColor, checkColor, textColor;
      reg := new Binding();
    }

    /** A tap inside the box widened by the 6 px gap before the caption, grown by
        TOUCH_PADDING; a size of -6 makes `ext_w` zero, and `ext_w or self.w` then falls
        back to the size itself. */
    predicate Hit(evt: TouchEvent)
      ensures var ew := if w + 6 != 0 then w + 6 else w;
        Hit(evt) <==> (evt.kind == Tap &&
          x - TOUCH_PADDING <= evt.x < x + ew + TOUCH_PADDING && y - TOUCH_PADDING <= evt.y < y + h + TOUCH_PADDING)
    {
      evt.kind == Tap && WithinBounds(x, y, w, h, evt.x, evt.y, Some(w + 6), Some(h), None)
    }

    /** `max(3, w // 5)`: the inset of the inner box. */
    function InnerPad(): (p: int)
      ensures 3 <= p && w / 5 <= p && (p == 3 || p == w / 5)
    {
      if 3 >= w / 5 then 3 else w / 5
    }

    function Look(): Look
      reads this
    {
      var p := InnerPad();
      CheckBoxLook(if checked then Some(Rect(x + p, y + p, w - 2 * p, h - 2 * p)) else None,
                   TextAt(x + w + 6, Centered(y, h, 8), text, textColor, bgColor))
    }

    method Draw()
      modifies CanvasOf(reg)
      ensures reg.manager != null ==>
        reg.manager.buf.log == old(reg.manager.buf.log) + [Drawn(CheckBoxW(this), Look())]
    {
      var m := reg.manager;
      if m == null {
        return;
      }
      m.buf.log := m.buf.log + [Drawn(CheckBoxW(this), Look())];
    }

    /** `process_touch`: a tap in bounds toggles `checked`, repaints and reports it. */
    method ProcessTouch(evt: TouchEvent) returns (consumed: bool)
      modifies this`checked, this`calls, CanvasOf(reg)
      ensures consumed == Hit(evt)
      ensures consumed ==>
        checked == !old(checked) && calls == old(calls) + (if hasCallback then [checked] else [])
      ensures consumed && reg.manager != null ==>
        reg.manager.buf.log == old(reg.manager.buf.log) + [Drawn(CheckBoxW(this), Look())]
      ensures !consumed ==> unchanged(this) && unchanged(CanvasOf(reg))
    {
      if Hit(evt) {
        checked := !checked;
        Draw();
        if hasCallback {
          calls := calls + [checked];
        }
        return true;
      }
      return false;
    }

    /** `set_checked`: store and repaint, whether or not its screen is current. */
    method SetChecked(c: bool)
      modifies this`checked, CanvasOf(reg)
      ensures checked == c
      ensures reg.manager != null ==>
        reg.manager.buf.log == old(reg.manager.buf.log) + [Drawn(CheckBoxW(this), Look())]
    {
      checked := c;
      Draw();
    }
  }

  /** Two taps in bounds put a check box back in its original state, and report both states. */
  method TapTwice(c: CheckBox, evt: TouchEvent)
    requires c.Hit(evt)
    modifies c, CanvasOf(c.reg)
    ensures c.checked == old(c.checked)
    ensures c.calls == old(c.calls) + (if c.hasCallback then [!old(c.checked), old(c.checked)] else [])
  {
    var first := c.ProcessTouch(evt);
    var second := c.ProcessTouch(evt);
  }

  // ------------------------------------------------------------------- UIDial

  class Dial {
    const x: int
    const y: int
    const radius: int
    const reg: Binding
    var needle: Option<real>

    constructor(x: int, y: int, radius: int)
      ensures this.x == x && this.y == y && this.radius == radius && needle == None
      ensures fresh(reg) && reg.manager == null && reg.assignedScreen == None
    {
      this.x, this.y, this.radius := x, y, radius;
      needle := None;
      reg := new Binding();
    }

    /** The face, with the needle when one is stored and the dial's screen is current. */
    function Look(m: Manager): Look
      reads this, reg, m`current
    {
      DialLook(if needle.Some? && m.current == reg.assignedScreen then needle else None)
    }

    /** `draw`: the face, then `set_value(needle_value)` when a needle value is stored. */
    method Draw()
      requires reg.manager != null
      modifies reg.manager.buf
      ensures reg.manager.buf.log == old(reg.manager.buf.log) + [Drawn(DialW(this), Look(reg.manager))]
    {
      var m := reg.manager;
      m.buf.log := m.buf.log + [Drawn(DialW(this), Look(m))];
    }

    /** `set_value`: store the angle; paint the needle only while the dial's screen is current. */
    method SetValue(angle: real)
      requires reg.manager != null
      modifies this`needle, reg.manager.buf
      ensures needle == Some(angle)
      ensures reg.manager.current != reg.assignedScreen ==> unchanged(reg.manager.buf)
      ensures reg.manager.current == reg.assignedScreen ==>
        reg.manager.buf.log == old(reg.manager.buf.log) + [Drawn(DialW(this), NeedleLook(angle))]
    {
      needle := Some(angle);
      if reg.manager.current != reg.assignedScreen {
        return;
      }
      reg.manager.buf.log := reg.manager.buf.log + [Drawn(DialW(this), NeedleLook(angle))];
    }
  }

  // ------------------------------------------------------------ UIProgressBar

  class ProgressBar {
    const x: int
    const y: int
    const w: int
    const h: int
    const min: real
    const max: real
    const reg: Binding
    var value: real

    constructor(x: int, y: int, w: int, h: int, min: real, max: real, value: real)
      ensures this.x == x && this.y == y && this.w == w && this.h == h
      ensures this.min == min && this.max == max && this.value == value
      ensures fresh(reg) && reg.manager == null && reg.assignedScreen == None
    {
      this.x, this.y, this.w, this.h := x, y, w, h;
      this.min, this.max, this.value := min, max, value;
      reg := new Binding();
    }

    function Look(): Look
      reads this
    {
      ProgressLook(FillWidth(w, value, min, max))
    }

    method Draw()
      modifies CanvasOf(reg)
      ensures reg.manager != null ==>
        reg.manager.buf.log == old(reg.manager.buf.log) + [Drawn(ProgressBarW(this), Look())]
    {
      var m := reg.manager;
      if m == null {
        return;
      }
      m.buf.log := m.buf.log + [Drawn(ProgressBarW(this), Look())];
    }

    /** `set_value`: store the clamped value; repaint only while its screen is current. */
    method SetValue(v: real)
      requires reg.manager != null
      modifies this`value, reg.manager.buf
      ensures value == ClampValue(min, max, v)
      ensures reg.manager.current != reg.assignedScreen ==> unchanged(reg.manager.buf)
      ensures reg.manager.current == reg.assignedScreen ==>
        reg.manager.buf.log == old(reg.manager.buf.log) + [Drawn(ProgressBarW(this), Look())]
    {
      value := ClampValue(min, max, v);
      if reg.manager.current == reg.assignedScreen {
        Draw();
      }
    }
  }

  // --------------------------------------------------------------- dispatch

  /** `ctrl.draw()` for any kind of control whose manager has a current screen. */
  method DrawWidget(w: Widget)
    requires ManagerOf(w) != null && ManagerOf(w).Paintable()
    modifies Obj(w), ManagerOf(w).buf
    ensures var log := ManagerOf(w).buf.log; var n := |old(ManagerOf(w).buf.log)|;
      |log| == n + 1 && log[..n] == old(ManagerOf(w).buf.log) && log[n].Drawn? && log[n].w == w
    ensures StateOf(w) == old(StateOf(w))
  {
    match w
    case LabelW(c) => c.Draw();
    case TextBoxW(c) => c.Draw();
    case TextOnlyW(c) => c.Draw();
    case ButtonW(c) => c.Draw();
    case SliderW(c) => c.Draw();
    case CheckBoxW(c) => c.Draw();
    case DialW(c) => c.Draw();
    case ProgressBarW(c) => c.Draw();
  }

  /** `ctrl.process_touch(evt)` for any kind of control; labels, text boxes, text-only
      areas, dials and progress bars never consume a touch. */
  method TouchWidget(w: Widget, evt: TouchEvent) returns (consumed: bool)
    modifies Obj(w), CanvasOf(RegOf(w))
    ensures consumed == old(Consumes(w, evt))
    ensures consumed ==> StateOf(w) == old(Reaction(w, evt))
    ensures consumed && ManagerOf(w) != null ==>
      ManagerOf(w).buf.log == old(ManagerOf(w).buf.log) + TouchRepaint(w)
    ensures !consumed ==> unchanged(Obj(w)) && unchanged(CanvasOf(RegOf(w)))
  {
    match w
    case ButtonW(c) => consumed := c.ProcessTouch(evt);
    case SliderW(c) => consumed := c.ProcessTouch(evt);
    case CheckBoxW(c) => consumed := c.ProcessTouch(evt);
    case _ => consumed := false;
  }

  // ---------------------------------------------------------------- UIManager

  lemma SliceAppend<T>(s: seq<T>, x: T, k: nat)
    requires k <= |s|
    ensures (s + [x])[k..] == s[k..] + [x]
  {
  }

  /** The control objects of `cs`. */
  ghost function ObjsOf(cs: seq<Widget>): set<object> {
    set j | 0 <= j < |cs| :: Obj(cs[j])
  }

  /** `ops` are repaints of the controls `cs`, one each, in the same order. */
  predicate DrawnInOrder(ops: seq<Op>, cs: seq<Widget>) {
    |ops| == |cs| && forall i :: 0 <= i < |ops| ==> ops[i].Drawn? && ops[i].w == cs[i]
  }

  class Manager {
    const buf: Surface
    const font: Font
    var screens: map<string, Screen<Widget>>
    var current: Option<string>
    /** Every event handed to `process_touch`, in order. */
    ghost var dispatched: seq<TouchEvent>
    /** The controls the last `process_touch` called, in order. */
    ghost var probed: seq<Widget>

    constructor(buf: Surface, font: Font)
      ensures this.buf == buf && this.font == font
      ensures Model() == Registry(map[], None) && dispatched == [] && probed == []
      ensures Valid()
    {
      this.buf, this.font := buf, font;
      screens, current := map[], None;
      dispatched, probed := [], [];
    }

    function Model(): Registry<Widget>
      reads this`screens, this`current
    {
      Registry(screens, current)
    }

    /** A current screen is set and registered. */
    predicate Paintable()
      reads this`screens, this`current
    {
      current.Some? && current.value in screens
    }

    /** `get_back_color` can answer: the widget has its own colour or a screen is current. */
    predicate BackKnown(bg: Option<Color>)
      reads this`screens, this`current
    {
      bg.Some? || Paintable()
    }

    /** `get_back_color`: the widget's own colour, else the *current* screen's background. */
    function BackColor(bg: Option<Color>): (c: Color)
      reads this`screens, this`current
      requires BackKnown(bg)
      ensures bg.Some? ==> c == bg.value
      ensures bg.None? && Model().Valid() ==> c == Model().CurrentBg()
    {
      if bg.Some? then bg.value else screens[current.value].bg
    }

    ghost function Regs(): set<Binding>
      reads this`screens, this`current
    {
      set n, w | n in screens && w in screens[n].controls :: RegOf(w)
    }

    ghost function Objs(): set<object>
      reads this`screens, this`current
    {
      set n, w | n in screens && w in screens[n].controls :: Obj(w)
    }

    /** The registry invariant, and every registered control points back at this manager. */
    ghost predicate Valid()
      reads this`screens, this`current, Regs()
    {
      && Model().Valid()
      && forall n, w :: n in screens && w in screens[n].controls ==>
           ManagerOf(w) == this && AssignedOf(w).Some?
    }

    function Controls(): seq<Widget>
      reads this`screens, this`current
      requires Model().Valid()
    {
      Model().Current()
    }

    /** The surface after `draw_all` on a current screen: `before`, one fill with the
        screen's background, then one repaint per control of the screen, in order. */
    ghost predicate RedrawnFrom(before: seq<Op>)
      reads this`screens, this`current, buf
      requires Model().Valid() && current.Some?
    {
      var n := |before|;
      && |buf.log| > n
      && buf.log[..n] == before
      && buf.log[n] == Fill(screens[current.value].bg)
      && DrawnInOrder(buf.log[n + 1..], Controls())
    }

    /** The current screen's controls are among all registered controls. */
    lemma ControlsInObjs()
      requires Model().Valid()
      ensures ObjsOf(Controls()) <= Objs()
    {
      var cs := Controls();
      forall o | o in ObjsOf(cs)
        ensures o in Objs()
      {
        var j :| 0 <= j < |cs| && o == Obj(cs[j]);
        assert cs[j] in screens[current.value].controls;
      }
    }

    /** A registered text box is registered as a text box on some screen. */
    lemma TextBoxRegistered(t: TextBox)
      requires t in Objs()
      ensures exists n :: n in screens && TextBoxW(t) in screens[n].controls
    {
      var n, w :| n in screens && w in screens[n].controls && Obj(w) == t;
      ObjInjective(w, TextBoxW(t));
    }

    method AddScreen(name: string, bg: Color)
      requires Valid()
      modifies this`screens, this`current
      ensures Model() == old(Model()).AddScreen(name, bg)
      ensures Valid()
    {
      screens := screens[name := Screen(bg, [])];
      if current.None? {
        current := Some(name);
      }
    }

    method SetScreen(name: string)
      requires Valid()
      modifies this`current
      ensures Model() == old(Model()).SetScreen(name)
      ensures Valid()
    {
      if name in screens {
        current := Some(name);
      }
    }

    /** `add_control`: append and bind the control, unless the screen is unknown or
        already holds it; a control added to a second screen is reassigned to that screen. */
    method AddControl(name: string, w: Widget)
      requires Valid()
      modifies this`screens, RegOf(w)
      ensures Model() == old(Model()).AddControl(name, w)
      ensures old(Model().Accepts(name, w)) ==> ManagerOf(w) == this && AssignedOf(w) == Some(name)
      ensures !old(Model().Accepts(name, w)) ==> unchanged(RegOf(w))
      ensures Valid()
    {
      if name in screens && w !in screens[name].controls {
        screens := screens[name := Screen(screens[name].bg, screens[name].controls + [w])];
        RegOf(w).manager := this;
        RegOf(w).assignedScreen := Some(name);
      }
    }

    /** `draw_all`: one background fill, then each control of the current screen
        drawn once, in insertion order. */
    method DrawAll()
      requires Valid()
      modifies buf, ObjsOf(Controls())
      ensures current.None? ==> unchanged(buf)
      ensures current.Some? ==> RedrawnFrom(old(buf.log))
      ensures forall n, w :: n in screens && w in screens[n].controls ==> StateOf(w) == old(StateOf(w))
      ensures Valid()
    {
      if current.None? {
        return;
      }
      var n := |buf.log|;
      buf.log := buf.log + [Fill(screens[current.value].bg)];
      var cs := Controls();
      forall j | 0 <= j < |cs|
        ensures ManagerOf(cs[j]) == this
      {
        assert cs[j] in screens[current.value].controls;
      }
      ghost var rs := Regs();
      NoBindingIsControl(cs, rs);
      ghost var filled := buf.log;
      Paint(cs);
      ValidKept(this);
      assert buf.log[..n] == filled[..n] && buf.log[n] == filled[n];
      forall s, w | s in screens && w in screens[s].controls
        ensures StateOf(w) == old(StateOf(w))
      {
        if Obj(w) in ObjsOf(cs) {
          var j :| 0 <= j < |cs| && Obj(cs[j]) == Obj(w);
          ObjInjective(cs[j], w);
        } else {
          ObjIsControl(w, this, buf, RegOf(w));
        }
      }
    }

    /** The loop of `draw_all`: repaint each of `cs` once, in order, after what the surface holds. */
    method Paint(cs: seq<Widget>)
      requires Paintable()
      requires forall j :: 0 <= j < |cs| ==> ManagerOf(cs[j]) == this
      modifies buf, ObjsOf(cs)
      ensures |buf.log| == |old(buf.log)| + |cs|
      ensures buf.log[..|old(buf.log)|] == old(buf.log)
      ensures DrawnInOrder(buf.log[|old(buf.log)|..], cs)
      ensures forall j :: 0 <= j < |cs| ==> StateOf(cs[j]) == old(StateOf(cs[j]))
    {
      ObjsOfApart(cs, this);
      ghost var head := buf.log;
      ghost var drawn: seq<Op> := [];
      for i := 0 to |cs|
        invariant buf.log == head + drawn
        invariant DrawnInOrder(drawn, cs[..i])
        invariant forall j :: 0 <= j < |cs| ==> ManagerOf(cs[j]) == this
        invariant forall j :: 0 <= j < |cs| ==> StateOf(cs[j]) == old(StateOf(cs[j]))
      {
        ObjApart(cs[i], cs, this);
        assert Obj(cs[i]) in ObjsOf(cs);
        ghost var before := buf.log;
        DrawWidget(cs[i]);
        forall j | 0 <= j < |cs|
          ensures StateOf(cs[j]) == old(StateOf(cs[j]))
        {
          if Obj(cs[j]) == Obj(cs[i]) {
            ObjInjective(cs[j], cs[i]);
          }
        }
        drawn := drawn + [buf.log[|before|]];
        assert buf.log == before + [buf.log[|before|]];
        assert cs[..i + 1] == cs[..i] + [cs[i]];
      }
      assert cs[..|cs|] == cs;
      assert buf.log[|head|..] == drawn;
    }

    /** `process_touch`: offer the event to the current screen's controls in insertion
        order and stop at the first that consumes it.  With no current screen the
        source returns the undefined name `false`; here that is plain false. */
    method ProcessTouch(evt: TouchEvent) returns (consumed: bool)
      requires Valid()
      modifies this`probed, this`dispatched, buf, ObjsOf(Controls())
      ensures dispatched == old(dispatched) + [evt]
      ensures Valid()
      ensures var cs := Controls(); var a := old(Answers(cs, evt)); var first := FirstConsumer(a);
        && consumed == first.Some?
        && probed == (if first.Some? then cs[..first.value + 1] else cs)
        && (first.Some? ==> StateOf(cs[first.value]) == a[first.value].value)
        && (first.Some? ==> buf.log == old(buf.log) + TouchRepaint(cs[first.value]))
        && (first.None? ==> unchanged(buf))
        && (forall j :: 0 <= j < |cs| && first != Some(j) ==> unchanged(Obj(cs[j])))
    {
      if current.None? {
        dispatched, probed := dispatched + [evt], [];
        return false;
      }
      var cs := Controls();
      forall j | 0 <= j < |cs|
        ensures ManagerOf(cs[j]) == this && Obj(cs[j]) != this
      {
        assert cs[j] in screens[current.value].controls;
        ObjIsControl(cs[j], this, buf, RegOf(cs[j]));
      }
      ghost var rs := Regs();
      NoBindingIsControl(cs, rs);
      ghost var a := Answers(cs, evt);
      consumed := Offer(cs, evt);
      dispatched := dispatched + [evt];
      ValidKept(this);
      if consumed {
        FirstConsumerAt(a, |probed| - 1);
      } else {
        assert FirstConsumer(a) == None;
      }
    }

    /** The loop of `process_touch`: offer `evt` to `cs` in order until one consumes it. */
    method Offer(cs: seq<Widget>, evt: TouchEvent) returns (consumed: bool)
      requires NoDuplicates(cs)
      requires forall j :: 0 <= j < |cs| ==> ManagerOf(cs[j]) == this
      modifies this`probed, buf, ObjsOf(cs)
      ensures |probed| <= |cs| && probed == cs[..|probed|]
      ensures !consumed ==> |probed| == |cs| && unchanged(buf) && unchanged(ObjsOf(cs))
      ensures !consumed ==> forall j :: 0 <= j < |cs| ==> !old(Consumes(cs[j], evt))
      ensures consumed ==> var n := |probed|;
        && n > 0 && old(Consumes(cs[n - 1], evt))
        && StateOf(cs[n - 1]) == old(Reaction(cs[n - 1], evt))
        && buf.log == old(buf.log) + TouchRepaint(cs[n - 1])
        && (forall j :: 0 <= j < n - 1 ==> !old(Consumes(cs[j], evt)))
        && (forall j :: 0 <= j < |cs| && j != n - 1 ==> unchanged(Obj(cs[j])))
    {
      consumed := false;
      ObjsOfApart(cs, this);
      var i := 0;
      while i < |cs|
        invariant 0 <= i <= |cs|
        invariant forall j :: 0 <= j < i ==> !old(Consumes(cs[j], evt))
        invariant unchanged(ObjsOf(cs))
        invariant unchanged(buf)
        invariant forall j :: 0 <= j < |cs| ==> ManagerOf(cs[j]) == this
      {
        ObjsDistinct(cs, i);
        assert Obj(cs[i]) in ObjsOf(cs);
        ghost var offered := Consumes(cs[i], evt);
        assert offered == old(Consumes(cs[i], evt));
        ghost var reaction := Reaction(cs[i], evt);
        assert reaction == old(Reaction(cs[i], evt));
        consumed := TouchWidget(cs[i], evt);
        if consumed {
          probed := cs[..i + 1];
          forall j | 0 <= j < |cs| && j != i
            ensures unchanged(Obj(cs[j]))
          {
            assert Obj(cs[j]) in ObjsOf(cs);
          }
          return;
        }
        i := i + 1;
      }
      probed := cs;
    }
  }
}
