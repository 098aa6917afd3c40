/**
 * The integer and real arithmetic that the widgets of lib/squixl_ui_EX.py use
 * for hit-testing and layout: the padded hit rectangle, text alignment offsets,
 * the text-box overflow guards, the slider knob, the slider's touch-to-value map
 * and the progress-bar fill.  Python's `int()` on a float truncates toward zero
 * and `//` floors; both are written out here.
 */
module Layout {
  import opened Wrappers

  /** Extra pixels around each control for easier touching. */
  const TOUCH_PADDING: int := 10

  const ALIGNMENT_LEFT: int := 0
  const ALIGNMENT_CENTER: int := 1
  const ALIGNMENT_RIGHT: int := 2

  function Min(a: real, b: real): real { if a <= b then a else b }
  function Max(a: real, b: real): real { if a >= b then a else b }

  /** Python's `int()` applied to a float: truncation toward zero. */
  function Trunc(r: real): (n: int)
    ensures r >= 0.0 ==> n as real <= r < n as real + 1.0
    ensures r < 0.0 ==> n as real - 1.0 < r <= n as real
  {
    if r >= 0.0 then r.Floor else -((-r).Floor)
  }

  lemma {:induction false} TruncMonotone(a: real, b: real)
    requires a <= b
    ensures Trunc(a) <= Trunc(b)
  {
    if a < 0.0 && b >= 0.0 {
      assert Trunc(a) <= 0 <= Trunc(b);
    }
  }

  /** Scaling by a factor in [0, 1] stays between 0 and the scaled amount. */
  lemma ScaleBetween(rel: real, d: real)
    requires 0.0 <= rel <= 1.0
    ensures d >= 0.0 ==> 0.0 <= rel * d <= d
    ensures d < 0.0 ==> d <= rel * d <= 0.0
  {
    if d >= 0.0 {
      assert rel * d <= 1.0 * d;
    } else {
      assert rel * (-d) <= 1.0 * (-d);
    }
  }

  /** Facts about a quotient by a positive divisor. */
  lemma Quotient(a: real, d: real)
    requires d > 0.0
    ensures (a / d) * d == a
    ensures a <= 0.0 ==> a / d <= 0.0
    ensures a >= d ==> a / d >= 1.0
  {
  }

  lemma QuotientBetween(a: real, d: real)
    requires d > 0.0
    ensures 0.0 <= a <= d ==> 0.0 <= a / d <= 1.0
  {
    var q := a / d;
    Quotient(a, d);
    ScaleStrict(1.0, q, d);
    ScaleStrict(q, 0.0, d);
  }

  lemma ScaleStrict(a: real, b: real, d: real)
    requires d > 0.0
    ensures a < b ==> a * d < b * d
  {
    if a < b {
      assert (b - a) * d > 0.0;
    }
  }

  lemma ScaleMonotone(a: real, b: real, d: real)
    requires a <= b && d >= 0.0
    ensures a * d <= b * d
  {
    assert (b - a) * d >= 0.0;
  }

  /** `max(0, min(1, r))`. */
  function Clamp01(r: real): (c: real)
    ensures 0.0 <= c <= 1.0
    ensures 0.0 <= r <= 1.0 ==> c == r
    ensures r < 0.0 ==> c == 0.0
    ensures r > 1.0 ==> c == 1.0
  {
    Max(0.0, Min(1.0, r))
  }

  /** `max(lo, min(hi, v))`: what `set_value` stores in a slider or progress bar. */
  function ClampValue(lo: real, hi: real, v: real): (c: real)
    ensures lo <= hi ==> lo <= c <= hi
    ensures lo <= v <= hi ==> c == v
    ensures v < lo ==> c == lo
    ensures lo <= hi < v ==> c == hi
    ensures hi < lo ==> c == lo
  {
    Max(lo, Min(hi, v))
  }

  lemma {:induction false} ClampValueIdempotent(lo: real, hi: real, v: real)
    ensures ClampValue(lo, hi, ClampValue(lo, hi, v)) == ClampValue(lo, hi, v)
  {
    var c := ClampValue(lo, hi, v);
    if lo <= hi {
      assert lo <= c <= hi;
    } else {
      assert c == lo;
    }
  }

  /**
   * The relative position of a value on its range, clamped to [0, 1];
   * a zero-width range (`max == min`) gives 0 rather than dividing by zero.
   */
  function Relative(value: real, lo: real, hi: real): (rel: real)
    ensures 0.0 <= rel <= 1.0
    ensures hi == lo ==> rel == 0.0
    ensures lo < hi && value <= lo ==> rel == 0.0
    ensures lo < hi && value >= hi ==> rel == 1.0
    ensures lo < hi && lo <= value <= hi ==> rel * (hi - lo) == value - lo
  {
    if hi != lo then
      var q := (value - lo) / (hi - lo);
      assert lo < hi ==> && q * (hi - lo) == value - lo
                         && (value <= lo ==> q <= 0.0) && (value >= hi ==> q >= 1.0)
                         && (lo <= value <= hi ==> 0.0 <= q <= 1.0) by {
        if lo < hi {
          Quotient(value - lo, hi - lo);
          QuotientBetween(value - lo, hi - lo);
        }
      }
      Clamp01(q)
    else
      Clamp01(0.0)
  }

  lemma {:induction false} RelativeMonotone(v1: real, v2: real, lo: real, hi: real)
    requires lo < hi && v1 <= v2
    ensures Relative(v1, lo, hi) <= Relative(v2, lo, hi)
  {
    assert (v1 - lo) / (hi - lo) <= (v2 - lo) / (hi - lo);
  }

  /** `int(rel * d)`: the pixel count a relative position covers on a `d`-pixel span. */
  function Scaled(rel: real, d: int): (n: int)
    ensures 0.0 <= rel <= 1.0 && d >= 0 ==> 0 <= n <= d
    ensures rel == 0.0 ==> n == 0
    ensures rel == 1.0 ==> n == d
  {
    var p := rel * d as real;
    ScaleFacts(rel, d);
    TruncBetween(p, d);
    Trunc(p)
  }

  lemma ScaleFacts(rel: real, d: int)
    ensures 0.0 <= rel <= 1.0 && d >= 0 ==> 0.0 <= rel * d as real <= d as real
    ensures rel == 0.0 ==> rel * d as real == 0.0
    ensures rel == 1.0 ==> rel * d as real == d as real
  {
    if 0.0 <= rel <= 1.0 && d >= 0 {
      ScaleBetween(rel, d as real);
    }
  }

  /** Truncating a real in [0, d] gives an integer in [0, d]; integers truncate to themselves. */
  lemma TruncBetween(p: real, d: int)
    ensures 0.0 <= p <= d as real ==> 0 <= Trunc(p) <= d
    ensures p == 0.0 ==> Trunc(p) == 0
    ensures p == d as real ==> Trunc(p) == d
  {
  }

  lemma {:induction false} ScaledMonotone(r1: real, r2: real, d: int)
    requires 0.0 <= r1 <= r2 && d >= 0
    ensures Scaled(r1, d) <= Scaled(r2, d)
  {
    var p1, p2 := r1 * d as real, r2 * d as real;
    assert p1 <= p2 by {
      ScaleMonotone(r1, r2, d as real);
    }
    TruncMonotone(p1, p2);
  }

  /** Left edge of the slider knob (4 px wide) for the slider's current value. */
  function KnobX(x: int, w: int, value: real, lo: real, hi: real): (kx: int)
    ensures w >= 4 ==> x <= kx <= x + w - 4
    ensures (hi == lo || (lo < hi && value <= lo)) ==> kx == x
    ensures lo < hi && value >= hi ==> kx == x + w - 4
  {
    x + Scaled(Relative(value, lo, hi), w - 4)
  }

  lemma {:induction false} KnobMonotone(x: int, w: int, v1: real, v2: real, lo: real, hi: real)
    requires w >= 4 && lo < hi && v1 <= v2
    ensures KnobX(x, w, v1, lo, hi) <= KnobX(x, w, v2, lo, hi)
  {
    RelativeMonotone(v1, v2, lo, hi);
    ScaledMonotone(Relative(v1, lo, hi), Relative(v2, lo, hi), w - 4);
  }

  /** Width of the progress bar's inner filled bar. */
  function FillWidth(w: int, value: real, lo: real, hi: real): (fw: int)
    ensures w >= 2 ==> 0 <= fw <= w - 2
    ensures (hi == lo || (lo < hi && value <= lo)) ==> fw == 0
    ensures lo < hi && value >= hi ==> fw == w - 2
  {
    Scaled(Relative(value, lo, hi), w - 2)
  }

  lemma {:induction false} FillMonotone(w: int, v1: real, v2: real, lo: real, hi: real)
    requires w >= 2 && lo < hi && v1 <= v2
    ensures FillWidth(w, v1, lo, hi) <= FillWidth(w, v2, lo, hi)
  {
    RelativeMonotone(v1, v2, lo, hi);
    ScaledMonotone(Relative(v1, lo, hi), Relative(v2, lo, hi), w - 2);
  }

  function TrackSpan(w: int): (d: int)
    ensures d >= 1
  {
    if w > 1 then w - 1 else 1
  }

  /**
   * The value a slider takes from a touch at `touchX`: linear over
   * `[x, x + w - 1]`, clamped at both ends.
   */
  function SliderValueAt(touchX: int, x: int, w: int, lo: real, hi: real): (v: real)
    ensures lo <= hi ==> lo <= v <= hi
    ensures hi < lo ==> hi <= v <= lo
    ensures touchX <= x ==> v == lo
    ensures touchX >= x + TrackSpan(w) ==> v == hi
  {
    var rel := Clamp01((touchX - x) as real / TrackSpan(w) as real);
    assert (touchX <= x ==> rel == 0.0) && (touchX >= x + TrackSpan(w) ==> rel == 1.0) by {
      Quotient((touchX - x) as real, TrackSpan(w) as real);
    }
    ScaleBetween(rel, hi - lo);
    lo + rel * (hi - lo)
  }

  /**
   * After a touch on the track, the knob is drawn at or to the left of the touch:
   * the knob runs over `w - 4` pixels while the touch map runs over `w - 1`.
   */
  lemma {:induction false} KnobFollowsTouch(touchX: int, x: int, w: int, lo: real, hi: real)
    requires w >= 4 && lo < hi && x <= touchX <= x + w - 1
    ensures x <= KnobX(x, w, SliderValueAt(touchX, x, w, lo, hi), lo, hi) <= touchX
  {
    assert KnobX(x, w, SliderValueAt(touchX, x, w, lo, hi), lo, hi)
        == x + Scaled((touchX - x) as real / (w - 1) as real, w - 4) by {
      SliderValueRelative(touchX, x, w, lo, hi);
    }
    ScaledShare(touchX - x, w - 1, w - 4);
  }

  /** The share `t / d` of a smaller span `e`, truncated, lies between 0 and `t`. */
  lemma {:induction false} ScaledShare(t: int, d: int, e: int)
    requires 0 <= t <= d && 0 <= e <= d && d > 0
    ensures 0 <= Scaled(t as real / d as real, e) <= t
  {
    var q := t as real / d as real;
    assert 0.0 <= q <= 1.0 by {
      Quotient(t as real, d as real);
      if q > 1.0 {
        ScaleMonotone(1.0, q, d as real);
      }
    }
    ShrunkQuotient(t as real, d as real, e as real);
    TruncMonotone(q * e as real, t as real);
    assert Trunc(t as real) == t;
  }

  /** A share of `t` computed over `d` and applied to a smaller `e` does not exceed `t`. */
  lemma {:induction false} ShrunkQuotient(t: real, d: real, e: real)
    requires 0.0 <= t && 0.0 <= e <= d && d > 0.0
    ensures (t / d) * e <= t
  {
    Quotient(t, d);
    assert t / d >= 0.0;
    ScaleMonotone(e, d, t / d);
    assert e * (t / d) <= d * (t / d);
  }

  /** A touch on the track maps back to its own relative position. */
  lemma {:induction false} SliderValueRelative(touchX: int, x: int, w: int, lo: real, hi: real)
    requires w >= 2 && lo < hi && x <= touchX <= x + w - 1
    ensures Relative(SliderValueAt(touchX, x, w, lo, hi), lo, hi) == (touchX - x) as real / (w - 1) as real
  {
    var q := (touchX - x) as real / (w - 1) as real;
    Quotient((touchX - x) as real, (w - 1) as real);
    assert 0.0 <= q <= 1.0 by {
      ScaleMonotone(0.0, q, (w - 1) as real);
      if q > 1.0 {
        ScaleMonotone(1.0, q, (w - 1) as real);
      }
    }
    var v := SliderValueAt(touchX, x, w, lo, hi);
    assert v == lo + q * (hi - lo);
    Cancel(q, hi - lo);
  }

  /** Multiplying and then dividing by the same positive number is the identity. */
  lemma Cancel(q: real, d: real)
    requires d > 0.0
    ensures (q * d) / d == q
  {
  }

  /** `w or fallback`: Python falls back on `None` and on zero. */
  function OrFallback(v: Option<int>, fallback: int): (r: int)
    ensures v.None? || v == Some(0) ==> r == fallback
    ensures v.Some? && v.value != 0 ==> r == v.value
  {
    if v.Some? && v.value != 0 then v.value else fallback
  }

  /**
   * `UIControl.within_bounds`: the control's rectangle `(cx, cy, cw, ch)`, optionally
   * widened (`w`, `h`), grown by `pad` on every side, as a half-open box.
   */
  function WithinBounds(cx: int, cy: int, cw: int, ch: int, x: int, y: int,
                        w: Option<int>, h: Option<int>, pad: Option<int>): (r: bool)
    ensures var p := if pad.Some? then pad.value else TOUCH_PADDING;
      r <==> cx - p <= x < cx + OrFallback(w, cw) + p && cy - p <= y < cy + OrFallback(h, ch) + p
  {
    var ew := OrFallback(w, cw);
    var eh := OrFallback(h, ch);
    var p := if pad.Some? then pad.value else TOUCH_PADDING;
    cx - p <= x < cx + ew + p && cy - p <= y < cy + eh + p
  }

  /** Widening a hit box never loses a point that the narrower box held. */
  lemma {:induction false} WithinBoundsWider(cx: int, cy: int, cw: int, ch: int, x: int, y: int,
                                             w1: int, w2: int, h: Option<int>, pad: Option<int>)
    requires 0 < w1 <= w2
    requires WithinBounds(cx, cy, cw, ch, x, y, Some(w1), h, pad)
    ensures WithinBounds(cx, cy, cw, ch, x, y, Some(w2), h, pad)
  {
    assert OrFallback(Some(w1), cw) == w1 && OrFallback(Some(w2), cw) == w2;
  }

  /** `origin + (extent - size) // 2`: start of a run of `size` centred in `extent`. */
  function Centered(origin: int, extent: int, size: int): (p: int)
    ensures 0 <= (origin + extent) - (p + size) - (p - origin) <= 1
  {
    origin + (extent - size) / 2
  }

  /** `int(w/2 - tw/2)`: the centring offset computed on floats and truncated. */
  function CenterOffset(w: int, tw: int): (off: int)
    ensures tw <= w ==> 0 <= off && 0 <= (w - tw - off) - off <= 1
    ensures tw > w ==> off <= 0 && -1 <= (w - tw - off) - off <= 0
  {
    Trunc(w as real / 2.0 - tw as real / 2.0)
  }

  /** `UILabel.draw`'s alignment offset for text `tw` pixels wide in a label `w` wide. */
  function LabelOffset(align: int, w: int, tw: int): (off: int)
    ensures align == ALIGNMENT_LEFT || w <= 0 ==> off == 0
    ensures align == ALIGNMENT_RIGHT && w > 0 ==> off + tw == w
    ensures align == ALIGNMENT_CENTER && w > 0 ==> off == CenterOffset(w, tw)
    ensures align !in {ALIGNMENT_LEFT, ALIGNMENT_CENTER, ALIGNMENT_RIGHT} ==> off == 0
  {
    if align != ALIGNMENT_LEFT && w > 0 then
      if align == ALIGNMENT_RIGHT then w - tw
      else if align == ALIGNMENT_CENTER then CenterOffset(w, tw)
      else 0
    else 0
  }

  /** Where `UITextBox.draw` puts its text, or which guard made it skip the text. */
  datatype Placement = TooHigh | TooWide | At(offset: int, ty: int)

  /**
   * `UITextBox.draw`: text of `tw` pixels in a font `fontHeight` high, in a box at
   * row `y`, `w` by `h`, keeping `clearance` pixels clear of the border.
   */
  function TextBoxPlacement(y: int, w: int, h: int, clearance: int, align: int,
                            fontHeight: int, tw: int): (p: Placement)
    ensures p == TooHigh <==> fontHeight + clearance > h
    ensures p == TooWide <==> fontHeight + clearance <= h && w > 0 && tw + clearance >= w
    ensures p.At? ==> p.ty == Centered(y, h, fontHeight)
    ensures p.At? && w <= 0 ==> p.offset == 0
    ensures p.At? && w > 0 && align == ALIGNMENT_LEFT ==> p.offset == clearance
    ensures p.At? && w > 0 && align == ALIGNMENT_RIGHT ==> p.offset + tw + clearance == w
    ensures p.At? && w > 0 && align == ALIGNMENT_CENTER ==> p.offset == CenterOffset(w, tw)
    ensures p.At? && w > 0 && align != ALIGNMENT_LEFT && align != ALIGNMENT_RIGHT && align != ALIGNMENT_CENTER ==>
      p.offset == 0
  {
    if fontHeight + clearance > h then TooHigh
    else
      var ty := Centered(y, h, fontHeight);
      if w > 0 then
        if tw + clearance >= w then TooWide
        else if align == ALIGNMENT_LEFT then At(clearance, ty)
        else if align == ALIGNMENT_RIGHT then At(w - tw - clearance, ty)
        else if align == ALIGNMENT_CENTER then At(CenterOffset(w, tw), ty)
        else At(0, ty)
      else At(0, ty)
  }

  /**
   * The overflow guards do their job: whenever the text box draws its text with a
   * non-negative clearance, the text lies inside the box, vertically and (for a box
   * of positive width) horizontally.
   */
  lemma {:induction false} TextBoxTextInside(y: int, w: int, h: int, clearance: int, align: int,
                                             fontHeight: int, tw: int)
    requires clearance >= 0
    requires TextBoxPlacement(y, w, h, clearance, align, fontHeight, tw).At?
    ensures var p := TextBoxPlacement(y, w, h, clearance, align, fontHeight, tw);
      y <= p.ty && p.ty + fontHeight <= y + h &&
      (w > 0 ==> 0 <= p.offset && p.offset + tw <= w)
  {
    var p := TextBoxPlacement(y, w, h, clearance, align, fontHeight, tw);
    assert h - fontHeight >= 0;
    if w > 0 {
      assert tw + clearance < w;
      if align == ALIGNMENT_CENTER {
        assert tw <= w;
        assert 0 <= p.offset && p.offset + tw <= w;
      }
    }
  }
}
