/**
 * The touch handling of ui_example_asyncT.py: `touch_check` classifies each touch
 * episode and routes swipes to `screen_swipe` and taps to `screen_tap`, which
 * writes the tap position into the text box `tb_1` and dispatches a tap event to
 * the manager.
 */
module App {
  import opened Wrappers
  import opened Decimal
  import opened Registry
  import opened Toolkit
  import opened Gesture

  const HOME: string := "home"
  const WEATHER: string := "w_data"

  /** `str(x) + ':' + str(y)`. */
  function TapText(x: int, y: int): string {
    IntToString(x) + ":" + IntToString(y)
  }

  function IndexOf(s: string, c: char): (r: Option<nat>)
    ensures r.Some? ==> r.value < |s| && s[r.value] == c && forall k :: 0 <= k < r.value ==> s[k] != c
    ensures r.None? ==> forall k :: 0 <= k < |s| ==> s[k] != c
  {
    if s == [] then None
    else if s[0] == c then Some(0)
    else match IndexOf(s[1..], c)
      case None => None
      case Some(k) => Some(k + 1)
  }

  /** Reads "x:y" back into the two coordinates. */
  function ParseTapText(s: string): Option<(int, int)> {
    match IndexOf(s, ':')
    case None => None
    case Some(k) =>
      match (ParseInt(s[..k]), ParseInt(s[k + 1..]))
      case (Some(x), Some(y)) => Some((x, y))
      case _ => None
  }

  /** The text box shows exactly which point was tapped: the text determines it. */
  lemma TapTextRoundTrip(x: int, y: int)
    ensures ParseTapText(TapText(x, y)) == Some((x, y))
  {
    var a, b := IntToString(x), IntToString(y);
    var s := TapText(x, y);
    assert s[|a|] == ':';
    assert forall k :: 0 <= k < |a| ==> s[k] == a[k];
    assert IndexOf(s, ':') == Some(|a|);
    assert s[..|a|] == a;
    assert s[|a| + 1..] == b;
    IntRoundTrip(x);
    IntRoundTrip(y);
  }

  /** `screen_swipe`: left shows "home", right shows "w_data", up and down do nothing. */
  method ScreenSwipe(mgr: Manager, dir: Direction)
    requires mgr.Valid()
    modifies mgr`current, mgr.buf, mgr.Objs()
    ensures mgr.Valid()
    ensures mgr.screens == old(mgr.screens) && mgr.dispatched == old(mgr.dispatched)
    ensures (dir == Up || dir == Down) ==>
      mgr.current == old(mgr.current) && unchanged(mgr.buf) && unchanged(mgr.Objs())
    ensures forall n, w :: n in mgr.screens && w in mgr.screens[n].controls ==> StateOf(w) == old(StateOf(w))
    ensures dir == Left ==> mgr.Model() == old(mgr.Model()).SetScreen(HOME)
    ensures dir == Right ==> mgr.Model() == old(mgr.Model()).SetScreen(WEATHER)
    ensures (dir == Left || dir == Right) && mgr.current.Some? ==> mgr.RedrawnFrom(old(mgr.buf.log))
    ensures (dir == Left || dir == Right) && mgr.current.None? ==> unchanged(mgr.buf)
  {
    match dir
    case Down =>
    case Up =>
    case Left =>
      mgr.SetScreen(HOME);
      Redraw(mgr);
    case Right =>
      mgr.SetScreen(WEATHER);
      Redraw(mgr);
  }

  /** `mgr.draw_all()` from within a handler that may touch any registered control. */
  method Redraw(mgr: Manager)
    requires mgr.Valid()
    modifies mgr.buf, mgr.Objs()
    ensures mgr.Valid() && mgr.dispatched == old(mgr.dispatched)
    ensures mgr.current.None? ==> unchanged(mgr.buf)
    ensures mgr.current.Some? ==> mgr.RedrawnFrom(old(mgr.buf.log))
    ensures forall n, w :: n in mgr.screens && w in mgr.screens[n].controls ==> StateOf(w) == old(StateOf(w))
  {
    mgr.ControlsInObjs();
    ObjsOfApart(mgr.Controls(), mgr);
    mgr.DrawAll();
  }

  /** The first line of `screen_tap`: write the tap position into `tb_1`.  No control's
      answer to the tap changes, since a text box's answer does not depend on its text. */
  method ShowTap(mgr: Manager, tb1: TextBox, x: int, y: int)
    requires mgr.Valid()
    requires tb1.reg.manager == mgr && tb1.reg.assignedScreen.Some?
    modifies tb1`text, tb1`alignOffset, mgr.buf
    ensures mgr.Valid()
    ensures tb1.text == TapText(x, y)
    ensures Answers(mgr.Controls(), TouchEvent(Tap, x, y)) == old(Answers(mgr.Controls(), TouchEvent(Tap, x, y)))
    ensures mgr.buf.log == old(mgr.buf.log)
      + (if mgr.current == tb1.reg.assignedScreen then [Drawn(TextBoxW(tb1), old(tb1.LookOf(mgr, TapText(x, y))))] else [])
  {
    var cs := mgr.Controls();
    ObjsOfApart(cs, mgr);
    tb1.SetText(TapText(x, y));
    ValidKept(mgr);
    forall k | 0 <= k < |cs|
      ensures Answer(cs[k], TouchEvent(Tap, x, y)) == old(Answer(cs[k], TouchEvent(Tap, x, y)))
    {
      if Obj(cs[k]) == tb1 {
        ObjInjective(cs[k], TextBoxW(tb1));
      }
    }
  }

  /** `screen_tap`: show the tap position in `tb_1`, then dispatch one tap event.
      Callbacks are recorded, not run, so apart from `tb_1` only the consumer changes;
      a callback that itself writes a control or switches screen is not modelled. */
  method ScreenTap(mgr: Manager, tb1: TextBox, x: int, y: int) returns (consumed: bool)
    requires mgr.Valid()
    requires tb1.reg.manager == mgr && tb1.reg.assignedScreen.Some?
    modifies tb1`text, tb1`alignOffset, mgr`probed, mgr`dispatched, mgr.buf, ObjsOf(mgr.Controls())
    ensures mgr.Valid()
    ensures unchanged(mgr`screens, mgr`current)
    ensures tb1.text == TapText(x, y)
    ensures mgr.dispatched == old(mgr.dispatched) + [TouchEvent(Tap, x, y)]
    ensures var cs := mgr.Controls(); var a := old(Answers(cs, TouchEvent(Tap, x, y)));
      var first := FirstConsumer(a);
      && consumed == first.Some?
      && mgr.probed == (if first.Some? then cs[..first.value + 1] else cs)
      && (first.Some? ==> StateOf(cs[first.value]) == a[first.value].value)
      && (forall j :: 0 <= j < |cs| && first != Some(j) && Obj(cs[j]) != tb1 ==> unchanged(Obj(cs[j])))
      && mgr.buf.log == old(mgr.buf.log)
           + (if mgr.current == tb1.reg.assignedScreen then [Drawn(TextBoxW(tb1), old(tb1.LookOf(mgr, TapText(x, y))))] else [])
           + (if first.Some? then TouchRepaint(cs[first.value]) else [])
  {
    var cs := mgr.Controls();
    var evt := TouchEvent(Tap, x, y);
    ghost var a := Answers(cs, evt);
    ObjsOfApart(cs, mgr);
    ShowTap(mgr, tb1, x, y);
    label Shown:
    assert Answers(cs, evt) == a;
    ghost var shown := mgr.buf.log;
    consumed := mgr.ProcessTouch(evt);
    ghost var first := FirstConsumer(a);
    assert mgr.buf.log == shown + (if first.Some? then TouchRepaint(cs[first.value]) else []);
    forall j | 0 <= j < |cs| && first != Some(j) && Obj(cs[j]) != tb1
      ensures unchanged(Obj(cs[j]))
    {
      assert unchanged@Shown(Obj(cs[j]));
    }
  }

  /** How one pass of `touch_check` ends. */
  datatype Outcome =
    | Idle                  // no contact at the first poll
    | Crashed               // the episode's end point was never assigned (UnboundLocalError)
    | Swiped(dir: Direction)
    | Tapped(at: Point)

  function OutcomeOf(ep: Episode, tapTime: int): (r: Outcome)
    ensures r == Idle <==> ep.NoContact?
    ensures r == Crashed <==> ep.Touched? && ep.end.None?
    ensures r.Swiped? ==> ep.Touched? && ep.end.Some? && Classify(ep.start, ep.end.value, tapTime) == Swipe(r.dir)
    ensures r.Tapped? ==> ep.Touched? && ep.end.Some? && Classify(ep.start, ep.end.value, tapTime) == TapAt(r.at)
  {
    match ep
    case NoContact(_) => Idle
    case Touched(start, end, _) =>
      if end.None? then Crashed
      else match Classify(start, end.value, tapTime)
        case Swipe(d) => Swiped(d)
        case TapAt(p) => Tapped(p)
  }

  /** A pass of `touch_check` taps exactly when the episode's movement is no swipe,
      and taps the start point only for a short one. */
  lemma {:induction false} TapOutcome(ep: Episode, tapTime: int)
    requires ep.Touched? && ep.end.Some?
    ensures var dx, dy := ep.end.value.x - ep.start.x, ep.end.value.y - ep.start.y;
      && (OutcomeOf(ep, tapTime).Tapped? <==> !IsSwipe(dx, dy))
      && (OutcomeOf(ep, tapTime).Tapped? ==>
            OutcomeOf(ep, tapTime).at == (if tapTime < SHORT_TAP_MS then ep.start else ep.end.value))
  {
    var a := Classify(ep.start, ep.end.value, tapTime);
    assert a.Swipe? <==> IsSwipe(ep.end.value.x - ep.start.x, ep.end.value.y - ep.start.y);
  }

  /**
   * The rest of one pass of the `while True` body of `touch_check` once the episode
   * `ep` has been read from the feed, with `tapTime` its measured duration: classify
   * it and act on the manager.
   */
  method TouchCheckStep(mgr: Manager, tb1: TextBox, ep: Episode, tapTime: int)
    returns (outcome: Outcome)
    requires mgr.Valid()
    requires tb1.reg.manager == mgr && tb1.reg.assignedScreen.Some?
    modifies tb1`text, tb1`alignOffset, mgr`probed, mgr`dispatched, mgr`current, mgr.buf, mgr.Objs()
    ensures mgr.Valid() && mgr.screens == old(mgr.screens)
    ensures outcome == OutcomeOf(ep, tapTime)
    ensures (outcome == Idle || outcome == Crashed) ==>
      unchanged(mgr.buf) && unchanged(tb1) && unchanged(mgr.Objs()) && mgr.current == old(mgr.current) &&
      mgr.dispatched == old(mgr.dispatched)
    ensures outcome.Swiped? ==> mgr.dispatched == old(mgr.dispatched)
    ensures outcome.Swiped? ==> forall n, w :: n in mgr.screens && w in mgr.screens[n].controls ==> StateOf(w) == old(StateOf(w))
    ensures outcome == Swiped(Left) ==> mgr.Model() == old(mgr.Model()).SetScreen(HOME)
    ensures outcome == Swiped(Right) ==> mgr.Model() == old(mgr.Model()).SetScreen(WEATHER)
    ensures outcome == Swiped(Up) || outcome == Swiped(Down) ==> mgr.current == old(mgr.current)
    ensures (outcome == Swiped(Left) || outcome == Swiped(Right)) && mgr.current.Some? ==>
      mgr.RedrawnFrom(old(mgr.buf.log))
    ensures outcome == Swiped(Up) || outcome == Swiped(Down) ==> unchanged(mgr.buf) && unchanged(mgr.Objs())
    ensures outcome == Swiped(Up) || outcome == Swiped(Down) ==> unchanged(tb1)
    ensures outcome.Swiped? ==> tb1.text == old(tb1.text)
    ensures (outcome == Swiped(Left) || outcome == Swiped(Right)) && mgr.current.None? ==> unchanged(mgr.buf)
    ensures outcome.Tapped? ==>
      && mgr.current == old(mgr.current)
      && tb1.text == TapText(outcome.at.x, outcome.at.y)
      && mgr.dispatched == old(mgr.dispatched) + [TouchEvent(Tap, outcome.at.x, outcome.at.y)]
    ensures outcome.Tapped? ==>
      var cs := mgr.Controls(); var a := old(Answers(cs, TouchEvent(Tap, outcome.at.x, outcome.at.y)));
      var first := FirstConsumer(a);
      && mgr.probed == (if first.Some? then cs[..first.value + 1] else cs)
      && (first.Some? ==> StateOf(cs[first.value]) == a[first.value].value)
      && (forall j :: 0 <= j < |cs| && first != Some(j) && Obj(cs[j]) != tb1 ==> unchanged(Obj(cs[j])))
      && mgr.buf.log == old(mgr.buf.log)
           + (if mgr.current == tb1.reg.assignedScreen then [Drawn(TextBoxW(tb1), old(tb1.LookOf(mgr, TapText(outcome.at.x, outcome.at.y))))] else [])
           + (if first.Some? then TouchRepaint(cs[first.value]) else [])
    ensures outcome.Tapped? ==> forall s, w :: (s in mgr.screens && w in mgr.screens[s].controls &&
      Obj(w) !in ObjsOf(mgr.Controls()) && Obj(w) != tb1) ==> unchanged(Obj(w))
  {
    if ep.NoContact? {
      return Idle;
    }
    if ep.end.None? {
      return Crashed;
    }
    var action := Classify(ep.start, ep.end.value, tapTime);
    match action
    case Swipe(d) =>
      ghost var registered := tb1 in mgr.Objs();
      if registered {
        mgr.TextBoxRegistered(tb1);
      }
      ScreenSwipe(mgr, d);
      if registered {
        assert StateOf(TextBoxW(tb1)) == old(StateOf(TextBoxW(tb1)));
      }
      outcome := Swiped(d);
    case TapAt(p) =>
      mgr.ControlsInObjs();
      var consumed := ScreenTap(mgr, tb1, p.x, p.y);
      outcome := Tapped(p);
  }

  /** The duration measured for the episode that starts at poll `i`. */
  function DurationAt(tapTimes: seq<int>, i: nat): int {
    if i < |tapTimes| then tapTimes[i] else 0
  }

  /**
   * The outcomes of the passes `touch_check` runs from poll `pos` to the end of the
   * feed, with `stale` the `xEnd, yEnd` left by the previous pass: each pass starts
   * where the previous episode ended and keeps the old end point when its own episode
   * assigned none.  A crash ends the sequence.
   */
  function Outcomes(feed: seq<Poll>, pos: nat, stale: Option<Point>, tapTimes: seq<int>): (r: seq<Outcome>)
    ensures pos >= |feed| <==> r == []
    ensures forall k :: 0 <= k < |r| - 1 ==> r[k] != Crashed
    decreases |feed| - pos
  {
    if pos >= |feed| then []
    else
      var ep := EpisodeAt(feed, pos, stale);
      var o := OutcomeOf(ep, DurationAt(tapTimes, pos));
      if o == Crashed then [o]
      else [o] + Outcomes(feed, ep.next, if ep.Touched? then ep.end else stale, tapTimes)
  }

  /** The events a run of passes dispatches: one tap at the tap point of each tapping pass. */
  function TapsOf(os: seq<Outcome>): (r: seq<TouchEvent>)
    ensures forall k :: 0 <= k < |r| ==> r[k].kind == Tap
    ensures |r| <= |os|
  {
    if os == [] then []
    else (if os[0].Tapped? then [TouchEvent(Tap, os[0].at.x, os[0].at.y)] else []) + TapsOf(os[1..])
  }

  /** The taps of two runs of passes, one after the other. */
  lemma {:induction false} TapsOfAppend(a: seq<Outcome>, b: seq<Outcome>)
    ensures TapsOf(a + b) == TapsOf(a) + TapsOf(b)
  {
    if a == [] {
      assert a + b == b;
    } else {
      assert (a + b)[0] == a[0];
      assert (a + b)[1..] == a[1..] + b;
      TapsOfAppend(a[1..], b);
    }
  }

  /** The events handed to the manager after one more pass. */
  lemma TapsOfStep(before: seq<TouchEvent>, done: seq<Outcome>, o: Outcome)
    ensures (before + TapsOf(done)) + TapsOf([o]) == before + TapsOf(done + [o])
  {
    TapsOfAppend(done, [o]);
    assert (before + TapsOf(done)) + TapsOf([o]) == before + (TapsOf(done) + TapsOf([o]));
  }

  /**
   * Where a pass leaves the run of outcomes: a crash ends it, any other outcome is
   * followed by the passes from the next episode on, with `xEnd, yEnd` carried over.
   */
  lemma {:induction false} OutcomesStep(feed: seq<Poll>, pos: nat, stale: Option<Point>, tapTimes: seq<int>,
                                        done: seq<Outcome>, all: seq<Outcome>)
    requires pos < |feed| && all == done + Outcomes(feed, pos, stale, tapTimes)
    ensures var ep := EpisodeAt(feed, pos, stale);
      var o := OutcomeOf(ep, DurationAt(tapTimes, pos));
      && (o == Crashed ==> Crashed in all && all == done + [o])
      && (o != Crashed ==> all == (done + [o]) + Outcomes(feed, ep.next, if ep.Touched? then ep.end else stale, tapTimes))
  {
    var ep := EpisodeAt(feed, pos, stale);
    var o := OutcomeOf(ep, DurationAt(tapTimes, pos));
    if o == Crashed {
      assert Outcomes(feed, pos, stale, tapTimes) == [o];
      assert all[|done|] == o;
    } else {
      var rest := Outcomes(feed, ep.next, if ep.Touched? then ep.end else stale, tapTimes);
      assert done + ([o] + rest) == (done + [o]) + rest;
    }
  }

  /**
   * One pass of the `while True` body of `touch_check`: read the episode starting at
   * poll `pos` and act on it.  The manager is handed the pass's tap, if it has one.
   */
  method Pass(mgr: Manager, tb1: TextBox, feed: seq<Poll>, pos: nat, stale: Option<Point>, tapTimes: seq<int>)
    returns (outcome: Outcome, ep: Episode)
    requires mgr.Valid()
    requires tb1.reg.manager == mgr && tb1.reg.assignedScreen.Some?
    modifies tb1`text, tb1`alignOffset, mgr`probed, mgr`dispatched, mgr`current, mgr.buf, mgr.Objs()
    ensures mgr.Valid() && mgr.screens == old(mgr.screens)
    ensures ep == EpisodeAt(feed, pos, stale)
    ensures outcome == OutcomeOf(ep, DurationAt(tapTimes, pos))
    ensures mgr.dispatched == old(mgr.dispatched) + TapsOf([outcome])
  {
    ep := ReadEpisode(feed, pos, stale);
    outcome := TouchCheckStep(mgr, tb1, ep, DurationAt(tapTimes, pos));
    assert TapsOf([outcome]) == (if outcome.Tapped? then [TouchEvent(Tap, outcome.at.x, outcome.at.y)] else []);
  }

  /**
   * `touch_check` over a finite feed: each pass reads its episode and acts on it, until
   * the feed is exhausted or an episode ends without an end point.  The manager sees
   * exactly the taps of the passes `Outcomes` describes, and nothing else: the drag,
   * double, long and swipe event kinds are never produced.
   */
  method TouchCheck(mgr: Manager, tb1: TextBox, feed: seq<Poll>, tapTimes: seq<int>)
    returns (crashed: bool)
    requires mgr.Valid()
    requires tb1.reg.manager == mgr && tb1.reg.assignedScreen.Some?
    modifies tb1`text, tb1`alignOffset, mgr`probed, mgr`dispatched, mgr`current, mgr.buf, mgr.Objs()
    ensures mgr.Valid() && mgr.screens == old(mgr.screens)
    ensures crashed <==> Crashed in Outcomes(feed, 0, None, tapTimes)
    ensures mgr.dispatched == old(mgr.dispatched) + TapsOf(Outcomes(feed, 0, None, tapTimes))
  {
    var pos: nat := 0;
    var stale: Option<Point> := None;
    ghost var d0 := mgr.dispatched;
    ghost var all := Outcomes(feed, 0, None, tapTimes);
    ghost var done: seq<Outcome> := [];
    while pos < |feed|
      invariant mgr.Valid() && mgr.screens == old(mgr.screens)
      invariant all == done + Outcomes(feed, pos, stale, tapTimes)
      invariant Crashed !in done
      invariant mgr.dispatched == d0 + TapsOf(done)
      decreases |feed| - pos
    {
      var outcome, ep := Pass(mgr, tb1, feed, pos, stale, tapTimes);
      var after := if ep.Touched? then ep.end else stale;
      OutcomesStep(feed, pos, stale, tapTimes, done, all);
      TapsOfStep(d0, done, outcome);
      if outcome == Crashed {
        return true;
      }
      done := done + [outcome];
      stale := after;
      pos := ep.next;
    }
    assert all == done;
    return false;
  }
}
