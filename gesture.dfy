/**
 * The gesture classifier of `touch_check` in ui_example_asyncT.py.
 *
 * The touch controller is a feed of polls: poll `i` is what `read_points()`
 * returns the `i`-th time it is called, a list of contacts whose length is `n`.
 * One touch episode starts at a poll with contacts, keeps polling while contacts
 * are reported, and ends at the first poll with none.  Only the first contact of
 * each poll is read.  Past the end of the feed every poll reports no contact.
 * The episode's duration (`tap_time`) comes from the clock and is an input here.
 */
module Gesture {
  import opened Wrappers

  /** One reported contact: `(x, y, size)`. */
  datatype Contact = Contact(x: int, y: int, size: int)

  /** The contacts one `read_points()` call reports; `n` is its length. */
  type Poll = seq<Contact>

  datatype Point = Point(x: int, y: int)

  /** `tap_move`: movement, in pixels, above which a horizontal move is a swipe. */
  const TAP_MOVE: int := 20
  /** Below this duration a tap is reported at its start point. */
  const SHORT_TAP_MS: int := 400
  /** Below this duration (and from SHORT_TAP_MS) a tap is a "medium" tap. */
  const MEDIUM_TAP_MS: int := 700

  function PointOf(c: Contact): Point {
    Point(c.x, c.y)
  }

  function PollAt(feed: seq<Poll>, i: nat): Poll {
    if i < |feed| then feed[i] else []
  }

  /** The first poll at or after `i` that reports no contact. */
  function Release(feed: seq<Poll>, i: nat): (k: nat)
    ensures i <= k && PollAt(feed, k) == []
    ensures forall j :: i <= j < k ==> PollAt(feed, j) != []
    decreases |feed| - i
  {
    if PollAt(feed, i) == [] then i else Release(feed, i + 1)
  }

  /**
   * What one pass of the `while True` body reads from the feed starting at poll `i`.
   * `next` is the poll the following pass starts at.  `end` is the last first-contact
   * seen after the start, or `stale` (the caller's previous `xEnd, yEnd`, None when
   * never assigned) when the second poll already reports no contact.
   */
  datatype Episode =
    | NoContact(next: nat)
    | Touched(start: Point, end: Option<Point>, next: nat)

  function EpisodeAt(feed: seq<Poll>, i: nat, stale: Option<Point>): (ep: Episode)
    ensures ep.NoContact? <==> PollAt(feed, i) == []
    ensures ep.NoContact? ==> ep.next == i + 1
    ensures ep.Touched? ==> ep.start == PointOf(feed[i][0]) && ep.next >= i + 2
  {
    var p := PollAt(feed, i);
    if p == [] then NoContact(i + 1)
    else
      var k := Release(feed, i + 1);
      var end := if k > i + 1 then assert PollAt(feed, k - 1) != []; Some(PointOf(PollAt(feed, k - 1)[0])) else stale;
      Touched(PointOf(p[0]), end, k + 1)
  }

  /**
   * The shape of a touch episode: every poll between the start and the release
   * reports a contact, the release poll reports none, and the end point is the
   * first contact of the poll just before the release, or `stale` when the
   * release comes right after the start.
   */
  lemma {:induction false} EpisodeShape(feed: seq<Poll>, i: nat, stale: Option<Point>)
    requires PollAt(feed, i) != []
    ensures var ep := EpisodeAt(feed, i, stale);
      && PollAt(feed, ep.next - 1) == []
      && (forall j :: i <= j < ep.next - 1 ==> PollAt(feed, j) != [])
      && (ep.next == i + 2 ==> ep.end == stale)
      && (ep.next > i + 2 ==> ep.end == Some(PointOf(PollAt(feed, ep.next - 2)[0])))
  {
    var k := Release(feed, i + 1);
    assert EpisodeAt(feed, i, stale).next == k + 1;
  }

  /** The nested `while n > 0` loops of `touch_check`, polling until release. */
  method ReadEpisode(feed: seq<Poll>, i: nat, stale: Option<Point>) returns (ep: Episode)
    ensures ep == EpisodeAt(feed, i, stale)
  {
    var points := PollAt(feed, i);
    var pos := i + 1;
    if |points| == 0 {
      return NoContact(pos);
    }
    var start := PointOf(points[0]);
    var end := stale;
    points := PollAt(feed, pos);
    pos := pos + 1;
    while |points| > 0
      invariant i + 2 <= pos <= Release(feed, i + 1) + 1
      invariant points == PollAt(feed, pos - 1)
      invariant pos == i + 2 ==> end == stale
      invariant pos > i + 2 ==> PollAt(feed, pos - 2) != [] && end == Some(PointOf(PollAt(feed, pos - 2)[0]))
      decreases |feed| + 1 - pos
    {
      end := Some(PointOf(points[0]));
      points := PollAt(feed, pos);
      pos := pos + 1;
    }
    assert pos - 1 == Release(feed, i + 1);
    return Touched(start, end, pos);
  }

  /** Polls that agree on emptiness and on their first contact. */
  predicate SameFirstContacts(f1: seq<Poll>, f2: seq<Poll>) {
    && |f1| == |f2|
    && (forall j :: 0 <= j < |f1| ==> (f1[j] == []) == (f2[j] == []))
    && (forall j :: 0 <= j < |f1| && f1[j] != [] ==> f1[j][0] == f2[j][0])
  }

  lemma {:induction false} ReleaseFirstContacts(f1: seq<Poll>, f2: seq<Poll>, i: nat)
    requires SameFirstContacts(f1, f2)
    ensures Release(f1, i) == Release(f2, i)
    decreases |f1| - i
  {
    if PollAt(f1, i) != [] {
      ReleaseFirstContacts(f1, f2, i + 1);
    }
  }

  /** Only the first contact of each poll is read: later contacts and sizes are ignored. */
  lemma {:induction false} OnlyFirstContactRead(f1: seq<Poll>, f2: seq<Poll>, i: nat, stale: Option<Point>)
    requires SameFirstContacts(f1, f2)
    ensures EpisodeAt(f1, i, stale) == EpisodeAt(f2, i, stale)
  {
    ReleaseFirstContacts(f1, f2, i + 1);
    var k := Release(f1, i + 1);
    if i < |f1| {
      assert (f1[i] == []) == (f2[i] == []);
    }
    if k > i + 1 {
      assert PollAt(f1, k - 1) != [];
      assert f1[k - 1][0] == f2[k - 1][0];
    }
  }

  datatype Direction = Up | Down | Left | Right

  /** The decision taken at the end of an episode: a swipe, or a tap at a point. */
  datatype Action = Swipe(dir: Direction) | TapAt(at: Point)

  function Abs(n: int): nat {
    if n < 0 then -n else n
  }

  /** The movement test `yMove or xMove > tap_move`, which Python reads as
      `yMove != 0 or (xMove > tap_move)`. */
  predicate IsSwipe(xMove: int, yMove: int)
    ensures yMove != 0 ==> IsSwipe(xMove, yMove)
    ensures yMove == 0 ==> (IsSwipe(xMove, yMove) <==> xMove > TAP_MOVE)
  {
    yMove != 0 || xMove > TAP_MOVE
  }

  /** The branch at the end of an episode, over its start, end and duration. */
  function Classify(start: Point, end: Point, tapTime: int): (a: Action)
    ensures a.Swipe? <==> IsSwipe(end.x - start.x, end.y - start.y)
    ensures a.TapAt? ==> a.at == (if tapTime < SHORT_TAP_MS then start else end)
  {
    var yMove := end.y - start.y;
    var xMove := end.x - start.x;
    if IsSwipe(xMove, yMove) then
      if Abs(yMove) > Abs(xMove) then
        if yMove > 0 then Swipe(Down) else Swipe(Up)
      else
        if xMove > 0 then Swipe(Right) else Swipe(Left)
    else if tapTime < SHORT_TAP_MS then TapAt(start)
    else if tapTime < MEDIUM_TAP_MS then TapAt(end)
    else TapAt(end)
  }

  /** A swipe goes the way the finger moved along the dominant axis; a left swipe
      always has some vertical movement, because a flat move needs `xMove > 20`. */
  lemma SwipeFollowsMotion(start: Point, end: Point, t: int)
    ensures var dx, dy := end.x - start.x, end.y - start.y;
      && (Classify(start, end, t) == Swipe(Down) ==> dy > 0 && Abs(dy) > Abs(dx))
      && (Classify(start, end, t) == Swipe(Up) ==> dy < 0 && Abs(dy) > Abs(dx))
      && (Classify(start, end, t) == Swipe(Right) ==> dx > 0 && Abs(dx) >= Abs(dy))
      && (Classify(start, end, t) == Swipe(Left) ==> dx < 0 && Abs(dx) >= Abs(dy) && dy != 0)
  {
  }

  /** Conversely, the dominant axis and its sign pick the direction; ties go horizontal. */
  lemma {:induction false} DominantAxisDecides(start: Point, end: Point, t: int)
    requires IsSwipe(end.x - start.x, end.y - start.y)
    ensures var dx, dy := end.x - start.x, end.y - start.y;
      && (Abs(dy) > Abs(dx) ==> Classify(start, end, t) == (if dy > 0 then Swipe(Down) else Swipe(Up)))
      && (Abs(dy) <= Abs(dx) ==> Classify(start, end, t) == (if dx > 0 then Swipe(Right) else Swipe(Left)))
  {
  }

  /** A contact that ends where it started is a tap, never a swipe. */
  lemma StillContactIsTap(p: Point, t: int)
    ensures Classify(p, p, t) == TapAt(p)
  {
  }

  /** A purely leftward move, however long, is classified as a tap. */
  lemma FlatLeftwardMoveIsTap(start: Point, end: Point, t: int)
    requires end.y == start.y && end.x < start.x
    ensures Classify(start, end, t).TapAt?
  {
  }

  /** Any vertical movement at all, even one pixel, is a swipe. */
  lemma VerticalJitterSwipes(start: Point, end: Point, t: int)
    requires end.y != start.y
    ensures Classify(start, end, t).Swipe?
  {
  }

  /** Medium and long taps are indistinguishable: both report the end point. */
  lemma MediumAndLongTapsAgree(start: Point, end: Point, t1: int, t2: int)
    requires SHORT_TAP_MS <= t1 && SHORT_TAP_MS <= t2
    ensures Classify(start, end, t1) == Classify(start, end, t2)
  {
  }

  lemma ClassifyExamples()
    ensures Classify(Point(100, 100), Point(100, 160), 150) == Swipe(Down)
    ensures Classify(Point(100, 100), Point(160, 100), 150) == Swipe(Right)
    ensures Classify(Point(100, 100), Point(110, 100), 150) == TapAt(Point(100, 100))
    ensures Classify(Point(100, 100), Point(110, 100), 500) == TapAt(Point(110, 100))
    ensures Classify(Point(160, 100), Point(100, 100), 150) == TapAt(Point(160, 100))
  {
  }
}
