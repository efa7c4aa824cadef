/** The integer render scale, the visible view size, the camera offset and the
    scroll transition of `Drawer::draw` (src/Drawer.cpp). */
module Viewport {
  import opened CppArith
  import opened Geometry

  /** Seconds of scrolling per cell moved (`SCROLL_DURATION`). */
  const ScrollDuration: real := 0.1

  /** `reduce_min(window / tileSize / viewSize)`: the largest integer scale at
      which a grid of viewSize x viewSize tiles fits the window on both axes. */
  function Scale(window: Vec2, tileSize: int, viewSize: int): (s: int)
    requires tileSize > 0 && viewSize > 0 && window.x >= 0 && window.y >= 0
    ensures s >= 0
    ensures s * (tileSize * viewSize) <= window.x && s * (tileSize * viewSize) <= window.y
    ensures (s + 1) * (tileSize * viewSize) > window.x || (s + 1) * (tileSize * viewSize) > window.y
    ensures s > 0 ==> window.x > 0 && window.y > 0
  {
    var qx := window.x / tileSize / viewSize;
    var qy := window.y / tileSize / viewSize;
    FloorOfFloor(window.x, tileSize, viewSize);
    FloorOfFloor(window.y, tileSize, viewSize);
    MulMono(0, tileSize, viewSize);
    MulMono(Min(qx, qy), qx, tileSize * viewSize);
    MulMono(Min(qx, qy), qy, tileSize * viewSize);
    Min(qx, qy)
  }

  /** Dividing by t and then by v floors w / (t * v). */
  lemma FloorOfFloor(w: int, t: int, v: int)
    requires w >= 0 && t > 0 && v > 0
    ensures var q := w / t / v; q >= 0 && q * (t * v) <= w < (q + 1) * (t * v)
    ensures w / t / v > 0 ==> w >= t * v
  {
    var a := w / t;
    var q := a / v;
    assert a * t <= w < (a + 1) * t by { ModUnique(w, t, a, w % t); }
    assert q * v <= a < (q + 1) * v by { ModUnique(a, v, q, a % v); }
    MulMono(q * v, a, t);
    MulMono(a + 1, (q + 1) * v, t);
    MulAssoc(q, v, t);
    MulAssoc(q + 1, v, t);
    if q > 0 { MulMono(1, q, t * v); }
  }

  /** The view extended along the window's longer axis to match its aspect
      ratio, then clamped to the board. */
  function ViewSize(window: Vec2, desired: int, board: Vec2): (r: Vec2)
    requires window.x > 0 && window.y > 0 && desired >= 0
    ensures r.x <= board.x && r.y <= board.y
    ensures window.x > window.y ==>
              && r.y == Min(desired, board.y)
              && r.x >= Min(desired, board.x)
              && r.x * window.y <= desired * window.x
              && (r.x == board.x || desired * window.x < (r.x + 1) * window.y)
    ensures window.x <= window.y ==>
              && r.x == Min(desired, board.x)
              && r.y >= Min(desired, board.y)
              && r.y * window.x <= desired * window.y
              && (r.y == board.y || desired * window.y < (r.y + 1) * window.x)
  {
    if window.x > window.y then
      var long := desired * window.x / window.y;
      StretchedAxis(desired, window.x, window.y, board.x);
      MinVec(Vec2(long, desired), board)
    else
      var long := desired * window.y / window.x;
      StretchedAxis(desired, window.y, window.x, board.y);
      MinVec(Vec2(desired, long), board)
  }

  /** The long axis `desired * long / short`, clamped to `bound`, is the
      largest extent up to `bound` that keeps the window's aspect ratio. */
  lemma StretchedAxis(desired: int, long: int, short: int, bound: int)
    requires desired >= 0 && long >= short > 0
    ensures var e := Min(desired * long / short, bound);
            && e >= Min(desired, bound)
            && e * short <= desired * long
            && (e == bound || desired * long < (e + 1) * short)
  {
    var n := desired * long;
    var q := n / short;
    assert n == q * short + n % short;
    assert desired * short <= n < (q + 1) * short;
    MulCancel(desired, q + 1, short);
    var e := Min(q, bound);
    if e < q {
      assert e * short <= q * short;
    }
  }

  /** One axis of `positionToScrollOffset` as written: the cell before the
      actor rounded down (C++ `%`) to a page of viewSize - 2 cells, then
      clamped above so the view ends at the board's edge. A view of two cells
      would divide by zero. */
  function AxisOffset(position: int, viewSize: int, boardSize: int): (r: int)
    requires viewSize != 2
    ensures r <= boardSize - viewSize
  {
    Min(boardSize - viewSize, (position - 1) - CppRem(position - 1, viewSize - 2))
  }

  /** `positionToScrollOffset` as written. */
  function PositionToScrollOffset(position: Vec2, viewSize: Vec2, boardSize: Vec2): (r: Vec2)
    requires viewSize.x != 2 && viewSize.y != 2
    ensures r.x <= boardSize.x - viewSize.x && r.y <= boardSize.y - viewSize.y
  {
    Vec2(AxisOffset(position.x, viewSize.x, boardSize.x),
         AxisOffset(position.y, viewSize.y, boardSize.y))
  }

  /** The largest multiple of k that does not exceed n. */
  function PageStart(n: int, k: int): (p: int)
    requires k > 0
    ensures p % k == 0 && p <= n < p + k
  {
    ModUnique(n - n % k, k, n / k, 0);
    n - n % k
  }

  /** Past the first cell, the offset is the page start of the cell before
      the actor, clamped to the board. */
  lemma AxisOffsetPaged(position: int, viewSize: int, boardSize: int)
    requires position >= 1 && viewSize > 2
    ensures AxisOffset(position, viewSize, boardSize)
            == Min(boardSize - viewSize, PageStart(position - 1, viewSize - 2))
  {
  }

  /** For views of more than two cells that fit the board, the offset never
      goes below the board's first cell, except at the first cell with a
      view of three cells (see AxisOffsetLeavesBoard). */
  lemma AxisOffsetLowerBound(position: int, viewSize: int, boardSize: int)
    requires 0 <= position && 2 < viewSize <= boardSize
    requires position >= 1 || viewSize > 3
    ensures AxisOffset(position, viewSize, boardSize) >= 0
    ensures position == 0 ==> AxisOffset(position, viewSize, boardSize) == 0
  {
    if position == 0 {
      assert CppRem(-1, viewSize - 2) == -1;
    }
  }

  /** For views of more than two cells, the actor's own cell is inside
      the view. */
  lemma AxisOffsetKeepsActorVisible(position: int, viewSize: int, boardSize: int)
    requires 0 <= position < boardSize && 2 < viewSize <= boardSize
    ensures var r := AxisOffset(position, viewSize, boardSize);
            r <= position < r + viewSize
  {
    if position == 0 {
      assert CppRem(-1, viewSize - 2) == (if viewSize == 3 then 0 else -1);
    } else {
      AxisOffsetPaged(position, viewSize, boardSize);
    }
  }

  /** At the first cell with a three-cell view the offset is -1: the view
      starts one cell outside the board. */
  lemma AxisOffsetLeavesBoard(boardSize: int)
    requires boardSize >= 3
    ensures AxisOffset(0, 3, boardSize) == -1
  {
    assert CppRem(-1, 1) == 0;
  }

  /** With a one-cell view the divisor is -1, every remainder is 0, and the
      offset is the cell before the actor: the actor is never in view, and
      at the first cell the view starts outside the board. */
  lemma AxisOffsetOneCellView(position: int, boardSize: int)
    requires 0 <= position < boardSize
    ensures AxisOffset(position, 1, boardSize) == position - 1
    ensures !(AxisOffset(position, 1, boardSize) <= position < AxisOffset(position, 1, boardSize) + 1)
  {
    assert CppRem(position - 1, -1) == 0;
  }

  /** A board two cells wide gives a two-cell view whenever the desired view
      is at least two cells, and `positionToScrollOffset` then divides by
      zero: AxisOffset's requires fails on that axis. */
  lemma TwoCellBoardTwoCellView(window: Vec2, desired: int, board: Vec2)
    requires window.x > 0 && window.y > 0 && desired >= 2 && board.x == 2
    ensures ViewSize(window, desired, board).x == 2
  {
  }

  /** The offset as the doc comment describes it: the view never starts
      before the board's first cell, and a view too small to keep a margin
      (one or two cells) starts at the actor, pushed back onto the board. */
  function SafeAxisOffset(position: int, viewSize: int, boardSize: int): (r: int)
    ensures r >= 0
    ensures viewSize <= boardSize ==> r <= boardSize - viewSize
  {
    if viewSize > 2 then Max(0, AxisOffset(position, viewSize, boardSize))
    else Max(0, Min(position, boardSize - viewSize))
  }

  function SafeScrollOffset(position: Vec2, viewSize: Vec2, boardSize: Vec2): (r: Vec2)
    ensures r.x >= 0 && r.y >= 0
    ensures viewSize.x <= boardSize.x ==> r.x <= boardSize.x - viewSize.x
    ensures viewSize.y <= boardSize.y ==> r.y <= boardSize.y - viewSize.y
  {
    Vec2(SafeAxisOffset(position.x, viewSize.x, boardSize.x),
         SafeAxisOffset(position.y, viewSize.y, boardSize.y))
  }

  /** The corrected offset agrees with the code wherever the code keeps the
      actor on the board and in view, and it keeps the actor in view for
      every view that fits the board. */
  lemma SafeAxisOffsetAgrees(position: int, viewSize: int, boardSize: int)
    requires 0 <= position < boardSize && 0 < viewSize <= boardSize
    ensures 2 < viewSize && (position >= 1 || viewSize > 3) ==>
              SafeAxisOffset(position, viewSize, boardSize) == AxisOffset(position, viewSize, boardSize)
    ensures viewSize <= 2 ==>
              SafeAxisOffset(position, viewSize, boardSize) == Min(position, boardSize - viewSize)
    ensures viewSize == 1 ==> SafeAxisOffset(position, viewSize, boardSize) == position
    ensures var r := SafeAxisOffset(position, viewSize, boardSize);
            r <= position < r + viewSize
  {
    if viewSize > 2 {
      AxisOffsetKeepsActorVisible(position, viewSize, boardSize);
      if position >= 1 || viewSize > 3 {
        AxisOffsetLowerBound(position, viewSize, boardSize);
      }
    }
  }

  /** The actor's cell is inside the corrected view on both axes. */
  lemma SafeScrollOffsetKeepsActorVisible(position: Vec2, viewSize: Vec2, boardSize: Vec2)
    requires 0 <= position.x < boardSize.x && 0 < viewSize.x <= boardSize.x
    requires 0 <= position.y < boardSize.y && 0 < viewSize.y <= boardSize.y
    ensures var r := SafeScrollOffset(position, viewSize, boardSize);
            && 0 <= r.x <= position.x < r.x + viewSize.x <= boardSize.x
            && 0 <= r.y <= position.y < r.y + viewSize.y <= boardSize.y
  {
    SafeAxisOffsetAgrees(position.x, viewSize.x, boardSize.x);
    SafeAxisOffsetAgrees(position.y, viewSize.y, boardSize.y);
  }

  /** The animated scroll offset (`mScrollOffset`): at rest on a cell, or a
      transition from `from` to `to` started at `start` that takes `duration`. */
  datatype ScrollAnim = Settled(at: Vec2) | Moving(from: Vec2, to: Vec2, start: real, duration: real)
  {
    /** `isComplete()` at timeline time `now`. */
    predicate IsComplete(now: real) {
      Settled? || now >= start + duration
    }

    /** The value the offset has, or reaches, once complete. */
    function Target(): Vec2 {
      if Settled? then at else to
    }
  }

  /** The scroll-start rule: a new transition, from the previous position's
      offset to the current one, over the distance travelled, starts only
      when the previous one is complete and the offset has changed. */
  function NextScroll(s: ScrollAnim, now: real, last: Vec2, target: Vec2): (r: ScrollAnim)
    ensures r.Target() == (if s.IsComplete(now) then target else s.Target())
    ensures r != s <==> s.IsComplete(now) && target != s.Target()
    ensures r != s ==> r.Moving? && r.from == last && r.start == now
                       && r.duration == Chebyshev(target, last) as real * ScrollDuration
  {
    if s.IsComplete(now) && target != s.Target() then
      Moving(last, target, now, Chebyshev(target, last) as real * ScrollDuration)
    else
      s
  }

  /** Drawing again towards the same target never restarts a transition. */
  lemma NextScrollStable(s: ScrollAnim, now: real, last: Vec2, target: Vec2,
                         later: real, last': Vec2)
    ensures var r := NextScroll(s, now, last, target);
            s.IsComplete(now) ==> NextScroll(r, later, last', target) == r
  {
  }

  /** A transition lasts `ScrollDuration` per cell of Chebyshev distance, and
      none at all exactly when it does not move. */
  lemma NextScrollDuration(s: ScrollAnim, now: real, last: Vec2, target: Vec2)
    ensures var r := NextScroll(s, now, last, target);
            r.Moving? && r != s ==> r.duration >= 0.0 && (r.duration == 0.0 <==> last == target)
  {
  }

  /** Both ends of the transition lie in the box [0, hi]. */
  predicate InBox(s: ScrollAnim, hi: Vec2) {
    match s
    case Settled(at) => 0 <= at.x <= hi.x && 0 <= at.y <= hi.y
    case Moving(from, to, _, _) =>
      0 <= from.x <= hi.x && 0 <= from.y <= hi.y && 0 <= to.x <= hi.x && 0 <= to.y <= hi.y
  }

  /** The camera stays on the board: with the corrected offset, every
      transition runs between offsets in [0, board - view]. */
  lemma NextScrollStaysOnBoard(s: ScrollAnim, now: real, previous: Vec2, position: Vec2,
                               viewSize: Vec2, boardSize: Vec2)
    requires viewSize.x <= boardSize.x && viewSize.y <= boardSize.y
    requires InBox(s, Vec2(boardSize.x - viewSize.x, boardSize.y - viewSize.y))
    ensures InBox(NextScroll(s, now, SafeScrollOffset(previous, viewSize, boardSize),
                             SafeScrollOffset(position, viewSize, boardSize)),
                  Vec2(boardSize.x - viewSize.x, boardSize.y - viewSize.y))
  {
  }
}
