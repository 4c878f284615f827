/**
 * The 2016 Bresenham DrawLine (st7735.c): the int8_t deltas, the x-major
 * loop (which is the 2020 one) and the y-major loop, which walks back from
 * (x2, y2) and does not end at (x1, y1).
 */
module LegacyGraphics {
  import opened Bus
  import opened LegacyProtocol
  import LibGraphics

  /** Conversion of an integer to int8_t: two's-complement wrap-around. */
  function Int8(v: int): (r: int)
    ensures -128 <= r < 128
    ensures (r - v) % 256 == 0
  {
    (v + 128) % 256 - 128
  }

  /** delta and trace of one axis: the difference `b - a` stored in an
      int8_t and, when negative, negated in int8_t again with the trace
      turned to -1. Within 127 this is the distance and the direction; a
      longer distance wraps, and so does the walk. */
  function Delta(a: uint8, b: uint8): (r: (int, int))
    ensures -128 < b - a < 128 ==> r == (LibGraphics.Abs(b - a), LibGraphics.Dir(a, b))
    ensures b - a > 128 ==> r == (256 - (b - a), -1)
    ensures b - a < -128 ==> r == (256 + (b - a), 1)
    ensures b - a == 128 || b - a == -128 ==> r == (-128, -1)
  {
    var raw := Int8(b - a);
    if raw < 0 then (Int8(-raw), -1) else (raw, 1)
  }

  /** The endpoints lie within the reach of an int8_t delta. */
  predicate Short(a: uint8, b: uint8) {
    -127 <= b - a <= 127
  }

  /** The points after (x, y) of the y-major loop: y steps by -sy until it
      equals y1; when d is non-negative x steps by -sx (as a uint8_t, so
      modulo 256) and d gains 2 dy; d loses 2 dx every step. */
  function SteepBack(x: uint8, y: uint8, y1: uint8, sx: int, sy: int, dx: int, dy: int, d: int): seq<Point>
    requires sx == 1 || sx == -1
    requires sy == 1 || sy == -1
    requires LibGraphics.Left(y1, y, sy) >= 0
    decreases LibGraphics.Left(y1, y, sy)
  {
    if y == y1 then []
    else
      var y' := y - sy;
      var x' := if d >= 0 then (x - sx) % 256 else x;
      var d' := (if d >= 0 then d + 2 * dy else d) - 2 * dx;
      [Point(x', y')] + SteepBack(x', y', y1, sx, sy, dx, dy, d')
  }

  /** One step of the y-major walk. */
  lemma SteepBackUnfold(x: uint8, y: uint8, y1: uint8, sx: int, sy: int, dx: int, dy: int, d: int)
    requires sx == 1 || sx == -1
    requires sy == 1 || sy == -1
    requires LibGraphics.Left(y1, y, sy) > 0
    ensures 0 <= y - sy < 0x100
    ensures var x', y' := if d >= 0 then (x - sx) % 256 else x, y - sy;
            SteepBack(x, y, y1, sx, sy, dx, dy, d)
            == [Point(x', y')] + SteepBack(x', y', y1, sx, sy, dx, dy, (if d >= 0 then d + 2 * dy else d) - 2 * dx)
  {
  }

  /** The pixels DrawLine(x1, x2, y1, y2, c) plots, in order: from (x1, y1)
      along x when |dy| <= |dx|, otherwise from (x2, y2) along y. */
  function LinePoints(x1: uint8, x2: uint8, y1: uint8, y2: uint8): seq<Point>
    requires Short(x1, x2) && Short(y1, y2)
  {
    var (dx, sx) := Delta(x1, x2);
    var (dy, sy) := Delta(y1, y2);
    if dy <= dx then [Point(x1, y1)] + LibGraphics.Shallow(x1, y1, x2, sx, sy, dx, dy, 2 * dy - dx)
    else [Point(x2, y2)] + SteepBack(x2, y2, y1, sx, sy, dx, dy, dy - 2 * dx)
  }

  /** `x` moved n steps against direction s, as a uint8_t. */
  function Slide(x: uint8, n: nat, s: int): uint8 {
    if s == 1 then (x - n) % 256 else (x + n) % 256
  }

  /** `y` moved n steps against direction s, without wrapping. */
  function Back(y: int, n: nat, s: int): int {
    if s == 1 then y - n else y + n
  }

  /** One more step of a slide. */
  // Proof helper for SteepSlides.
  lemma SlideStep(x: uint8, n: nat, s: int)
    requires s == 1 || s == -1
    ensures Slide((x - s) % 256, n, s) == Slide(x, n + 1, s)
  {
  }

  /** The y-major walk from (x, y) with d non-negative and dy >= dx, the
      start included: d never turns negative, so each of the n steps moves
      y and x one step back, x as a uint8_t. */
  lemma {:induction false} SteepSlides(x: uint8, y: uint8, y1: uint8, sx: int, sy: int, dx: int, dy: int, d: int)
    requires sx == 1 || sx == -1
    requires sy == 1 || sy == -1
    requires LibGraphics.Left(y1, y, sy) >= 0
    requires d >= 0 && dy >= dx
    ensures var n, w := LibGraphics.Left(y1, y, sy), [Point(x, y)] + SteepBack(x, y, y1, sx, sy, dx, dy, d);
            |w| == n + 1 && forall k :: 0 <= k <= n ==> w[k] == Point(Slide(x, k, sx), Back(y, k, sy))
    decreases LibGraphics.Left(y1, y, sy)
  {
    var n := LibGraphics.Left(y1, y, sy);
    if y != y1 {
      var y', x' := y - sy, (x - sx) % 256;
      var d' := d + 2 * dy - 2 * dx;
      SteepSlides(x', y', y1, sx, sy, dx, dy, d');
      var rest := [Point(x', y')] + SteepBack(x', y', y1, sx, sy, dx, dy, d');
      var w := [Point(x, y)] + rest;
      assert w == [Point(x, y)] + SteepBack(x, y, y1, sx, sy, dx, dy, d);
      forall k | 1 <= k <= n
        ensures w[k] == Point(Slide(x, k, sx), Back(y, k, sy))
      {
        assert w[k] == rest[k - 1];
        SlideStep(x, k - 1, sx);
      }
    }
  }

  /** The y-major walk from (x, y) with d negative, the start included: d
      stays negative, so x never moves while y steps back n times. */
  lemma {:induction false} SteepStays(x: uint8, y: uint8, y1: uint8, sx: int, sy: int, dx: int, dy: int, d: int)
    requires sx == 1 || sx == -1
    requires sy == 1 || sy == -1
    requires LibGraphics.Left(y1, y, sy) >= 0
    requires d < 0 && dx >= 0
    ensures var n, w := LibGraphics.Left(y1, y, sy), [Point(x, y)] + SteepBack(x, y, y1, sx, sy, dx, dy, d);
            |w| == n + 1 && forall k :: 0 <= k <= n ==> w[k] == Point(x, Back(y, k, sy))
    decreases LibGraphics.Left(y1, y, sy)
  {
    var n := LibGraphics.Left(y1, y, sy);
    if y != y1 {
      var y' := y - sy;
      SteepStays(x, y', y1, sx, sy, dx, dy, d - 2 * dx);
      var rest := [Point(x, y')] + SteepBack(x, y', y1, sx, sy, dx, dy, d - 2 * dx);
      var w := [Point(x, y)] + rest;
      assert w == [Point(x, y)] + SteepBack(x, y, y1, sx, sy, dx, dy, d);
      forall k | 1 <= k <= n
        ensures w[k] == Point(x, Back(y, k, sy))
      {
        assert w[k] == rest[k - 1];
      }
    }
  }

  /** The x-major branch (|dy| <= |dx|) plots |dx| + 1 pixels from (x1, y1)
      to (x2, y2), x moving one step toward x2 each time and y staying or
      moving one step toward y2. */
  lemma LineShallow(x1: uint8, x2: uint8, y1: uint8, y2: uint8)
    requires Short(x1, x2) && Short(y1, y2)
    requires LibGraphics.Abs(y2 - y1) <= LibGraphics.Abs(x2 - x1)
    ensures var w, dx := LinePoints(x1, x2, y1, y2), LibGraphics.Abs(x2 - x1);
            |w| == dx + 1 && w[0] == Point(x1, y1) && w[dx] == Point(x2, y2) &&
            LibGraphics.Stepped(w, true, LibGraphics.Dir(x1, x2), LibGraphics.Dir(y1, y2))
  {
    var dx: int, dy: int := LibGraphics.Abs(x2 - x1), LibGraphics.Abs(y2 - y1);
    var sx, sy := LibGraphics.Dir(x1, x2), LibGraphics.Dir(y1, y2);
    assert LibGraphics.Left(x1, x2, sx) == dx && LibGraphics.Left(y1, y2, sy) == dy;
    if dx > 0 {
      LibGraphics.DecisionStart(dx, dy);
      LibGraphics.ShallowWalk(x1, y1, x2, y2, sx, sy, dx, dy, 2 * dy - dx);
    }
  }

  /** Where the 2020 DrawLine also walks along x (|dy| < |dx|), both
      generations plot the same pixels. */
  lemma ShallowAsLib(x1: uint8, x2: uint8, y1: uint8, y2: uint8)
    requires Short(x1, x2) && Short(y1, y2)
    requires LibGraphics.Abs(y2 - y1) < LibGraphics.Abs(x2 - x1)
    ensures LinePoints(x1, x2, y1, y2) == LibGraphics.LinePoints(x1, x2, y1, y2)
  {
  }

  /** The y-major branch unfolded with its deltas and traces. */
  lemma SteepBranch(x1: uint8, x2: uint8, y1: uint8, y2: uint8)
    requires Short(x1, x2) && Short(y1, y2)
    requires LibGraphics.Abs(x2 - x1) < LibGraphics.Abs(y2 - y1)
    ensures var dx: int, dy: int := LibGraphics.Abs(x2 - x1), LibGraphics.Abs(y2 - y1);
            LibGraphics.Left(y1, y2, LibGraphics.Dir(y1, y2)) == dy &&
            LinePoints(x1, x2, y1, y2) ==
              [Point(x2, y2)] + SteepBack(x2, y2, y1, LibGraphics.Dir(x1, x2), LibGraphics.Dir(y1, y2), dx, dy, dy - 2 * dx)
  {
  }

  /** The y-major branch (|dx| < |dy|) plots |dy| + 1 pixels, starting at
      (x2, y2) and stepping y back to y1. x is frozen at x2 when 2|dx| >
      |dy| and otherwise moves one step back every time. */
  lemma LineSteep(x1: uint8, x2: uint8, y1: uint8, y2: uint8)
    requires Short(x1, x2) && Short(y1, y2)
    requires LibGraphics.Abs(x2 - x1) < LibGraphics.Abs(y2 - y1)
    ensures var w, dy := LinePoints(x1, x2, y1, y2), LibGraphics.Abs(y2 - y1);
            |w| == dy + 1 && w[0] == Point(x2, y2) && w[dy].y == y1
    ensures var w, dx, dy := LinePoints(x1, x2, y1, y2), LibGraphics.Abs(x2 - x1), LibGraphics.Abs(y2 - y1);
            2 * dx <= dy ==>
              forall k :: 0 <= k <= dy ==> w[k] == Point(Slide(x2, k, LibGraphics.Dir(x1, x2)), Back(y2, k, LibGraphics.Dir(y1, y2)))
    ensures var w, dx, dy := LinePoints(x1, x2, y1, y2), LibGraphics.Abs(x2 - x1), LibGraphics.Abs(y2 - y1);
            2 * dx > dy ==>
              forall k :: 0 <= k <= dy ==> w[k] == Point(x2, Back(y2, k, LibGraphics.Dir(y1, y2)))
  {
    var dx: int, dy: int := LibGraphics.Abs(x2 - x1), LibGraphics.Abs(y2 - y1);
    var sx, sy := LibGraphics.Dir(x1, x2), LibGraphics.Dir(y1, y2);
    SteepBranch(x1, x2, y1, y2);
    if 2 * dx <= dy {
      SteepSlides(x2, y2, y1, sx, sy, dx, dy, dy - 2 * dx);
    } else {
      SteepStays(x2, y2, y1, sx, sy, dx, dy, dy - 2 * dx);
    }
    assert Back(y2, dy, sy) == y1;
  }

  /** Sliding from x2 by more steps than separate x1 from x2, and fewer
      than 256, does not land on x1. */
  // Proof helper for SteepMissesEnd.
  lemma SlideMisses(x1: uint8, x2: uint8, n: int)
    requires LibGraphics.Abs(x2 - x1) < n < 256
    ensures Slide(x2, n, LibGraphics.Dir(x1, x2)) != x1
  {
    if x2 >= x1 {
      if x2 - n < 0 {
        assert (x2 - n) % 256 == x2 - n + 256;
      }
    } else {
      if x2 + n >= 256 {
        assert (x2 + n) % 256 == x2 + n - 256;
      }
    }
  }

  /** The y-major branch never ends on (x1, y1): it reaches row y1 at
      column x2 when x is frozen (and then dx > 0), or |dy| columns from x2
      when x slides, and |dy| differs from |dx| by less than 256. */
  lemma SteepMissesEnd(x1: uint8, x2: uint8, y1: uint8, y2: uint8)
    requires Short(x1, x2) && Short(y1, y2)
    requires LibGraphics.Abs(x2 - x1) < LibGraphics.Abs(y2 - y1)
    ensures var w := LinePoints(x1, x2, y1, y2);
            |w| == LibGraphics.Abs(y2 - y1) + 1 && w[|w| - 1] != Point(x1, y1)
  {
    var dx: int, dy: int := LibGraphics.Abs(x2 - x1), LibGraphics.Abs(y2 - y1);
    LineSteep(x1, x2, y1, y2);
    if 2 * dx <= dy {
      SlideMisses(x1, x2, dy);
    }
  }

  /** DrawLine(0, 0, 0, 10), a vertical line of eleven pixels, slants one
      column left per row from (0, 10) and wraps, ending at (246, 0). */
  lemma VerticalSlants()
    ensures |LinePoints(0, 0, 0, 10)| == 11
    ensures LinePoints(0, 0, 0, 10)[10] == Point(246, 0)
  {
    LineSteep(0, 0, 0, 10);
  }

  /** DrawLine(0, 6, 0, 10), meant from (0, 0) to (6, 10), comes out as the
      vertical segment x == 6 from (6, 10) down to (6, 0). */
  lemma SteepFrozen()
    ensures |LinePoints(0, 6, 0, 10)| == 11
    ensures forall k :: 0 <= k <= 10 ==> LinePoints(0, 6, 0, 10)[k] == Point(6, 10 - k)
  {
    LineSteep(0, 6, 0, 10);
  }

  /** What DrawLine(x1, x2, y1, y2, c) sends. */
  function LineTrace(x1: uint8, x2: uint8, y1: uint8, y2: uint8, c: uint16): seq<Event>
    requires Short(x1, x2) && Short(y1, y2)
  {
    PixelsTrace(LinePoints(x1, x2, y1, y2), c)
  }
}
