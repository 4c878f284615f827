/**
 * The drawing primitives of the 2020 generation (lib/st7735.c): the
 * Bresenham DrawLine, the fast horizontal and vertical lines, rectangles,
 * ClearScreen and UpdateScreen, as the pixels or the window and colour count
 * they send.
 */
module LibGraphics {
  import opened Bus
  import opened LibDefs
  import opened LibProtocol

  // ----- Bresenham -----

  function Abs(v: int): nat {
    if v < 0 then -v else v
  }

  /** The step toward `to` from `from`: -1 when `to` is smaller, else +1
      (the trace_x / trace_y of DrawLine). */
  function Dir(from: int, to: int): int {
    if to - from < 0 then -1 else 1
  }

  /** How far the walk still has to go along one axis, counted in steps of
      `s`. */
  function Left(at: int, to: int, s: int): int {
    if s == 1 then to - at else at - to
  }

  /** The points after (x, y) of the x-major loop of DrawLine: x steps by sx
      until it equals x2; y steps by sy (as a uint8_t, so modulo 256) when the
      decision variable d is non-negative, which then loses 2 dx; d gains
      2 dy every step. */
  function Shallow(x: uint8, y: uint8, x2: uint8, sx: int, sy: int, dx: int, dy: int, d: int): seq<Point>
    requires sx == 1 || sx == -1
    requires sy == 1 || sy == -1
    requires Left(x, x2, sx) >= 0
    decreases Left(x, x2, sx)
  {
    if x == x2 then []
    else
      var x' := x + sx;
      var y' := if d >= 0 then (y + sy) % 256 else y;
      var d' := (if d >= 0 then d - 2 * dx else d) + 2 * dy;
      [Point(x', y')] + Shallow(x', y', x2, sx, sy, dx, dy, d')
  }

  /** The points after (x, y) of the 2020 y-major loop: y steps by sy until
      it equals y2; x steps by sx (modulo 256) when d <= 0, which then gains
      2 dy; d loses 2 dx every step. */
  function Steep(x: uint8, y: uint8, y2: uint8, sx: int, sy: int, dx: int, dy: int, d: int): seq<Point>
    requires sx == 1 || sx == -1
    requires sy == 1 || sy == -1
    requires Left(y, y2, sy) >= 0
    decreases Left(y, y2, sy)
  {
    if y == y2 then []
    else
      var y' := y + sy;
      var x' := if d <= 0 then (x + sx) % 256 else x;
      var d' := (if d <= 0 then d + 2 * dy else d) - 2 * dx;
      [Point(x', y')] + Steep(x', y', y2, sx, sy, dx, dy, d')
  }

  /** One step of the x-major walk. */
  lemma ShallowUnfold(x: uint8, y: uint8, x2: uint8, sx: int, sy: int, dx: int, dy: int, d: int)
    requires sx == 1 || sx == -1
    requires sy == 1 || sy == -1
    requires Left(x, x2, sx) > 0
    ensures 0 <= x + sx < 0x100
    ensures var x', y' := x + sx, if d >= 0 then (y + sy) % 256 else y;
            Shallow(x, y, x2, sx, sy, dx, dy, d)
            == [Point(x', y')] + Shallow(x', y', x2, sx, sy, dx, dy, (if d >= 0 then d - 2 * dx else d) + 2 * dy)
  {
  }

  /** One step of the y-major walk. */
  lemma SteepUnfold(x: uint8, y: uint8, y2: uint8, sx: int, sy: int, dx: int, dy: int, d: int)
    requires sx == 1 || sx == -1
    requires sy == 1 || sy == -1
    requires Left(y, y2, sy) > 0
    ensures 0 <= y + sy < 0x100
    ensures var x', y' := if d <= 0 then (x + sx) % 256 else x, y + sy;
            Steep(x, y, y2, sx, sy, dx, dy, d)
            == [Point(x', y')] + Steep(x', y', y2, sx, sy, dx, dy, (if d <= 0 then d + 2 * dy else d) - 2 * dx)
  {
  }

  /** The pixels DrawLine(x1, x2, y1, y2, c) plots, in order. */
  function LinePoints(x1: uint8, x2: uint8, y1: uint8, y2: uint8): seq<Point> {
    var dx: int, dy: int := Abs(x2 - x1), Abs(y2 - y1);
    var sx, sy := Dir(x1, x2), Dir(y1, y2);
    [Point(x1, y1)] +
      if dy < dx then Shallow(x1, y1, x2, sx, sy, dx, dy, 2 * dy - dx)
      else Steep(x1, y1, y2, sx, sy, dx, dy, dy - 2 * dx)
  }

  function Swap(p: Point): Point {
    Point(p.y, p.x)
  }

  function Transpose(ps: seq<Point>): seq<Point>
  {
    seq(|ps|, k requires 0 <= k < |ps| => Swap(ps[k]))
  }

  /** Each point of `ps` is one step from the one before: the major
      coordinate (x when xMajor) moves by exactly `sa`, the minor one stays
      or moves by exactly `sb`. */
  predicate Stepped(ps: seq<Point>, xMajor: bool, sa: int, sb: int) {
    forall k :: 0 < k < |ps| ==>
      if xMajor then
        ps[k].x == ps[k - 1].x + sa && (ps[k].y == ps[k - 1].y || ps[k].y == ps[k - 1].y + sb)
      else
        ps[k].y == ps[k - 1].y + sa && (ps[k].x == ps[k - 1].x || ps[k].x == ps[k - 1].x + sb)
  }

  /** Signs of a product with a positive factor. */
  // Proof helper for ScaledBelow and ScaledAbove.
  lemma Product(a: int, q: int)
    requires a > 0
    ensures q <= 0 ==> a * q <= 0
    ensures q >= 1 ==> a * q >= a
    ensures q <= -1 ==> a * q <= -a
  {
    if q >= 1 {
      assert a * q == a + a * (q - 1);
    } else if q <= -1 {
      assert a * q == -a + a * (q + 1);
    }
  }

  /** 2 dx q >= m with dx > 0 bounds the integer q from below. */
  // Proof helper for DecisionStep.
  lemma ScaledBelow(dx: int, q: int, m: int)
    requires dx > 0 && 2 * dx * q >= m
    ensures m > 0 ==> q >= 1
    ensures m > -2 * dx ==> q >= 0
  {
    Product(2 * dx, q);
  }

  /** 2 dx q < dx with dx > 0 bounds the integer q from above. */
  // Proof helper for DecisionEnd.
  lemma ScaledAbove(dx: int, q: int)
    requires dx > 0 && 2 * dx * q < dx
    ensures q <= 0
  {
    Product(2 * dx, q);
  }

  /** The decision variable of the x-major loop with q steps of the minor
      and r steps of the major coordinate still to go. */
  function Decision(q: int, r: int, dx: int, dy: int): int {
    2 * dx * q - 2 * dy * r + 2 * dy - dx
  }

  /** One iteration of the x-major loop keeps d == Decision(q, r, dx, dy)
      and 2 dy - 2 dx <= d < 2 dy, taking a minor step exactly when d >= 0,
      and never more minor steps than remain. */
  lemma DecisionStep(q: int, r: int, dx: int, dy: int, d: int)
    requires 0 <= dy <= dx && dx > 0 && r >= 1
    requires d == Decision(q, r, dx, dy) && 2 * dy - 2 * dx <= d < 2 * dy
    ensures q >= 0
    ensures d >= 0 ==> q >= 1
    ensures var q' := if d >= 0 then q - 1 else q;
            var d' := (if d >= 0 then d - 2 * dx else d) + 2 * dy;
            d' == Decision(q', r - 1, dx, dy) && 2 * dy - 2 * dx <= d' < 2 * dy
  {
    ScaledBelow(dx, q, 2 * dy * r - dx);
    if d >= 0 {
      ScaledBelow(dx, q, 2 * dy * (r - 1) + dx);
      assert 2 * dx * (q - 1) == 2 * dx * q - 2 * dx;
    }
    assert 2 * dy * (r - 1) == 2 * dy * r - 2 * dy;
  }

  /** When the major coordinate has arrived, so has the minor one. */
  lemma DecisionEnd(q: int, dx: int, dy: int, d: int)
    requires 0 <= dy <= dx && dx > 0
    requires d == Decision(q, 0, dx, dy) && 2 * dy - 2 * dx <= d < 2 * dy
    ensures q == 0
  {
    ScaledAbove(dx, q);
    ScaledBelow(dx, q, -dx);
  }

  /** A point followed by a stepped walk that starts one step from it is a
      stepped walk. */
  // Proof helper for ShallowWalk.
  lemma SteppedCons(p: Point, rest: seq<Point>, sa: int, sb: int)
    requires Stepped(rest, true, sa, sb)
    requires rest != [] ==> rest[0].x == p.x + sa && (rest[0].y == p.y || rest[0].y == p.y + sb)
    ensures Stepped([p] + rest, true, sa, sb)
  {
    var ps := [p] + rest;
    forall k | 0 < k < |ps|
      ensures ps[k].x == ps[k - 1].x + sa && (ps[k].y == ps[k - 1].y || ps[k].y == ps[k - 1].y + sb)
    {
      if k > 1 {
        assert ps[k] == rest[k - 1] && ps[k - 1] == rest[k - 2];
      }
    }
  }

  /** The x-major walk, started in the state DrawLine sets up, ends exactly
      on its target. With r steps of x and q steps of y still to go, the
      loop keeps d == Decision(q, r, dx, dy) and 2 dy - 2 dx <= d < 2 dy; so
      y never overshoots y2 (and never wraps), every step moves x by sx and
      y by 0 or sy, and after r steps y has reached y2. */
  lemma {:induction false} ShallowWalk(x: uint8, y: uint8, x2: uint8, y2: uint8,
                                       sx: int, sy: int, dx: int, dy: int, d: int)
    requires sx == 1 || sx == -1
    requires sy == 1 || sy == -1
    requires 0 <= dy <= dx && dx > 0
    requires Left(x, x2, sx) >= 0
    requires d == Decision(Left(y, y2, sy), Left(x, x2, sx), dx, dy)
    requires 2 * dy - 2 * dx <= d < 2 * dy
    ensures |Shallow(x, y, x2, sx, sy, dx, dy, d)| == Left(x, x2, sx)
    ensures ([Point(x, y)] + Shallow(x, y, x2, sx, sy, dx, dy, d))[Left(x, x2, sx)] == Point(x2, y2)
    ensures Stepped([Point(x, y)] + Shallow(x, y, x2, sx, sy, dx, dy, d), true, sx, sy)
    decreases Left(x, x2, sx)
  {
    var q, r := Left(y, y2, sy), Left(x, x2, sx);
    if x == x2 {
      DecisionEnd(q, dx, dy, d);
    } else {
      DecisionStep(q, r, dx, dy, d);
      var x' := x + sx;
      var y' := if d >= 0 then (y + sy) % 256 else y;
      var d' := (if d >= 0 then d - 2 * dx else d) + 2 * dy;
      assert Left(y', y2, sy) == if d >= 0 then q - 1 else q;
      ShallowWalk(x', y', x2, y2, sx, sy, dx, dy, d');
      var rest := [Point(x', y')] + Shallow(x', y', x2, sx, sy, dx, dy, d');
      assert [Point(x, y)] + Shallow(x, y, x2, sx, sy, dx, dy, d) == [Point(x, y)] + rest;
      SteppedCons(Point(x, y), rest, sx, sy);
    }
  }

  /** The y-major loop of the 2020 DrawLine is the x-major loop with the
      axes exchanged and the decision variable negated. */
  lemma {:induction false} SteepIsTransposedShallow(x: uint8, y: uint8, y2: uint8,
                                                    sx: int, sy: int, dx: int, dy: int, d: int)
    requires sx == 1 || sx == -1
    requires sy == 1 || sy == -1
    requires Left(y, y2, sy) >= 0
    ensures Steep(x, y, y2, sx, sy, dx, dy, d) == Transpose(Shallow(y, x, y2, sy, sx, dy, dx, -d))
    decreases Left(y, y2, sy)
  {
    if y != y2 {
      var y' := y + sy;
      var x' := if d <= 0 then (x + sx) % 256 else x;
      var d' := (if d <= 0 then d + 2 * dy else d) - 2 * dx;
      SteepIsTransposedShallow(x', y', y2, sx, sy, dx, dy, d');
      var s := Shallow(y, x, y2, sy, sx, dy, dx, -d);
      var rest := Shallow(y', x', y2, sy, sx, dy, dx, -d');
      assert s == [Point(y', x')] + rest;
      TransposeBack(Point(x', y'), rest);
      assert Steep(x, y, y2, sx, sy, dx, dy, d) == [Point(x', y')] + Steep(x', y', y2, sx, sy, dx, dy, d');
    }
  }

  // Proof helper for LineSteep.
  lemma TransposeStepped(ps: seq<Point>, sa: int, sb: int)
    requires Stepped(ps, true, sa, sb)
    ensures Stepped(Transpose(ps), false, sa, sb)
  {
  }

  // Proof helper for SteepIsTransposedShallow.
  lemma TransposeBack(p: Point, ps: seq<Point>)
    ensures [p] + Transpose(ps) == Transpose([Swap(p)] + ps)
  {
  }

  /** The decision variable DrawLine starts from: 2 dy - dx. */
  lemma DecisionStart(dx: int, dy: int)
    ensures Decision(dy, dx, dx, dy) == 2 * dy - dx
  {
    assert 2 * dx * dy == 2 * dy * dx;
  }

  lemma LineShallow(x1: uint8, x2: uint8, y1: uint8, y2: uint8)
    requires Abs(y2 - y1) < Abs(x2 - x1)
    ensures |LinePoints(x1, x2, y1, y2)| == Abs(x2 - x1) + 1
    ensures LinePoints(x1, x2, y1, y2)[Abs(x2 - x1)] == Point(x2, y2)
    ensures Stepped(LinePoints(x1, x2, y1, y2), true, Dir(x1, x2), Dir(y1, y2))
  {
    var dx: int, dy: int := Abs(x2 - x1), Abs(y2 - y1);
    assert Left(x1, x2, Dir(x1, x2)) == dx && Left(y1, y2, Dir(y1, y2)) == dy;
    DecisionStart(dx, dy);
    ShallowWalk(x1, y1, x2, y2, Dir(x1, x2), Dir(y1, y2), dx, dy, 2 * dy - dx);
  }

  /** The y-major walk from DrawLine's starting state, via its transposed
      x-major walk. */
  lemma SteepWalk(x1: uint8, x2: uint8, y1: uint8, y2: uint8, dx: int, dy: int, sx: int, sy: int)
    requires dx == Abs(x2 - x1) && dy == Abs(y2 - y1) && sx == Dir(x1, x2) && sy == Dir(y1, y2)
    requires dx <= dy && y1 != y2
    ensures var w := [Point(x1, y1)] + Steep(x1, y1, y2, sx, sy, dx, dy, dy - 2 * dx);
            |w| == dy + 1 && w[dy] == Point(x2, y2) && Stepped(w, false, sy, sx)
  {
    assert Left(x1, x2, sx) == dx && Left(y1, y2, sy) == dy;
    DecisionStart(dy, dx);
    var d := dy - 2 * dx;
    assert -d == Decision(Left(x1, x2, sx), Left(y1, y2, sy), dy, dx);
    SteepIsTransposedShallow(x1, y1, y2, sx, sy, dx, dy, d);
    ShallowWalk(y1, x1, y2, x2, sy, sx, dy, dx, -d);
    var s := Shallow(y1, x1, y2, sy, sx, dy, dx, -d);
    var t := [Point(y1, x1)] + s;
    TransposeBack(Point(x1, y1), s);
    TransposeWalk(t, dy, Point(y2, x2), sy, sx);
    assert [Point(x1, y1)] + Steep(x1, y1, y2, sx, sy, dx, dy, d) == Transpose(t);
  }

  /** Exchanging the axes of an x-major walk of n steps ending at p gives a
      y-major walk of n steps ending at p swapped. */
  // Proof helper for LineSteep.
  lemma TransposeWalk(t: seq<Point>, n: nat, p: Point, sa: int, sb: int)
    requires |t| == n + 1 && t[n] == p && Stepped(t, true, sa, sb)
    ensures |Transpose(t)| == n + 1 && Transpose(t)[n] == Swap(p)
    ensures Stepped(Transpose(t), false, sa, sb)
  {
    TransposeStepped(t, sa, sb);
  }

  lemma LineSteep(x1: uint8, x2: uint8, y1: uint8, y2: uint8)
    requires Abs(x2 - x1) <= Abs(y2 - y1)
    ensures |LinePoints(x1, x2, y1, y2)| == Abs(y2 - y1) + 1
    ensures LinePoints(x1, x2, y1, y2)[Abs(y2 - y1)] == Point(x2, y2)
    ensures Stepped(LinePoints(x1, x2, y1, y2), false, Dir(y1, y2), Dir(x1, x2))
  {
    if y1 != y2 {
      SteepWalk(x1, x2, y1, y2, Abs(x2 - x1), Abs(y2 - y1), Dir(x1, x2), Dir(y1, y2));
    } else {
      assert LinePoints(x1, x2, y1, y2) == [Point(x1, y1)];
    }
  }

  /** DrawLine plots max(|x2 - x1|, |y2 - y1|) + 1 pixels, starting at
      (x1, y1) and ending at (x2, y2); it walks along x when |y2 - y1| <
      |x2 - x1| and along y otherwise, each step moving the major coordinate
      by exactly one toward the end point and the minor one by 0 or by one
      toward its end. */
  lemma LineEnds(x1: uint8, x2: uint8, y1: uint8, y2: uint8)
    ensures |LinePoints(x1, x2, y1, y2)| == Max(Abs(x2 - x1), Abs(y2 - y1)) + 1
    ensures LinePoints(x1, x2, y1, y2)[0] == Point(x1, y1)
    ensures LinePoints(x1, x2, y1, y2)[|LinePoints(x1, x2, y1, y2)| - 1] == Point(x2, y2)
    ensures Abs(y2 - y1) < Abs(x2 - x1) ==>
              Stepped(LinePoints(x1, x2, y1, y2), true, Dir(x1, x2), Dir(y1, y2))
    ensures Abs(x2 - x1) <= Abs(y2 - y1) ==>
              Stepped(LinePoints(x1, x2, y1, y2), false, Dir(y1, y2), Dir(x1, x2))
  {
    if Abs(y2 - y1) < Abs(x2 - x1) {
      LineShallow(x1, x2, y1, y2);
    } else {
      LineSteep(x1, x2, y1, y2);
    }
  }

  function Max(a: int, b: int): int {
    if a < b then b else a
  }

  /** Reversing a line does not give the same pixels: with the tie rule
      `D >= 0`, (0, 0) to (2, 1) plots (1, 1) in the middle, while (2, 1) to
      (0, 0) plots (1, 0). */
  lemma LineNotSymmetric()
    ensures LinePoints(0, 2, 0, 1) == [Point(0, 0), Point(1, 1), Point(2, 1)]
    ensures LinePoints(2, 0, 1, 0) == [Point(2, 1), Point(1, 0), Point(0, 0)]
  {
    assert Shallow(0, 0, 2, 1, 1, 2, 1, 0) == [Point(1, 1)] + Shallow(1, 1, 2, 1, 1, 2, 1, -2);
    assert Shallow(1, 1, 2, 1, 1, 2, 1, -2) == [Point(2, 1)] + Shallow(2, 1, 2, 1, 1, 2, 1, 0);
    assert Shallow(2, 1, 0, -1, -1, 2, 1, 0) == [Point(1, 0)] + Shallow(1, 0, 0, -1, -1, 2, 1, -2);
    assert Shallow(1, 0, 0, -1, -1, 2, 1, -2) == [Point(0, 0)] + Shallow(0, 0, 0, -1, -1, 2, 1, 0);
  }

  // ----- windows filled by one colour stream -----

  /** SetWindow(x0, x1, y0, y1) followed by SendColor565(c, n). */
  function FillTrace(x0: uint8, x1: uint8, y0: uint8, y1: uint8, n: uint16, c: uint16): seq<Event> {
    WindowFrames(x0, x1, y0, y1) + ColorTrace(c, n)
  }

  /** DrawLineHorizontal: the swap branch copies xs into xe and then xs into
      itself, so afterwards both ends hold xs; the count is xe - xs. */
  function HorizontalTrace(xs: uint8, xe: uint8, y: uint8, c: uint16): seq<Event> {
    var e := if xs > xe then xs else xe;
    FillTrace(xs, e, y, y, e - xs, c)
  }

  /** DrawLineVertical, the same on the y axis. */
  function VerticalTrace(x: uint8, ys: uint8, ye: uint8, c: uint16): seq<Event> {
    var e := if ys > ye then ys else ye;
    FillTrace(x, x, ys, e, e - ys, c)
  }

  /** With xs <= xe the horizontal line opens the window [xs..xe] x [y..y]
      but streams one colour fewer than that window holds. */
  lemma HorizontalOneShort(xs: uint8, xe: uint8, y: uint8, c: uint16)
    requires xs <= xe
    ensures HorizontalTrace(xs, xe, y, c) == WindowFrames(xs, xe, y, y) + ColorTrace(c, Area(xs, xe, y, y) - 1)
  {
  }

  /** With xs > xe the broken swap leaves the single-pixel window (xs, y)
      and streams no colour at all: nothing is drawn even where the window
      is accepted. */
  lemma HorizontalReversedEmpty(xs: uint8, xe: uint8, y: uint8, c: uint16)
    requires xs > xe
    ensures HorizontalTrace(xs, xe, y, c) == WindowFrames(xs, xs, y, y) + [Command(RAMWR)]
    ensures Area(xs, xs, y, y) == 1
  {
  }

  lemma VerticalOneShort(x: uint8, ys: uint8, ye: uint8, c: uint16)
    requires ys <= ye
    ensures VerticalTrace(x, ys, ye, c) == WindowFrames(x, x, ys, ye) + ColorTrace(c, Area(x, x, ys, ye) - 1)
  {
  }

  lemma VerticalReversedEmpty(x: uint8, ys: uint8, ye: uint8, c: uint16)
    requires ys > ye
    ensures VerticalTrace(x, ys, ye, c) == WindowFrames(x, x, ys, ys) + [Command(RAMWR)]
    ensures Area(x, x, ys, ys) == 1
  {
  }

  /** DrawRectangle orders both axes with a correct swap, then streams
      (xe - xs + 1) * (ye - ys + 1) colours, narrowed to the uint16_t count. */
  function RectangleTrace(xs: uint8, xe: uint8, ys: uint8, ye: uint8, c: uint16): seq<Event> {
    var x0, x1 := if xs > xe then xe else xs, if xs > xe then xs else xe;
    var y0, y1 := if ys > ye then ye else ys, if ys > ye then ys else ye;
    FillTrace(x0, x1, y0, y1, ((x1 - x0 + 1) * (y1 - y0 + 1)) % 0x1_0000, c)
  }

  /** Whichever corners it is given, a rectangle is accepted exactly when
      both of its larger coordinates lie on the panel, and then it streams
      exactly as many colours as its window holds (the count never wraps). */
  lemma RectangleFills(xs: uint8, xe: uint8, ys: uint8, ye: uint8, c: uint16)
    ensures var x0, x1 := Min(xs, xe), Max(xs, xe);
            var y0, y1 := Min(ys, ye), Max(ys, ye);
            && WindowOk(x0, x1, y0, y1) == (x1 <= SIZE_X && y1 <= SIZE_Y)
            && (WindowOk(x0, x1, y0, y1) ==>
                  RectangleTrace(xs, xe, ys, ye, c) == WindowFrames(x0, x1, y0, y1) + ColorTrace(c, Area(x0, x1, y0, y1)))
  {
    var x0, x1 := Min(xs, xe), Max(xs, xe);
    var y0, y1 := Min(ys, ye), Max(ys, ye);
    if WindowOk(x0, x1, y0, y1) {
      AreaBound(x0, x1, y0, y1);
    }
  }

  function Min(a: int, b: int): int {
    if a < b then a else b
  }

  /** An accepted window holds at most CACHE_SIZE_MEM pixels. */
  lemma AreaBound(x0: uint8, x1: uint8, y0: uint8, y1: uint8)
    requires WindowOk(x0, x1, y0, y1)
    ensures 1 <= Area(x0, x1, y0, y1) <= CACHE_SIZE_MEM < 0x1_0000
  {
    var w, h := x1 - x0 + 1, y1 - y0 + 1;
    assert 1 <= w <= MAX_X && 1 <= h <= MAX_Y;
    assert w * h <= MAX_X * h <= MAX_X * MAX_Y;
  }

  /** ClearScreen: the whole panel as a window, then CACHE_SIZE_MEM colours. */
  function ClearTrace(c: uint16): seq<Event> {
    FillTrace(0, SIZE_X, 0, SIZE_Y, CACHE_SIZE_MEM, c)
  }

  /** The full-screen window is accepted and CACHE_SIZE_MEM is exactly its
      area, so ClearScreen paints every pixel once. */
  lemma ClearFillsPanel(c: uint16)
    ensures WindowOk(0, SIZE_X, 0, SIZE_Y)
    ensures ClearTrace(c) == WindowFrames(0, SIZE_X, 0, SIZE_Y) + ColorTrace(c, Area(0, SIZE_X, 0, SIZE_Y))
  {
  }
}
