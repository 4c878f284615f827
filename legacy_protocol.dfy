/**
 * What the 2016 window and stream operations put on the bus (st7735.c:
 * CmdOrDataSend, SetWindow, SendColor565, DrawPixel, ClearScreen), as
 * functions of their arguments. Unlike the 2020 generation, every byte
 * travels alone in its own chip-select frame. The Display class in
 * LegacyDriver is proved to append exactly these events.
 */
module LegacyProtocol {
  import opened Bus
  import opened LegacyDefs
  import LibProtocol

  /** What CmdOrDataSend(sel, b) sends: the one byte in a chip-select frame
      of its own, with the DC line at the selector's level. */
  function Send(sel: CmdOrData, b: uint8): Event {
    Frame(sel.Level(), [b])
  }

  /** CmdOrDataSend(COMMAND, b) is a command frame and CmdOrDataSend(DATA,
      b) a data frame, each carrying exactly b. */
  lemma SendFrames(b: uint8)
    ensures Send(COMMAND, b) == Command(b) && Send(DATA, b) == Data(b)
    ensures Commands([Send(COMMAND, b)]) == [b] && DataBytes([Send(COMMAND, b)]) == []
    ensures Commands([Send(DATA, b)]) == [] && DataBytes([Send(DATA, b)]) == [b]
  {
    ReadCons(Command(b), []);
    ReadCons(Data(b), []);
    assert [Command(b)] + [] == [Command(b)];
    assert [Data(b)] + [] == [Data(b)];
  }

  /** The four rejections of SetWindow, negated. */
  predicate WindowOk(x0: uint8, x1: uint8, y0: uint8, y1: uint8) {
    !(x0 > x1 || x1 > SIZE_X || y0 > y1 || y1 > SIZE_Y)
  }

  /** What SetWindow sends: nothing for a rejected window, otherwise CASET,
      then 0, x0, 0, x1 as single data frames, then RASET, then 0, y0, 0,
      y1. */
  function WindowFrames(x0: uint8, x1: uint8, y0: uint8, y1: uint8): (r: seq<Event>)
    ensures !WindowOk(x0, x1, y0, y1) ==> r == []
    ensures WindowOk(x0, x1, y0, y1) ==> |r| == 10
  {
    if !WindowOk(x0, x1, y0, y1) then []
    else [Command(CASET)] + DataFrames([0x00, x0, 0x00, x1]) + [Command(RASET)] + DataFrames([0x00, y0, 0x00, y1])
  }

  /** An accepted window, frame by frame as SetWindow sends it: each axis
      as its command and four data bytes. */
  lemma WindowSends(x0: uint8, x1: uint8, y0: uint8, y1: uint8)
    requires WindowOk(x0, x1, y0, y1)
    ensures WindowFrames(x0, x1, y0, y1) ==
            [Send(COMMAND, CASET), Send(DATA, 0x00), Send(DATA, x0), Send(DATA, 0x00), Send(DATA, x1)] +
            [Send(COMMAND, RASET), Send(DATA, 0x00), Send(DATA, y0), Send(DATA, 0x00), Send(DATA, y1)]
  {
    assert DataFrames([0x00, x0, 0x00, x1]) == [Data(0x00), Data(x0), Data(0x00), Data(x1)];
    assert DataFrames([0x00, y0, 0x00, y1]) == [Data(0x00), Data(y0), Data(0x00), Data(y1)];
  }

  /** SetWindow's return value: 1 on success, 0 on rejection (the
      opposite of the 2020 convention, where 0 is ST7735_SUCCESS). */
  function WindowStatus(x0: uint8, x1: uint8, y0: uint8, y1: uint8): (r: uint8)
    ensures r == 1 <==> WindowOk(x0, x1, y0, y1)
    ensures r == 0 <==> !WindowOk(x0, x1, y0, y1)
  {
    if !WindowOk(x0, x1, y0, y1) then 0 else 1
  }

  /** Read back, an accepted window is the CASET and RASET commands with
      the data 0, x0, 0, x1, 0, y0, 0, y1, every frame one byte long. */
  lemma ReadWindow(x0: uint8, x1: uint8, y0: uint8, y1: uint8)
    requires WindowOk(x0, x1, y0, y1)
    ensures Commands(WindowFrames(x0, x1, y0, y1)) == [CASET, RASET]
    ensures DataBytes(WindowFrames(x0, x1, y0, y1)) == [0, x0, 0, x1, 0, y0, 0, y1]
    ensures Waited(WindowFrames(x0, x1, y0, y1)) == 0
    ensures forall k :: 0 <= k < 10 ==> |WindowFrames(x0, x1, y0, y1)[k].bytes| == 1
  {
    var columns := [Command(CASET)] + DataFrames([0x00, x0, 0x00, x1]);
    var rows := [Command(RASET)] + DataFrames([0x00, y0, 0x00, y1]);
    assert WindowFrames(x0, x1, y0, y1) == columns + rows;
    ReadAxis(CASET, x0, x1);
    ReadAxis(RASET, y0, y1);
    ReadersAppend(columns, rows);
    assert [0, x0, 0, x1] + [0, y0, 0, y1] == [0, x0, 0, x1, 0, y0, 0, y1];
  }

  /** One axis of SetWindow: the command, then the two bounds each behind a
      zero byte. */
  lemma ReadAxis(cmd: uint8, lo: uint8, hi: uint8)
    ensures Commands([Command(cmd)] + DataFrames([0x00, lo, 0x00, hi])) == [cmd]
    ensures DataBytes([Command(cmd)] + DataFrames([0x00, lo, 0x00, hi])) == [0, lo, 0, hi]
    ensures Waited([Command(cmd)] + DataFrames([0x00, lo, 0x00, hi])) == 0
  {
    ReadDataFrames([0x00, lo, 0x00, hi]);
    ReadCons(Command(cmd), DataFrames([0x00, lo, 0x00, hi]));
  }

  /** A window both generations accept reads back to the same commands and
      the same data bytes: the 2016 SetWindow sends each zero byte and each
      bound in a frame of its own, the 2020 one each word in one frame. */
  lemma WindowAsLib(x0: uint8, x1: uint8, y0: uint8, y1: uint8)
    requires WindowOk(x0, x1, y0, y1) && LibProtocol.WindowOk(x0, x1, y0, y1)
    ensures Commands(WindowFrames(x0, x1, y0, y1)) == Commands(LibProtocol.WindowFrames(x0, x1, y0, y1))
    ensures DataBytes(WindowFrames(x0, x1, y0, y1)) == DataBytes(LibProtocol.WindowFrames(x0, x1, y0, y1))
    ensures |WindowFrames(x0, x1, y0, y1)| == |LibProtocol.WindowFrames(x0, x1, y0, y1)| + 4
  {
    ReadWindow(x0, x1, y0, y1);
    LibProtocol.ReadWindow(x0, x1, y0, y1);
  }

  /** The 2n data frames of `n` colour words: high byte, then low byte,
      n times over. */
  function Pairs(c: uint16, n: nat): seq<Event> {
    if n == 0 then [] else Pairs(c, n - 1) + [Data(c / 0x100), Data(c % 0x100)]
  }

  /** What SendColor565(c, n) sends: RAMWR, then the n words. */
  function ColorTrace(c: uint16, n: nat): seq<Event> {
    [Command(RAMWR)] + Pairs(c, n)
  }

  /** Read back, a colour stream is one RAMWR command followed by 2n
      single-byte data frames alternating the high and the low byte of the
      colour; n == 0 sends the command alone. */
  lemma ReadColorTrace(c: uint16, n: nat)
    ensures |ColorTrace(c, n)| == 2 * n + 1
    ensures Commands(ColorTrace(c, n)) == [RAMWR]
    ensures DataBytes(ColorTrace(c, n)) == Repeat([c / 0x100, c % 0x100], n)
    ensures Waited(ColorTrace(c, n)) == 0
    ensures n == 0 ==> ColorTrace(c, n) == [Command(RAMWR)]
  {
    ReadPairs(c, n);
    PairsAlternate(c, n);
    ReadCons(Command(RAMWR), Pairs(c, n));
  }

  /** After RAMWR, the frames of a colour stream alternate the high byte
      (odd positions) and the low byte (even positions). */
  lemma ColorAlternates(c: uint16, n: nat)
    ensures forall k :: 0 < k < |ColorTrace(c, n)| ==>
              ColorTrace(c, n)[k] == if k % 2 == 1 then Data(c / 0x100) else Data(c % 0x100)
  {
    PairsAlternate(c, n);
    forall k | 0 < k < |ColorTrace(c, n)|
      ensures ColorTrace(c, n)[k] == Pairs(c, n)[k - 1]
    {
    }
  }

  lemma {:induction false} ReadPairs(c: uint16, n: nat)
    ensures Commands(Pairs(c, n)) == []
    ensures DataBytes(Pairs(c, n)) == Repeat([c / 0x100, c % 0x100], n)
    ensures Waited(Pairs(c, n)) == 0
  {
    if n > 0 {
      var word := [Data(c / 0x100), Data(c % 0x100)];
      ReadPairs(c, n - 1);
      ReadersAppend(Pairs(c, n - 1), word);
      ReadCons(Data(c / 0x100), [Data(c % 0x100)]);
      ReadCons(Data(c % 0x100), []);
      assert word == [Data(c / 0x100)] + [Data(c % 0x100)];
      assert [Data(c % 0x100)] == [Data(c % 0x100)] + [];
    }
  }

  /** The frames of `n` words alternate the high and the low byte. */
  lemma {:induction false} PairsAlternate(c: uint16, n: nat)
    ensures |Pairs(c, n)| == 2 * n
    ensures forall k :: 0 <= k < 2 * n ==>
              Pairs(c, n)[k] == if k % 2 == 0 then Data(c / 0x100) else Data(c % 0x100)
  {
    if n > 0 {
      PairsAlternate(c, n - 1);
    }
  }

  /** Both generations stream the same bytes for a colour: the 2016 one in
      single-byte frames, the 2020 one in two-byte frames. */
  lemma ColorAsLib(c: uint16, n: nat)
    ensures Commands(ColorTrace(c, n)) == Commands(LibProtocol.ColorTrace(c, n))
    ensures DataBytes(ColorTrace(c, n)) == DataBytes(LibProtocol.ColorTrace(c, n))
    ensures |ColorTrace(c, n)| == |LibProtocol.ColorTrace(c, n)| + n
  {
    ReadColorTrace(c, n);
    LibProtocol.ReadColorTrace(c, n);
  }

  /** What DrawPixel(x, y, c) sends: a one-pixel window, then a stream of
      one colour word. */
  function PixelTrace(p: Point, c: uint16): seq<Event> {
    WindowFrames(p.x, p.x, p.y, p.y) + ColorTrace(c, 1)
  }

  /** DrawPixel ignores SetWindow's result: whatever the point, it ends with
      RAMWR and the two bytes of the colour; the window frames are present
      exactly when the point lies on the panel. */
  lemma PixelAlwaysStreams(p: Point, c: uint16)
    ensures |PixelTrace(p, c)| >= 3
    ensures PixelTrace(p, c)[|PixelTrace(p, c)| - 3..] == [Command(RAMWR), Data(c / 0x100), Data(c % 0x100)]
    ensures |PixelTrace(p, c)| == 13 <==> p.x <= SIZE_X && p.y <= SIZE_Y
    ensures |PixelTrace(p, c)| == 3 <==> !(p.x <= SIZE_X && p.y <= SIZE_Y)
  {
    assert Pairs(c, 1) == [] + [Data(c / 0x100), Data(c % 0x100)];
    assert ColorTrace(c, 1) == [Command(RAMWR), Data(c / 0x100), Data(c % 0x100)];
  }

  /** The pixels of a list, drawn one after another. */
  function PixelsTrace(ps: seq<Point>, c: uint16): seq<Event> {
    if ps == [] then [] else PixelTrace(ps[0], c) + PixelsTrace(ps[1..], c)
  }

  /** Drawing a list of pixels is drawing its first pixel, then the rest. */
  // Proof helper for the line and glyph walks.
  lemma PixelsTraceCons(p: Point, ps: seq<Point>, c: uint16)
    ensures PixelsTrace([p] + ps, c) == PixelTrace(p, c) + PixelsTrace(ps, c)
  {
    assert ([p] + ps)[0] == p;
    assert ([p] + ps)[1..] == ps;
  }

  /** Drawing two lists of pixels is drawing their concatenation. */
  // Proof helper for the line and glyph walks.
  lemma {:induction false} PixelsTraceAppend(a: seq<Point>, b: seq<Point>, c: uint16)
    ensures PixelsTrace(a + b, c) == PixelsTrace(a, c) + PixelsTrace(b, c)
  {
    if a == [] {
      assert a + b == b;
    } else {
      assert (a + b)[0] == a[0];
      assert (a + b)[1..] == a[1..] + b;
      PixelsTraceAppend(a[1..], b, c);
    }
  }

  /** Drawing one more pixel after a list of pixels. */
  // Proof helper for the bit loop of LegacyDriver.Display.DrawColumn.
  lemma PixelsTraceSnoc(ps: seq<Point>, p: Point, c: uint16)
    ensures PixelsTrace(ps + [p], c) == PixelsTrace(ps, c) + PixelTrace(p, c)
  {
    PixelsTraceAppend(ps, [p], c);
    PixelsTraceCons(p, [], c);
    assert [p] + [] == [p];
  }

  /** What ClearScreen(c) sends: the full-panel window, then CACHE_SIZE_MEM
      colour words. */
  function ClearTrace(c: uint16): seq<Event> {
    WindowFrames(0, SIZE_X, 0, SIZE_Y) + ColorTrace(c, CACHE_SIZE_MEM)
  }

  /** ClearScreen's window is accepted and holds exactly as many pixels as
      it streams colour words. */
  lemma ClearFillsPanel(c: uint16)
    ensures WindowOk(0, SIZE_X, 0, SIZE_Y)
    ensures Commands(ClearTrace(c)) == [CASET, RASET, RAMWR]
    ensures DataBytes(ClearTrace(c)) == [0, 0, 0, SIZE_X, 0, 0, 0, SIZE_Y] + Repeat([c / 0x100, c % 0x100], CACHE_SIZE_MEM)
    ensures CACHE_SIZE_MEM == (SIZE_X - 0 + 1) * (SIZE_Y - 0 + 1)
  {
    ReadWindow(0, SIZE_X, 0, SIZE_Y);
    ReadColorTrace(c, CACHE_SIZE_MEM);
    ReadersAppend(WindowFrames(0, SIZE_X, 0, SIZE_Y), ColorTrace(c, CACHE_SIZE_MEM));
  }
}
