/**
 * What the 2020 window and stream operations put on the bus
 * (lib/st7735.c: SetPartialArea, SetWindow, SendColor565, DrawPixel), as
 * functions of their arguments. The Display class in LibDriver is proved
 * to append exactly these events.
 */
module LibProtocol {
  import opened Bus
  import opened LibDefs

  /** Data16BitsSend: one frame with DC high carrying the high byte, then
      the low byte, of a 16-bit word. */
  function Data16(w: uint16): Event {
    Frame(true, [w / 0x100, w % 0x100])
  }

  /** The two bytes of Data16 are the word in big-endian order. */
  lemma Data16Bytes(w: uint16)
    ensures Data16(w).Frame? && Data16(w).dc && |Data16(w).bytes| == 2
    ensures (Data16(w).bytes[0] as int) * 0x100 + Data16(w).bytes[1] == w
  {
  }

  /** The four rejections of SetWindow, negated. */
  predicate WindowOk(x0: uint8, x1: uint8, y0: uint8, y1: uint8) {
    !(x0 > x1 || x1 > SIZE_X || y0 > y1 || y1 > SIZE_Y)
  }

  /** What SetWindow sends: nothing for a rejected window, otherwise CASET
      with the two column bounds and RASET with the two row bounds, each
      bound as a 16-bit word. */
  function WindowFrames(x0: uint8, x1: uint8, y0: uint8, y1: uint8): (r: seq<Event>)
    ensures !WindowOk(x0, x1, y0, y1) ==> r == []
    ensures WindowOk(x0, x1, y0, y1) ==> |r| == 6
  {
    if !WindowOk(x0, x1, y0, y1) then []
    else [Command(CASET), Data16(x0), Data16(x1), Command(RASET), Data16(y0), Data16(y1)]
  }

  /** Read back, an accepted window is the CASET and RASET commands with the
      bounds x0, x1, y0, y1 as big-endian words, and no waiting. */
  lemma ReadWindow(x0: uint8, x1: uint8, y0: uint8, y1: uint8)
    requires WindowOk(x0, x1, y0, y1)
    ensures Commands(WindowFrames(x0, x1, y0, y1)) == [CASET, RASET]
    ensures DataBytes(WindowFrames(x0, x1, y0, y1)) == [0, x0, 0, x1, 0, y0, 0, y1]
    ensures Waited(WindowFrames(x0, x1, y0, y1)) == 0
  {
    var columns := [Command(CASET), Data16(x0), Data16(x1)];
    var rows := [Command(RASET), Data16(y0), Data16(y1)];
    assert WindowFrames(x0, x1, y0, y1) == columns + rows;
    ReadBounds(CASET, x0, x1);
    ReadBounds(RASET, y0, y1);
    ReadersAppend(columns, rows);
    assert [0, x0, 0, x1] + [0, y0, 0, y1] == [0, x0, 0, x1, 0, y0, 0, y1];
  }

  /** A command followed by two words below 0x100, as SetWindow sends each
      axis. */
  lemma ReadBounds(cmd: uint8, lo: uint8, hi: uint8)
    ensures Commands([Command(cmd), Data16(lo), Data16(hi)]) == [cmd]
    ensures DataBytes([Command(cmd), Data16(lo), Data16(hi)]) == [0, lo, 0, hi]
    ensures Waited([Command(cmd), Data16(lo), Data16(hi)]) == 0
  {
    ByteWord(lo);
    ByteWord(hi);
    var b, c := Data16(lo), Data16(hi);
    ReadCons(c, []);
    ReadCons(b, [c]);
    ReadCons(Command(cmd), [b, c]);
    assert [b] + [c] == [b, c];
    assert [Command(cmd)] + [b, c] == [Command(cmd), b, c];
    assert [0, lo] + [0, hi] == [0, lo, 0, hi];
  }

  /** A word below 0x100 goes out as a zero byte and itself. */
  lemma ByteWord(b: uint8)
    ensures Data16(b) == Frame(true, [0, b])
  {
  }

  /** SetWindow's return code. */
  function WindowStatus(x0: uint8, x1: uint8, y0: uint8, y1: uint8): (r: uint8)
    ensures r == ST7735_SUCCESS <==> WindowOk(x0, x1, y0, y1)
    ensures r == ST7735_ERROR <==> !WindowOk(x0, x1, y0, y1)
  {
    if !WindowOk(x0, x1, y0, y1) then ST7735_ERROR else ST7735_SUCCESS
  }

  /** `n` copies of one data frame. */
  function Words(c: uint16, n: nat): seq<Event>
  {
    seq(n, _ => Data16(c))
  }

  /** What SendColor565(c, n) sends: RAMWR, then n frames of the colour. */
  function ColorTrace(c: uint16, n: nat): seq<Event> {
    [Command(RAMWR)] + Words(c, n)
  }

  /** Read back, a colour stream is one RAMWR command followed by the high
      and the low byte of the colour, n times over, with no waiting; n == 0
      sends the command alone. */
  lemma ReadColorTrace(c: uint16, n: nat)
    ensures Commands(ColorTrace(c, n)) == [RAMWR]
    ensures DataBytes(ColorTrace(c, n)) == Repeat([c / 0x100, c % 0x100], n)
    ensures Waited(ColorTrace(c, n)) == 0
    ensures n == 0 ==> ColorTrace(c, n) == [Command(RAMWR)]
  {
    ReadersAppend([Command(RAMWR)], Words(c, n));
    ReadWords(c, n);
  }

  lemma {:induction false} ReadWords(c: uint16, n: nat)
    ensures Commands(Words(c, n)) == []
    ensures DataBytes(Words(c, n)) == Repeat([c / 0x100, c % 0x100], n)
    ensures Waited(Words(c, n)) == 0
  {
    if n > 0 {
      var prev, word := Words(c, n - 1), Data16(c);
      assert Words(c, n) == prev + [word] by {
        forall k | 0 <= k < n
          ensures Words(c, n)[k] == (prev + [word])[k]
        {
        }
      }
      ReadersAppend(prev, [word]);
      ReadCons(word, []);
      ReadWords(c, n - 1);
    }
  }

  /** What SetPartialArea sends: nothing when either row is beyond SIZE_Y,
      otherwise PTLAR with the two rows as 8-bit data preceded by zero
      bytes, then PTLON. */
  function PartialAreaFrames(sRow: uint8, eRow: uint8): (r: seq<Event>)
    ensures sRow > SIZE_Y || eRow > SIZE_Y ==> r == []
    ensures sRow <= SIZE_Y && eRow <= SIZE_Y ==> |r| == 6
  {
    if sRow > SIZE_Y || eRow > SIZE_Y then []
    else [Command(PTLAR), Data(0x00), Data(sRow), Data(0x00), Data(eRow), Command(PTLON)]
  }

  /** Read back, an accepted partial area is PTLAR then PTLON, with the
      data 0, sRow, 0, eRow between them. */
  lemma ReadPartialArea(sRow: uint8, eRow: uint8)
    requires sRow <= SIZE_Y && eRow <= SIZE_Y
    ensures Commands(PartialAreaFrames(sRow, eRow)) == [PTLAR, PTLON]
    ensures DataBytes(PartialAreaFrames(sRow, eRow)) == [0, sRow, 0, eRow]
    ensures Waited(PartialAreaFrames(sRow, eRow)) == 0
  {
    var rows := DataFrames([0x00, sRow, 0x00, eRow]);
    assert rows == [Data(0x00), Data(sRow), Data(0x00), Data(eRow)];
    assert PartialAreaFrames(sRow, eRow) == [Command(PTLAR)] + (rows + [Command(PTLON)]);
    ReadDataFrames([0x00, sRow, 0x00, eRow]);
    ReadCons(Command(PTLON), []);
    assert [Command(PTLON)] + [] == [Command(PTLON)];
    ReadersAppend(rows, [Command(PTLON)]);
    ReadCons(Command(PTLAR), rows + [Command(PTLON)]);
  }

  /** SetPartialArea's return value: the literal 0 on rejection, 1 on success. */
  function PartialAreaStatus(sRow: uint8, eRow: uint8): uint8 {
    if sRow > SIZE_Y || eRow > SIZE_Y then 0 else 1
  }

  /** SetPartialArea reports failure with the value of ST7735_SUCCESS, the
      opposite of SetWindow's convention: its status equals SetWindow's
      status for the same rows exactly when one call succeeds and the other
      fails. */
  lemma PartialAreaCodes(sRow: uint8, eRow: uint8)
    ensures PartialAreaStatus(sRow, eRow) == ST7735_SUCCESS <==> PartialAreaFrames(sRow, eRow) == []
    ensures PartialAreaStatus(sRow, eRow) == ST7735_ERROR <==> PartialAreaFrames(sRow, eRow) != []
  {
  }

  /** What DrawPixel(x, y, c) sends: a one-pixel window, then a stream of
      one colour word. */
  function PixelTrace(p: Point, c: uint16): seq<Event> {
    WindowFrames(p.x, p.x, p.y, p.y) + ColorTrace(c, 1)
  }

  /** DrawPixel ignores SetWindow's result: whatever the point, it ends with
      RAMWR and one colour word; the window frames are present exactly when
      the point lies on the panel. */
  lemma PixelAlwaysStreams(p: Point, c: uint16)
    ensures |PixelTrace(p, c)| >= 2
    ensures PixelTrace(p, c)[|PixelTrace(p, c)| - 2..] == [Command(RAMWR), Data16(c)]
    ensures |PixelTrace(p, c)| == 8 <==> p.x <= SIZE_X && p.y <= SIZE_Y
    ensures |PixelTrace(p, c)| == 2 <==> !(p.x <= SIZE_X && p.y <= SIZE_Y)
  {
    var w := WindowFrames(p.x, p.x, p.y, p.y);
    assert ColorTrace(c, 1) == [Command(RAMWR), Data16(c)];
    if WindowOk(p.x, p.x, p.y, p.y) {
      assert |w| == 6;
    }
  }

  /** The pixels of a list, drawn one after another. */
  function PixelsTrace(ps: seq<Point>, c: uint16): seq<Event> {
    if ps == [] then [] else PixelTrace(ps[0], c) + PixelsTrace(ps[1..], c)
  }

  /** Drawing a list of pixels is drawing its first pixel, then the rest. */
  // Proof helper for the line and glyph walks.
  lemma PixelsTraceCons(p: Point, ps: seq<Point>, c: uint16)
    ensures PixelsTrace([p] + ps, c) == PixelTrace(p, c) + PixelsTrace(ps, c)
  {
    assert ([p] + ps)[0] == p;
    assert ([p] + ps)[1..] == ps;
  }

  /** Drawing two lists of pixels is drawing their concatenation. */
  // Proof helper for the line and glyph walks.
  lemma {:induction false} PixelsTraceAppend(a: seq<Point>, b: seq<Point>, c: uint16)
    ensures PixelsTrace(a + b, c) == PixelsTrace(a, c) + PixelsTrace(b, c)
  {
    if a == [] {
      assert a + b == b;
    } else {
      assert (a + b)[0] == a[0];
      assert (a + b)[1..] == a[1..] + b;
      PixelsTraceAppend(a[1..], b, c);
    }
  }

  /** The number of pixels a window holds. */
  function Area(x0: uint8, x1: uint8, y0: uint8, y1: uint8): int {
    (x1 - x0 + 1) * (y1 - y0 + 1)
  }
}
