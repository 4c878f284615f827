/**
 * The 2020 driver (lib/st7735.c) as one object: the SPI trace it appends to
 * and the two text-cursor globals cacheMemIndexCol and cacheMemIndexRow.
 * Each method mirrors its C function statement by statement and is proved
 * to append exactly the events of the function that specifies it in
 * LibScript, LibProtocol, LibGraphics or LibText.
 */
module LibDriver {
  import opened Bus
  import opened LibDefs
  import opened LibScript
  import opened LibProtocol
  import opened LibGraphics
  import opened LibText

  class Display {
    /** Every event sent so far, oldest first. */
    var bus: seq<Event>
    var cacheMemIndexRow: uint16
    var cacheMemIndexCol: uint16
    /** The FONTS table of font.h: one five-column glyph per printable
        character. */
    const fonts: seq<seq<uint8>>

    predicate Valid() {
      FontShape(fonts)
    }

    /** The text cursor. */
    function Pos(): LibText.Cursor
      reads this`cacheMemIndexCol, this`cacheMemIndexRow
    {
      LibText.Cursor(cacheMemIndexCol, cacheMemIndexRow)
    }

    /** A display that has sent nothing, with the cursor at the origin as
        the globals are initialised. */
    constructor (fonts: seq<seq<uint8>>)
      requires FontShape(fonts)
      ensures Valid() && this.fonts == fonts
      ensures bus == [] && Pos() == LibText.Cursor(0, 0)
    {
      this.fonts := fonts;
      bus := [];
      cacheMemIndexRow := 0;
      cacheMemIndexCol := 0;
    }

    // ----- framing -----

    /** One byte with DC low, alone in its chip-select frame. */
    method CommandSend(data: uint8)
      modifies this`bus
      ensures bus == old(bus) + [Command(data)]
    {
      bus := bus + [Frame(false, [data])];
    }

    /** One byte with DC high, alone in its chip-select frame. */
    method Data8BitsSend(data: uint8)
      modifies this`bus
      ensures bus == old(bus) + [Data(data)]
    {
      bus := bus + [Frame(true, [data])];
    }

    /** The high byte, then the low byte, in one chip-select frame with DC
        high. */
    method Data16BitsSend(data: uint16)
      modifies this`bus
      ensures bus == old(bus) + [Data16(data)]
    {
      bus := bus + [Frame(true, [data / 0x100, data % 0x100])];
    }

    /** `time` calls of the 1 ms busy-wait. */
    method DelayMs(time: uint8)
      modifies this`bus
      ensures bus == old(bus) + Waits(time)
    {
      var t := time;
      while t > 0
        invariant 0 <= t <= time
        invariant bus == old(bus) + Waits(time - t)
      {
        assert Waits(time - t + 1) == Waits(time - t) + [Delay(1)];
        t := t - 1;
        bus := bus + [Delay(1)];
      }
    }

    // ----- the initialisation script -----

    /** Replays a command table: for each entry, the command, its arguments
        as single data frames, then the delay. */
    method St7735Commands(initializers: seq<uint8>)
      requires WellFormed(initializers)
      modifies this`bus
      ensures bus == old(bus) + ScriptEvents(initializers)
    {
      var pos: nat := 0;
      var loop: nat := initializers[pos];
      pos := pos + 1;
      ghost var rest := Parse(initializers).value;
      ghost var end := ParseEntries(initializers, 1, loop).value.1;
      ghost var all := old(bus) + ScriptEvents(initializers);
      while loop > 0
        invariant ParseEntries(initializers, pos, loop) == LibScript.Some((rest, end))
        invariant all == bus + Replay(rest)
        decreases loop
      {
        ghost var before := bus;
        var next := SendEntry(initializers, pos, loop, rest, end);
        AppendAssoc(before, EntryEvents(rest[0]), Replay(rest[1..]));
        loop := loop - 1;
        pos := next;
        rest := rest[1..];
      }
    }

    /** One pass of St7735Commands' loop: the entry at `pos` (argument
        count, delay, command, arguments) sent as its command, its
        arguments and its delay; `next` is where the following entry
        starts, from which the remaining `loop - 1` entries parse. */
    method SendEntry(initializers: seq<uint8>, pos: nat, loop: nat, ghost rest: seq<Entry>, ghost end: nat)
        returns (next: nat)
      requires loop > 0 && ParseEntries(initializers, pos, loop) == LibScript.Some((rest, end))
      modifies this`bus
      ensures |rest| > 0 && bus == old(bus) + EntryEvents(rest[0])
      ensures ParseEntries(initializers, next, loop - 1) == LibScript.Some((rest[1..], end))
    {
      ParseStep(initializers, pos, loop, rest, end);
      var args := initializers[pos];
      var time := initializers[pos + 1];
      var cmnd := initializers[pos + 2];
      CommandSend(cmnd);
      SendArguments(initializers, pos + 3, args);
      DelayMs(time);
      next := pos + 3 + args;
    }

    /** The inner loop of St7735Commands: `count` table bytes from `from`
        on, each as a data frame. */
    method SendArguments(initializers: seq<uint8>, from: nat, count: nat)
      requires from + count <= |initializers|
      modifies this`bus
      ensures bus == old(bus) + DataFrames(initializers[from..from + count])
    {
      var args, pos := count, from;
      while args > 0
        invariant 0 <= args <= count && pos == from + (count - args)
        invariant bus == old(bus) + DataFrames(initializers[from..pos])
      {
        args := args - 1;
        DataFramesExtend(initializers, from, pos);
        Data8BitsSend(initializers[pos]);
        pos := pos + 1;
      }
    }

    // ----- window and stream -----

    /** Rows sRow .. eRow as the partial display area, then partial mode
        on; rejected (returning 0, sending nothing) when a row is beyond
        SIZE_Y. */
    method SetPartialArea(sRow: uint8, eRow: uint8) returns (r: uint8)
      modifies this`bus
      ensures bus == old(bus) + PartialAreaFrames(sRow, eRow)
      ensures r == PartialAreaStatus(sRow, eRow)
    {
      if sRow > SIZE_Y || eRow > SIZE_Y {
        return 0;
      }
      CommandSend(PTLAR);
      Data8BitsSend(0x00);
      Data8BitsSend(sRow);
      Data8BitsSend(0x00);
      Data8BitsSend(eRow);
      CommandSend(PTLON);
      return 1;
    }

    /** Columns x0 .. x1 and rows y0 .. y1 as the drawing window; rejected
        with ST7735_ERROR, sending nothing, when the window is empty or off
        the panel. */
    method SetWindow(x0: uint8, x1: uint8, y0: uint8, y1: uint8) returns (r: uint8)
      modifies this`bus
      ensures bus == old(bus) + WindowFrames(x0, x1, y0, y1)
      ensures r == WindowStatus(x0, x1, y0, y1)
    {
      if x0 > x1 || x1 > SIZE_X || y0 > y1 || y1 > SIZE_Y {
        return ST7735_ERROR;
      }
      CommandSend(CASET);
      Data16BitsSend(x0);
      Data16BitsSend(x1);
      CommandSend(RASET);
      Data16BitsSend(y0);
      Data16BitsSend(y1);
      return ST7735_SUCCESS;
    }

    /** RAMWR, then `count` words of the colour. */
    method SendColor565(color: uint16, count: uint16)
      modifies this`bus
      ensures bus == old(bus) + ColorTrace(color, count)
    {
      CommandSend(RAMWR);
      var n := count;
      while n > 0
        invariant 0 <= n <= count
        invariant bus == old(bus) + ColorTrace(color, count - n)
      {
        assert Words(color, count - n + 1) == Words(color, count - n) + [Data16(color)];
        n := n - 1;
        Data16BitsSend(color);
      }
    }

    /** A one-pixel window, whose status is ignored, then one colour word. */
    method DrawPixel(x: uint8, y: uint8, color: uint16)
      modifies this`bus
      ensures bus == old(bus) + PixelTrace(Point(x, y), color)
    {
      var _ := SetWindow(x, x, y, y);
      SendColor565(color, 1);
    }

    // ----- text -----

    /** Two stacked pixels, as the X2 and X3 branches of DrawChar draw
        them. */
    method DrawPair(x: uint8, y0: uint8, y1: uint8, color: uint16)
      modifies this`bus
      ensures bus == old(bus) + PairTrace(x, y0, y1, color)
    {
      DrawPixel(x, y0, color);
      DrawPixel(x, y1, color);
    }

    /** The pixels of one set glyph bit: the DrawPixel calls of the branch
        of DrawChar for `size`, in the order that branch makes them. */
    method DrawCell(c: nat, r: nat, size: ESizes, color: uint16)
      modifies this`bus
      ensures bus == old(bus) + CellEvents(Pos(), c, r, size, color)
    {
      var col, row := cacheMemIndexCol, cacheMemIndexRow;
      ghost var cur := Pos();
      ghost var cell := CellEvents(cur, c, r, size, color);
      if size == X1 {
        var x, y := Narrow(col + c), Narrow(row + r);
        assert cell == PixelTrace(Point(x, y), color);
        DrawPixel(x, y, color);
      } else if size == X2 {
        var x, top, bottom := Narrow(col + c), Narrow(row + 2 * r), Narrow(row + 2 * r + 1);
        assert cell == PairTrace(x, top, bottom, color);
        DrawPair(x, top, bottom, color);
      } else {
        var left, right, top, bottom := Narrow(col + 2 * c), Narrow(col + 2 * c + 1), Narrow(row + 2 * r), Narrow(row + 2 * r + 1);
        assert cell == PairTrace(left, top, bottom, color) + PairTrace(right, top, bottom, color);
        DrawPair(left, top, bottom, color);
        DrawPair(right, top, bottom, color);
        AppendAssoc(old(bus), PairTrace(left, top, bottom, color), PairTrace(right, top, bottom, color));
      }
      assert Pos() == cur;
    }

    /** Draws a printable character at the cursor, glyph columns 4 down to
        0, then moves the cursor right by the glyph's advance; the row
        stays. The loops over the columns and over the bits of one column
        are DrawGlyph and DrawColumn. */
    method DrawChar(character: char, color: uint16, size: ESizes) returns (r: uint8)
      requires Valid() && Printable(character)
      modifies this`bus, this`cacheMemIndexCol
      ensures bus == old(bus) + CharTrace(fonts, character, old(Pos()), size, color)
      ensures Pos() == AfterChar(old(Pos()), size)
      ensures r == ST7735_SUCCESS
    {
      DrawGlyph(character, color, size);
      cacheMemIndexCol := (cacheMemIndexCol + Advance(size)) % 0x1_0000;
      return ST7735_SUCCESS;
    }

    /** The outer loop of DrawChar: glyph columns 4 down to 0, each drawn by
        DrawColumn; the cursor does not move. */
    method DrawGlyph(character: char, color: uint16, size: ESizes)
      requires Valid() && Printable(character)
      modifies this`bus
      ensures bus == old(bus) + CharTrace(fonts, character, Pos(), size, color)
    {
      ghost var cur := Pos();
      var glyph := fonts[character as int - 32];
      assert glyph == Glyph(fonts, character);
      ghost var all := old(bus) + PixelsTrace(GlyphPixels(glyph, cur, size, CHARS_COLS_LEN), color);
      var idxCol := CHARS_COLS_LEN;
      while idxCol > 0
        invariant 0 <= idxCol <= CHARS_COLS_LEN
        invariant all == bus + PixelsTrace(GlyphPixels(glyph, cur, size, idxCol), color)
      {
        idxCol := idxCol - 1;
        var letter := glyph[idxCol];
        GlyphTraceStep(glyph, cur, size, idxCol, color);
        AppendAssoc(bus, PixelsTrace(ColumnPixels(letter, cur, idxCol, size, CHARS_ROWS_LEN), color),
                    PixelsTrace(GlyphPixels(glyph, cur, size, idxCol), color));
        DrawColumn(letter, idxCol, size, color);
      }
      assert GlyphPixels(glyph, cur, size, 0) == [];
      assert all == old(bus) + CharTrace(fonts, character, cur, size, color);
    }

    /** The inner loop of DrawChar: the bits 7 down to 0 of glyph column
        `idxCol`, a cell drawn for each set bit. */
    method DrawColumn(letter: uint8, idxCol: nat, size: ESizes, color: uint16)
      modifies this`bus
      ensures bus == old(bus) + PixelsTrace(ColumnPixels(letter, Pos(), idxCol, size, CHARS_ROWS_LEN), color)
    {
      ghost var cur := Pos();
      ghost var all := old(bus) + PixelsTrace(ColumnPixels(letter, cur, idxCol, size, CHARS_ROWS_LEN), color);
      var idxRow := CHARS_ROWS_LEN;
      while idxRow > 0
        invariant 0 <= idxRow <= CHARS_ROWS_LEN
        invariant all == bus + PixelsTrace(ColumnPixels(letter, cur, idxCol, size, idxRow), color)
      {
        idxRow := idxRow - 1;
        ghost var below := ColumnPixels(letter, cur, idxCol, size, idxRow);
        if Bit(letter, idxRow) {
          ghost var cell := CellPixels(cur, idxCol, idxRow, size);
          assert ColumnPixels(letter, cur, idxCol, size, idxRow + 1) == cell + below;
          PixelsTraceAppend(cell, below, color);
          CellTrace(cur, idxCol, idxRow, size, color);
          AppendAssoc(bus, CellEvents(cur, idxCol, idxRow, size, color), PixelsTrace(below, color));
          DrawCell(idxCol, idxRow, size, color);
        } else {
          assert ColumnPixels(letter, cur, idxCol, size, idxRow + 1) == [] + below;
          assert [] + below == below;
        }
      }
    }

    /** Moves the text cursor, as LibText.SetPosition states. */
    method SetPosition(x: uint8, y: uint8) returns (r: uint8)
      modifies this`cacheMemIndexRow, this`cacheMemIndexCol
      ensures (r, Pos()) == LibText.SetPosition(old(Pos()), x, y)
    {
      if x > MAX_X && y > MAX_Y {
        return ST7735_ERROR;
      } else if x > MAX_X && y <= MAX_Y {
        cacheMemIndexRow := y;
        cacheMemIndexCol := 2;
      } else {
        cacheMemIndexRow := y;
        cacheMemIndexCol := x;
      }
      return ST7735_SUCCESS;
    }

    /** Checks a glyph's far corner and wraps to the next line, as
        LibText.CheckPosition states; `size` is unused, as in the source. */
    method CheckPosition(x: uint8, y: uint8, maxY: uint8, size: ESizes) returns (r: uint8)
      modifies this`cacheMemIndexRow, this`cacheMemIndexCol
      ensures (r, Pos()) == LibText.CheckPosition(old(Pos()), x, y, maxY)
    {
      if x > MAX_X && y > maxY {
        return ST7735_ERROR;
      }
      if x > MAX_X && y <= maxY {
        cacheMemIndexRow := y;
        cacheMemIndexCol := 2;
      }
      return ST7735_SUCCESS;
    }

    /** Draws the characters of a NUL-terminated string along the layout
        LibText.Layout computes: each is drawn where CheckPosition leaves
        the cursor. `finished` is false when a check failed, the point at
        which the source's loop stops making progress. */
    method DrawString(str: seq<char>, color: uint16, size: ESizes) returns (finished: bool)
      requires Valid() && CString(str)
      modifies this`bus, this`cacheMemIndexRow, this`cacheMemIndexCol
      ensures var (cells, final, fin) := Layout(str, 0, old(Pos()), size);
              && |cells| < |str|
              && bus == old(bus) + StringTrace(fonts, str, 0, cells, size, color)
              && Pos() == final
              && finished == fin
    {
      ghost var whole := Layout(str, 0, Pos(), size);
      ResumesStart(fonts, str, size, color, Pos(), bus);
      ghost var all := bus + StringTrace(fonts, str, 0, whole.0, size, color);
      var i := 0;
      var stalled := false;
      while str[i] != '\0' && !stalled
        invariant 0 <= i < |str|
        invariant Resumes(fonts, str, size, color, whole, all, i, Pos(), bus)
        invariant stalled ==> str[i] != '\0' && Place(Pos(), size).0 != ST7735_SUCCESS
        decreases |str| - i, if stalled then 0 else 1
      {
        ghost var cur, before := Pos(), bus;
        var placed := PlaceAndDraw(str[i], color, size);
        if placed {
          ResumesStep(fonts, str, size, color, whole, all, i, cur, before);
          i := i + 1;
        } else {
          stalled := true;
        }
      }
      if stalled {
        ResumesStall(fonts, str, size, color, whole, all, i, Pos(), bus);
      } else {
        ResumesDone(fonts, str, size, color, whole, all, i, Pos(), bus);
      }
      return !stalled;
    }

    /** One pass of DrawString's loop: CheckPosition with the column after
        the glyph, the row below it and the lowest starting row, each
        narrowed to unsigned char; on success, the character drawn at the
        cursor CheckPosition left. */
    method PlaceAndDraw(ch: char, color: uint16, size: ESizes) returns (placed: bool)
      requires Valid() && Printable(ch)
      modifies this`bus, this`cacheMemIndexRow, this`cacheMemIndexCol
      ensures placed <==> Place(old(Pos()), size).0 == ST7735_SUCCESS
      ensures placed ==> bus == old(bus) + CharTrace(fonts, ch, Place(old(Pos()), size).1, size, color)
      ensures placed ==> Pos() == AfterChar(Place(old(Pos()), size).1, size)
      ensures !placed ==> bus == old(bus) && Pos() == old(Pos())
    {
      var newX := (cacheMemIndexCol + CHARS_COLS_LEN + size.ExtraWidth()) % 0x100;
      var deltaY := CHARS_ROWS_LEN + size.ExtraHeight();
      var newY := (cacheMemIndexRow + deltaY) % 0x100;
      var maxY := MAX_Y - deltaY;
      ghost var cur := Pos();
      assert newX == NewX(cur, size) && newY == NewY(cur, size) && maxY == MaxY(size);
      var check := CheckPosition(newX, newY, maxY, size);
      assert (check, Pos()) == Place(cur, size);
      if check == ST7735_SUCCESS {
        var _ := DrawChar(ch, color, size);
        return true;
      }
      return false;
    }

    // ----- primitives -----

    /** Bresenham's line from (x1, y1) to (x2, y2): the points LinePoints
        lists, each drawn as a pixel; always returns 1. The two loops of the
        source are the methods WalkShallow and WalkSteep. */
    method DrawLine(x1: uint8, x2: uint8, y1: uint8, y2: uint8, color: uint16) returns (r: uint8)
      modifies this`bus
      ensures bus == old(bus) + PixelsTrace(LinePoints(x1, x2, y1, y2), color)
      ensures r == 1
    {
      var deltaX: int := x2 - x1;
      var deltaY: int := y2 - y1;
      var traceX: int, traceY: int := 1, 1;
      if deltaX < 0 {
        deltaX := -deltaX;
        traceX := -traceX;
      }
      if deltaY < 0 {
        deltaY := -deltaY;
        traceY := -traceY;
      }
      assert traceX == Dir(x1, x2) && traceY == Dir(y1, y2);
      if deltaY < deltaX {
        var d := 2 * deltaY - deltaX;
        ghost var rest := Shallow(x1, y1, x2, traceX, traceY, deltaX, deltaY, d);
        assert LinePoints(x1, x2, y1, y2) == [Point(x1, y1)] + rest;
        PixelsTraceCons(Point(x1, y1), rest, color);
        AppendAssoc(old(bus), PixelTrace(Point(x1, y1), color), PixelsTrace(rest, color));
        DrawPixel(x1, y1, color);
        WalkShallow(x1, y1, x2, traceX, traceY, deltaX, deltaY, d, color);
      } else {
        var d := deltaY - 2 * deltaX;
        ghost var rest := Steep(x1, y1, y2, traceX, traceY, deltaX, deltaY, d);
        assert LinePoints(x1, x2, y1, y2) == [Point(x1, y1)] + rest;
        PixelsTraceCons(Point(x1, y1), rest, color);
        AppendAssoc(old(bus), PixelTrace(Point(x1, y1), color), PixelsTrace(rest, color));
        DrawPixel(x1, y1, color);
        WalkSteep(x1, y1, y2, traceX, traceY, deltaX, deltaY, d, color);
      }
      return 1;
    }

    /** The loop of DrawLine for |dy| < |dx|: x steps toward x2, y steps
        when the decision variable is non-negative. */
    method WalkShallow(x1: uint8, y1: uint8, x2: uint8, traceX: int, traceY: int,
                       deltaX: int, deltaY: int, d0: int, color: uint16)
      requires traceX == 1 || traceX == -1
      requires traceY == 1 || traceY == -1
      requires Left(x1, x2, traceX) >= 0
      modifies this`bus
      ensures bus == old(bus) + PixelsTrace(Shallow(x1, y1, x2, traceX, traceY, deltaX, deltaY, d0), color)
    {
      ghost var all := old(bus) + PixelsTrace(Shallow(x1, y1, x2, traceX, traceY, deltaX, deltaY, d0), color);
      var x: uint8, y: uint8, d := x1, y1, d0;
      while x != x2
        invariant Left(x, x2, traceX) >= 0
        invariant all == bus + PixelsTrace(Shallow(x, y, x2, traceX, traceY, deltaX, deltaY, d), color)
        decreases Left(x, x2, traceX)
      {
        ShallowUnfold(x, y, x2, traceX, traceY, deltaX, deltaY, d);
        ghost var walk := Shallow(x, y, x2, traceX, traceY, deltaX, deltaY, d);
        x := x + traceX;
        if d >= 0 {
          y := (y + traceY) % 256;
          d := d - 2 * deltaX;
        }
        d := d + 2 * deltaY;
        ghost var next := Shallow(x, y, x2, traceX, traceY, deltaX, deltaY, d);
        assert walk == [Point(x, y)] + next;
        PixelsTraceCons(Point(x, y), next, color);
        AppendAssoc(bus, PixelTrace(Point(x, y), color), PixelsTrace(next, color));
        DrawPixel(x, y, color);
      }
    }

    /** The loop of DrawLine for |dy| >= |dx|: y steps toward y2, x steps
        when the decision variable is at most zero. */
    method WalkSteep(x1: uint8, y1: uint8, y2: uint8, traceX: int, traceY: int,
                     deltaX: int, deltaY: int, d0: int, color: uint16)
      requires traceX == 1 || traceX == -1
      requires traceY == 1 || traceY == -1
      requires Left(y1, y2, traceY) >= 0
      modifies this`bus
      ensures bus == old(bus) + PixelsTrace(Steep(x1, y1, y2, traceX, traceY, deltaX, deltaY, d0), color)
    {
      ghost var all := old(bus) + PixelsTrace(Steep(x1, y1, y2, traceX, traceY, deltaX, deltaY, d0), color);
      var x: uint8, y: uint8, d := x1, y1, d0;
      while y != y2
        invariant Left(y, y2, traceY) >= 0
        invariant all == bus + PixelsTrace(Steep(x, y, y2, traceX, traceY, deltaX, deltaY, d), color)
        decreases Left(y, y2, traceY)
      {
        SteepUnfold(x, y, y2, traceX, traceY, deltaX, deltaY, d);
        ghost var walk := Steep(x, y, y2, traceX, traceY, deltaX, deltaY, d);
        y := y + traceY;
        if d <= 0 {
          x := (x + traceX) % 256;
          d := d + 2 * deltaY;
        }
        d := d - 2 * deltaX;
        ghost var next := Steep(x, y, y2, traceX, traceY, deltaX, deltaY, d);
        assert walk == [Point(x, y)] + next;
        PixelsTraceCons(Point(x, y), next, color);
        AppendAssoc(bus, PixelTrace(Point(x, y), color), PixelsTrace(next, color));
        DrawPixel(x, y, color);
      }
    }

    /** The fast horizontal line, with the source's swap. */
    method DrawLineHorizontal(xs: uint8, xe: uint8, y: uint8, color: uint16)
      modifies this`bus
      ensures bus == old(bus) + HorizontalTrace(xs, xe, y, color)
    {
      var s, e := xs, xe;
      if s > e {
        var temp := s;
        e := s;
        s := temp;
      }
      var _ := SetWindow(s, e, y, y);
      SendColor565(color, e - s);
    }

    /** The fast vertical line, with the source's swap. */
    method DrawLineVertical(x: uint8, ys: uint8, ye: uint8, color: uint16)
      modifies this`bus
      ensures bus == old(bus) + VerticalTrace(x, ys, ye, color)
    {
      var s, e := ys, ye;
      if s > e {
        var temp := s;
        e := s;
        s := temp;
      }
      var _ := SetWindow(x, x, s, e);
      SendColor565(color, e - s);
    }

    /** A filled rectangle: both axes ordered, then the window streamed with
        its area as a uint16_t count. */
    method DrawRectangle(xs: uint8, xe: uint8, ys: uint8, ye: uint8, color: uint16)
      modifies this`bus
      ensures bus == old(bus) + RectangleTrace(xs, xe, ys, ye, color)
    {
      var x0, x1, y0, y1 := xs, xe, ys, ye;
      if x0 > x1 {
        var temp := x1;
        x1 := x0;
        x0 := temp;
      }
      if y0 > y1 {
        var temp := y1;
        y1 := y0;
        y0 := temp;
      }
      var _ := SetWindow(x0, x1, y0, y1);
      SendColor565(color, ((x1 as int - x0 + 1) * (y1 as int - y0 + 1)) % 0x1_0000);
    }

    /** The whole panel in one colour. */
    method ClearScreen(color: uint16)
      modifies this`bus
      ensures bus == old(bus) + ClearTrace(color)
    {
      var _ := SetWindow(0, SIZE_X, 0, SIZE_Y);
      SendColor565(color, CACHE_SIZE_MEM);
    }

    /** Display on. */
    method UpdateScreen()
      modifies this`bus
      ensures bus == old(bus) + [Command(DISPON)]
    {
      CommandSend(DISPON);
    }
  }
}
