/**
 * The 2016 driver (st7735.c) as one object: the SPI trace it appends to
 * and the two text-cursor globals cacheMemIndexCol and cacheMemIndexRow.
 * Each method mirrors its C function statement by statement and is proved
 * to append exactly the events of the function that specifies it in
 * LegacyScript, LegacyProtocol, LegacyGraphics or LegacyText.
 */
module LegacyDriver {
  import opened Bus
  import opened LegacyDefs
  import opened LegacyScript
  import opened LegacyProtocol
  import opened LegacyGraphics
  import opened LegacyText
  import LibGraphics

  class Display {
    /** Every event sent so far, oldest first. */
    var bus: seq<Event>
    var cacheMemIndexRow: int
    var cacheMemIndexCol: int

    /** The text cursor. */
    function Pos(): Cursor
      reads this`cacheMemIndexCol, this`cacheMemIndexRow
    {
      Cursor(cacheMemIndexCol, cacheMemIndexRow)
    }

    /** A display that has sent nothing, with the cursor at the origin as
        the globals are initialised. */
    constructor ()
      ensures bus == [] && Pos() == Cursor(0, 0)
    {
      bus := [];
      cacheMemIndexRow := 0;
      cacheMemIndexCol := 0;
    }

    // ----- framing -----

    /** One byte alone in a chip-select frame, with DC high for DATA and
        low for COMMAND. */
    method CmdOrDataSend(cmdOrData: CmdOrData, data: uint8)
      modifies this`bus
      ensures bus == old(bus) + [Send(cmdOrData, data)]
    {
      var dc := cmdOrData == DATA;
      bus := bus + [Frame(dc, [data])];
    }

    /** DelayMs(time): 500 calls of the 1 ms busy-wait for 255, otherwise
        `time` calls. */
    method DelayMs(time: uint8)
      modifies this`bus
      ensures bus == old(bus) + DelayEvents(time)
    {
      var rTime: nat := time;
      if time == 255 {
        rTime := 500;
      }
      ghost var total := rTime;
      while rTime > 0
        invariant 0 <= rTime <= total == RealTime(time)
        invariant bus == old(bus) + Waits(total - rTime)
      {
        assert Waits(total - rTime + 1) == Waits(total - rTime) + [Delay(1)];
        rTime := rTime - 1;
        bus := bus + [Delay(1)];
      }
    }

    // ----- the initialisation script -----

    /** Replays a command table: for each entry, the command, its arguments
        as data frames, then the delay when the count byte is flagged. */
    method St7735Commands(initializers: seq<uint8>)
      requires WellFormed(initializers)
      modifies this`bus
      ensures bus == old(bus) + ScriptEvents(initializers)
    {
      var pos: nat := 0;
      var numOfCommands: nat := initializers[pos];
      pos := pos + 1;
      ghost var rest := Parse(initializers).value;
      ghost var left := ParseEntries(initializers[1..], numOfCommands).value.1;
      ghost var all := old(bus) + ScriptEvents(initializers);
      while numOfCommands > 0
        invariant pos <= |initializers|
        invariant ParseEntries(initializers[pos..], numOfCommands) == LegacyScript.Some((rest, left))
        invariant all == bus + Replay(rest)
        decreases numOfCommands
      {
        ghost var before := bus;
        var next := SendEntry(initializers, pos, numOfCommands, rest, left);
        AppendAssoc(before, EntryEvents(rest[0]), Replay(rest[1..]));
        numOfCommands := numOfCommands - 1;
        pos := next;
        rest := rest[1..];
      }
    }

    /** One pass of St7735Commands' loop: the entry at `pos` (command,
        count byte, arguments, delay byte when flagged) sent as its events;
        `next` is where the following entry starts, from which the remaining
        `count - 1` entries parse. */
    method SendEntry(initializers: seq<uint8>, pos: nat, count: nat, ghost rest: seq<Entry>, ghost left: seq<uint8>)
        returns (next: nat)
      requires pos <= |initializers|
      requires count > 0 && ParseEntries(initializers[pos..], count) == LegacyScript.Some((rest, left))
      modifies this`bus
      ensures |rest| > 0 && bus == old(bus) + EntryEvents(rest[0])
      ensures next <= |initializers|
      ensures ParseEntries(initializers[next..], count - 1) == LegacyScript.Some((rest[1..], left))
    {
      ghost var t := initializers[pos..];
      ParseStep(t, count, rest, left);
      EntryRead(t);
      ghost var e := rest[0];
      CmdOrDataSend(COMMAND, initializers[pos]);
      ghost var command := [Command(e.cmd)];
      assert bus == old(bus) + command;
      var numOfArguments := initializers[pos + 1];
      var milliseconds := Delayed(numOfArguments);
      var args := ArgCount(numOfArguments);
      assert e.args == initializers[pos + 2..pos + 2 + args];
      SendArguments(initializers, pos + 2, args);
      next := pos + 2 + args;
      ghost var sent := bus;
      if milliseconds {
        var time := initializers[next];
        next := next + 1;
        DelayMs(time);
      }
      ghost var wait := if e.delay.Some? then DelayEvents(e.delay.value) else [];
      assert bus == sent + wait;
      AppendAssoc(old(bus), command, DataFrames(e.args));
      AppendAssoc(old(bus), command + DataFrames(e.args), wait);
      assert t[EntryLength(numOfArguments)..] == initializers[next..];
    }

    /** The inner loop of St7735Commands: `count` table bytes from `from`
        on, each as a data frame. */
    method SendArguments(initializers: seq<uint8>, from: nat, count: nat)
      requires from + count <= |initializers|
      modifies this`bus
      ensures bus == old(bus) + DataFrames(initializers[from..from + count])
    {
      var numOfArguments, pos := count, from;
      while numOfArguments > 0
        invariant 0 <= numOfArguments <= count && pos == from + (count - numOfArguments)
        invariant bus == old(bus) + DataFrames(initializers[from..pos])
      {
        numOfArguments := numOfArguments - 1;
        DataFramesExtend(initializers, from, pos);
        CmdOrDataSend(DATA, initializers[pos]);
        pos := pos + 1;
      }
    }

    // ----- window and stream -----

    /** RAMWR, then `count` colour words, high byte first, each byte in its
        own frame. */
    method SendColor565(color: uint16, count: uint16)
      modifies this`bus
      ensures bus == old(bus) + ColorTrace(color, count)
    {
      CmdOrDataSend(COMMAND, RAMWR);
      var n := count;
      while n > 0
        invariant 0 <= n <= count
        invariant bus == old(bus) + ColorTrace(color, count - n)
      {
        n := n - 1;
        CmdOrDataSend(DATA, color / 0x100);
        CmdOrDataSend(DATA, color % 0x100);
      }
    }

    /** Sets the drawing window, or sends nothing and returns 0 when it is
        out of range. */
    method SetWindow(x0: uint8, x1: uint8, y0: uint8, y1: uint8) returns (r: uint8)
      modifies this`bus
      ensures bus == old(bus) + WindowFrames(x0, x1, y0, y1)
      ensures r == WindowStatus(x0, x1, y0, y1)
    {
      if x0 > x1 || x1 > SIZE_X || y0 > y1 || y1 > SIZE_Y {
        return 0;
      }
      ghost var start := bus;
      CmdOrDataSend(COMMAND, CASET);
      CmdOrDataSend(DATA, 0x00);
      CmdOrDataSend(DATA, x0);
      CmdOrDataSend(DATA, 0x00);
      CmdOrDataSend(DATA, x1);
      ghost var columns := [Send(COMMAND, CASET), Send(DATA, 0x00), Send(DATA, x0), Send(DATA, 0x00), Send(DATA, x1)];
      assert bus == start + columns;
      CmdOrDataSend(COMMAND, RASET);
      CmdOrDataSend(DATA, 0x00);
      CmdOrDataSend(DATA, y0);
      CmdOrDataSend(DATA, 0x00);
      CmdOrDataSend(DATA, y1);
      ghost var rows := [Send(COMMAND, RASET), Send(DATA, 0x00), Send(DATA, y0), Send(DATA, 0x00), Send(DATA, y1)];
      assert bus == start + columns + rows;
      WindowSends(x0, x1, y0, y1);
      AppendAssoc(start, columns, rows);
      return 1;
    }

    /** The whole panel as one window, filled with CACHE_SIZE_MEM words. */
    method ClearScreen(color: uint16)
      modifies this`bus
      ensures bus == old(bus) + ClearTrace(color)
    {
      var _ := SetWindow(0, SIZE_X, 0, SIZE_Y);
      SendColor565(color, CACHE_SIZE_MEM);
    }

    /** A one-pixel window and one colour word; the window's status is
        ignored. */
    method DrawPixel(x: uint8, y: uint8, color: uint16)
      modifies this`bus
      ensures bus == old(bus) + PixelTrace(Point(x, y), color)
    {
      var _ := SetWindow(x, x, y, y);
      SendColor565(color, 1);
    }

    // ----- text -----

    /** Moves the text cursor, or fails and leaves it. */
    method SetPosition(x: uint8, y: uint8) returns (r: uint8)
      modifies this`cacheMemIndexCol, this`cacheMemIndexRow
      ensures (r, Pos()) == LegacyText.SetPosition(old(Pos()), x, y)
    {
      if x > MAX_X - 6 && y > MAX_Y - 8 {
        return 0;
      }
      if x > MAX_X - 6 && y < MAX_Y - 8 {
        cacheMemIndexRow := y + 8;
        cacheMemIndexCol := 2;
      } else {
        cacheMemIndexCol := x;
        cacheMemIndexRow := y;
      }
      return 1;
    }

    /** Draws a printable character at the cursor, which it leaves; always
        returns 0. The source's range check `(character < 0x20) &&
        (character > 0x7f)` can never hold, so the precondition takes its
        place. */
    method DrawChar(character: char, color: uint16) returns (r: uint8)
      requires Printable(character)
      modifies this`bus
      ensures bus == old(bus) + CharTrace(character, Pos(), color)
      ensures Pos() == old(Pos())
      ensures r == 0
    {
      DrawGlyph(Glyph(character), color);
      return 0;
    }

    /** The outer loop of DrawChar over the five column bytes of a glyph. */
    method DrawGlyph(glyph: seq<uint8>, color: uint16)
      requires |glyph| == 5
      modifies this`bus
      ensures bus == old(bus) + PixelsTrace(GlyphPixels(glyph, Pos(), 5), color)
    {
      ghost var cur := Pos();
      var i := 0;
      while i < 5
        invariant 0 <= i <= 5
        invariant Pos() == cur
        invariant bus == old(bus) + PixelsTrace(GlyphPixels(glyph, cur, i), color)
      {
        GlyphTraceStep(glyph, cur, i, color);
        AppendAssoc(old(bus), PixelsTrace(GlyphPixels(glyph, cur, i), color), PixelsTrace(ColumnPixels(glyph[i], cur, i, 8), color));
        DrawColumn(glyph[i], i, color);
        i := i + 1;
      }
    }

    method DrawColumn(letter: uint8, i: nat, color: uint16)
      modifies this`bus
      ensures bus == old(bus) + PixelsTrace(ColumnPixels(letter, Pos(), i, 8), color)
    {
      var c: nat := letter;
      var j := 0;
      ghost var cur := Pos();
      while j < 8
        invariant 0 <= j <= 8
        invariant Pos() == cur
        invariant c == Shifted(letter, j)
        invariant bus == old(bus) + PixelsTrace(ColumnPixels(letter, cur, i, j), color)
      {
        assert Shifted(letter, j + 1) == c / 2 && (Bit(letter, j) <==> c % 2 == 1);
        ColumnTraceStep(letter, cur, i, j, color);
        AppendAssoc(old(bus), PixelsTrace(ColumnPixels(letter, cur, i, j), color),
                    if Bit(letter, j) then PixelTrace(Spot(cur, i, j), color) else []);
        DrawBit(c, i, j, color);
        c := c / 2;
        j := j + 1;
      }
    }

    /** One pass of DrawChar's inner loop: plots the pixel of row j in
        glyph column i when the shifted column byte c has its low bit set. */
    method DrawBit(c: nat, i: nat, j: nat, color: uint16)
      modifies this`bus
      ensures bus == old(bus) + (if c % 2 == 1 then PixelTrace(Spot(Pos(), i, j), color) else [])
    {
      if c % 2 == 1 {
        DrawPixel((cacheMemIndexCol + i) % 0x100, (cacheMemIndexRow + j) % 0x100, color);
      } else {
        assert bus == old(bus) + [];
      }
    }

    /** Draws a NUL-terminated string from the cursor on, moving the cursor
        with SetPosition(col + 6, row) after each character. */
    method DrawString(str: seq<char>, color: uint16)
      requires CString(str)
      modifies this`bus, this`cacheMemIndexCol, this`cacheMemIndexRow
      ensures bus == old(bus) + StringTrace(str, 0, old(Pos()), color)
      ensures Pos() == Final(str, 0, old(Pos()))
    {
      ghost var all := old(bus) + StringTrace(str, 0, old(Pos()), color);
      ghost var fin := Final(str, 0, old(Pos()));
      var i: uint8 := 0;
      while str[i] != '\0'
        invariant 0 <= i < |str|
        invariant all == bus + StringTrace(str, i, Pos(), color)
        invariant fin == Final(str, i, Pos())
        decreases |str| - i
      {
        ghost var cur := Pos();
        StringStep(str, i, cur, color);
        AppendAssoc(bus, CharTrace(str[i], cur, color), StringTrace(str, i + 1, Advance(cur), color));
        DrawCell(str[i], color);
        i := i + 1;
      }
    }

    /** One pass of DrawString's loop: the character at the cursor, then
        SetPosition six columns on, both coordinates narrowed to uint8_t. */
    method DrawCell(character: char, color: uint16)
      requires Printable(character)
      modifies this`bus, this`cacheMemIndexCol, this`cacheMemIndexRow
      ensures bus == old(bus) + CharTrace(character, old(Pos()), color)
      ensures Pos() == Advance(old(Pos()))
    {
      var _ := DrawChar(character, color);
      var _ := SetPosition((cacheMemIndexCol + 6) % 0x100, cacheMemIndexRow % 0x100);
    }

    // ----- lines -----

    /** Bresenham's line between (x1, y1) and (x2, y2), the points
        LinePoints lists, each drawn as a pixel; always returns 1. The two
        loops of the source are the methods WalkShallow and WalkSteepBack. */
    method DrawLine(x1: uint8, x2: uint8, y1: uint8, y2: uint8, color: uint16) returns (r: uint8)
      requires Short(x1, x2) && Short(y1, y2)
      modifies this`bus
      ensures bus == old(bus) + LineTrace(x1, x2, y1, y2, color)
      ensures r == 1
    {
      var deltaX := Int8(x2 - x1);
      var deltaY := Int8(y2 - y1);
      var traceX, traceY := 1, 1;
      if deltaX < 0 {
        deltaX := Int8(-deltaX);
        traceX := -traceX;
      }
      if deltaY < 0 {
        deltaY := Int8(-deltaY);
        traceY := -traceY;
      }
      assert (deltaX, traceX) == Delta(x1, x2) && (deltaY, traceY) == Delta(y1, y2);
      if deltaY <= deltaX {
        var d := deltaY + deltaY - deltaX;
        ghost var rest := LibGraphics.Shallow(x1, y1, x2, traceX, traceY, deltaX, deltaY, d);
        assert LinePoints(x1, x2, y1, y2) == [Point(x1, y1)] + rest;
        PixelsTraceCons(Point(x1, y1), rest, color);
        AppendAssoc(old(bus), PixelTrace(Point(x1, y1), color), PixelsTrace(rest, color));
        DrawPixel(x1, y1, color);
        WalkShallow(x1, y1, x2, traceX, traceY, deltaX, deltaY, d, color);
      } else {
        var d := -2 * deltaX + deltaY;
        ghost var rest := SteepBack(x2, y2, y1, traceX, traceY, deltaX, deltaY, d);
        assert LinePoints(x1, x2, y1, y2) == [Point(x2, y2)] + rest;
        PixelsTraceCons(Point(x2, y2), rest, color);
        AppendAssoc(old(bus), PixelTrace(Point(x2, y2), color), PixelsTrace(rest, color));
        DrawPixel(x2, y2, color);
        WalkSteepBack(x2, y2, y1, traceX, traceY, deltaX, deltaY, d, color);
      }
      return 1;
    }

    /** The loop of DrawLine for |dy| <= |dx|: x steps toward x2, y steps
        when the decision variable is non-negative. */
    method WalkShallow(x1: uint8, y1: uint8, x2: uint8, traceX: int, traceY: int,
                       deltaX: int, deltaY: int, d0: int, color: uint16)
      requires traceX == 1 || traceX == -1
      requires traceY == 1 || traceY == -1
      requires LibGraphics.Left(x1, x2, traceX) >= 0
      modifies this`bus
      ensures bus == old(bus) + PixelsTrace(LibGraphics.Shallow(x1, y1, x2, traceX, traceY, deltaX, deltaY, d0), color)
    {
      ghost var all := old(bus) + PixelsTrace(LibGraphics.Shallow(x1, y1, x2, traceX, traceY, deltaX, deltaY, d0), color);
      var x: uint8, y: uint8, d := x1, y1, d0;
      while x != x2
        invariant LibGraphics.Left(x, x2, traceX) >= 0
        invariant all == bus + PixelsTrace(LibGraphics.Shallow(x, y, x2, traceX, traceY, deltaX, deltaY, d), color)
        decreases LibGraphics.Left(x, x2, traceX)
      {
        LibGraphics.ShallowUnfold(x, y, x2, traceX, traceY, deltaX, deltaY, d);
        ghost var walk := LibGraphics.Shallow(x, y, x2, traceX, traceY, deltaX, deltaY, d);
        x := x + traceX;
        if d >= 0 {
          y := (y + traceY) % 256;
          d := d - 2 * deltaX;
        }
        d := d + 2 * deltaY;
        ghost var next := LibGraphics.Shallow(x, y, x2, traceX, traceY, deltaX, deltaY, d);
        assert walk == [Point(x, y)] + next;
        PixelsTraceCons(Point(x, y), next, color);
        AppendAssoc(bus, PixelTrace(Point(x, y), color), PixelsTrace(next, color));
        DrawPixel(x, y, color);
      }
    }

    /** The loop of DrawLine for |dy| > |dx|: y steps back from y2 to y1,
        x steps back when the decision variable is non-negative. */
    method WalkSteepBack(x2: uint8, y2: uint8, y1: uint8, traceX: int, traceY: int,
                         deltaX: int, deltaY: int, d0: int, color: uint16)
      requires traceX == 1 || traceX == -1
      requires traceY == 1 || traceY == -1
      requires LibGraphics.Left(y1, y2, traceY) >= 0
      modifies this`bus
      ensures bus == old(bus) + PixelsTrace(SteepBack(x2, y2, y1, traceX, traceY, deltaX, deltaY, d0), color)
    {
      ghost var all := old(bus) + PixelsTrace(SteepBack(x2, y2, y1, traceX, traceY, deltaX, deltaY, d0), color);
      var x: uint8, y: uint8, d := x2, y2, d0;
      while y != y1
        invariant LibGraphics.Left(y1, y, traceY) >= 0
        invariant all == bus + PixelsTrace(SteepBack(x, y, y1, traceX, traceY, deltaX, deltaY, d), color)
        decreases LibGraphics.Left(y1, y, traceY)
      {
        SteepBackUnfold(x, y, y1, traceX, traceY, deltaX, deltaY, d);
        ghost var walk := SteepBack(x, y, y1, traceX, traceY, deltaX, deltaY, d);
        y := y - traceY;
        if d >= 0 {
          x := (x - traceX) % 256;
          d := d + 2 * deltaY;
        }
        d := d - 2 * deltaX;
        ghost var next := SteepBack(x, y, y1, traceX, traceY, deltaX, deltaY, d);
        assert walk == [Point(x, y)] + next;
        PixelsTraceCons(Point(x, y), next, color);
        AppendAssoc(bus, PixelTrace(Point(x, y), color), PixelsTrace(next, color));
        DrawPixel(x, y, color);
      }
    }
  }
}
