# ST7735 TFT driver, modelled in Dafny

This project models the AVR driver for the Sitronix ST7735 TFT controller in
both of its generations:

- the 2020 driver, `lib/st7735.c` with `lib/st7735.h`;
- the 2016 driver, `st7735.c` with `st7735.h`.

The GPIO and SPI registers are left aside. What each driver call does is then
visible on the SPI bus, recorded as an append-only trace:

- `Bus.Event` is either `Frame(dc, bytes)` or `Delay(ms)`.
- A frame is one chip-select frame, the bytes written while chip-select is
  low, tagged with the level of the data/command line.
- One call of the 1 ms busy-wait is a `Delay(1)`.

Each generation's driver is a class (`LibDriver.Display`,
`LegacyDriver.Display`). It holds the trace in a field `bus` and the text
cursor `cacheMemIndexCol` / `cacheMemIndexRow` in two more fields. Every
method states the new trace as the old trace plus a specification function
of its arguments, and the new cursor as a function of the old one. Lemmas
about those functions state what the driver promises.

The modules follow the source:

| module | what it holds |
|---|---|
| `Bus` | events, frames, and the readers `Commands`, `DataBytes`, `Waited` |
| `LibDefs`, `LegacyDefs` | the header constants of each generation |
| `LibScript`, `LegacyScript` | the two init-table encodings: parse, encode, replay, and the concrete `INIT_ST7735B` tables |
| `LibProtocol`, `LegacyProtocol` | window, colour stream and pixel traces |
| `LibGraphics`, `LegacyGraphics` | Bresenham lines, and in 2020 the horizontal, vertical and rectangle fills |
| `LibText`, `LegacyText` | glyph-to-pixel mapping, and the cursor and line-wrap state machine |
| `LibDriver`, `LegacyDriver` | the driver classes, with loops where the C has loops |

Integer widths follow the C code:

- Coordinates are `uint8`.
- Pixel coordinates computed from the cursor are narrowed modulo 256.
- The 2020 cursor is an `unsigned short`, so its column update wraps modulo
  65536.
- The 2016 `DrawLine` deltas are `int8_t`.
- `SendColor565`'s count is a `uint16`, so `DrawRectangle`'s product is
  reduced modulo 65536. It never wraps for an accepted window (`LibGraphics.AreaBound`).

## What the code does that a reader might not expect

The model follows the code as written. The following behaviours are proved
about it:

- **2020 horizontal and vertical lines.** With `xs <= xe`, `DrawLineHorizontal`
  opens the window `[xs..xe]` but streams `xe - xs` colours, one fewer than
  the window holds (`LibGraphics.HorizontalOneShort`). The swap branch copies
  `xs` into both ends, so with `xs > xe` it opens the single pixel `(xs, y)`
  and streams no colour at all (`LibGraphics.HorizontalReversedEmpty`).
  `DrawLineVertical` is the same on the y axis.
- **2020 `SetPartialArea`.** It returns 0 on failure and 1 on success. 0 is
  `ST7735_SUCCESS` and 1 is `ST7735_ERROR`, the opposite of `SetWindow`
  (`LibProtocol.PartialAreaCodes`).
- **2020 `DrawString` can stop making progress.** When `CheckPosition` fails,
  the loop keeps its index and the cursor, so it never ends. The model returns
  `finished == false` at that point, and `LibText.StallIsFixpoint` shows that
  the failing check changes nothing.
- **2020 double-size glyphs can leave the panel.** At size X3 a glyph is 10
  columns wide, but the wrap test allows only `5 + 1` more. So a glyph placed
  at column 155 draws its last column past `SIZE_X` (`LibText.WideGlyphOverflows`).
- **2020 lines are not symmetric.** The tie rule `D >= 0` makes `(0,0)`→`(2,1)`
  and `(2,1)`→`(0,0)` plot different middle pixels (`LibGraphics.LineNotSymmetric`).
- **Both character guards can never fire.** `(character < 0x20) && (character > 0x7f)`
  is always false. The model requires a printable character instead.
- **2016 steep lines miss their far end.** The steep branch of `DrawLine`
  starts at `(x2, y2)` and walks y back to `y1`. Its decision variable never
  changes sign:
  - when `2 dx <= dy`, x moves on every step and overshoots;
  - otherwise x never moves.

  Either way the last pixel is not `(x1, y1)` (`LegacyGraphics.SteepMissesEnd`).
  A vertical line `(0,0)`→`(0,10)` ends at `(246, 0)`
  (`LegacyGraphics.VerticalSlants`).
- **2016 `SetPosition` on row `MAX_Y - 8`.** With `y == MAX_Y - 8` and `x`
  past `MAX_X - 6`, neither the failure branch nor the wrap branch applies. The
  cursor is set to `(x, y)` even though `x` is off the panel
  (`LegacyText.SetPositionOutcome`).

## Model

| member | source | states |
|---|---|---|
| Bus.ReadDataFrames | lib/st7735.c:216-230 | data frames carry their bytes as data, send no command and do not wait |
| Bus.ReadWaits | lib/st7735.c:788-795 | n busy-waits wait n ms and put nothing on the bus |
| Bus.RepeatPairs | st7735.c:422-427 | n colour pairs put the high byte at every even and the low byte at every odd position |
| LibDefs.ReturnCodesDistinct | lib/st7735.h:116-117 | ST7735_SUCCESS and ST7735_ERROR are different codes |
| LibDefs.CommandCodesDistinct | lib/st7735.h:72-84 | PTLON, CASET, RASET, RAMWR and PTLAR are pairwise distinct, so the frames they start can be told apart |
| LibDefs.Geometry | lib/st7735.h:119-125 | SIZE_X = 160, SIZE_Y = 129; CACHE_SIZE_MEM = 20930 is the full-panel area and fits a uint16_t; a glyph is 5 columns by 8 rows |
| LibDefs.SizeExtras | lib/st7735.h:135-144 | `size & 0x0F` is 0, 0, 1 and `size >> 4` is 0, 8, 8 for X1, X2, X3 |
| LibScript.ParseStep | lib/st7735.c:164-183 | a successful parse reads argc, delay and command at the cursor, then the argc argument bytes, and continues right after them |
| LibScript.ParseCons | lib/st7735.c:164-183 | conversely, one entry read at the cursor followed by a parse of the rest is a parse of the whole |
| LibScript.ParseEncodedEntries | lib/st7735.c:156-184 | the interpreter reads back every list of entries laid out in the `argc, delay, cmd, args` encoding, wherever it sits in a table, and stops right after it |
| LibScript.ParseEncode | lib/st7735.c:156-184 | parse inverts encode: a table built from entries (count byte first) parses back to those entries and uses the whole table |
| LibScript.ReplayReads | lib/st7735.c:156-184 | replaying entries sends exactly their commands in order, exactly their argument bytes as data, and waits the sum of their delays |
| LibScript.EntryReads | lib/st7735.c:174-182 | one entry sends its command, then its arguments as data, then waits its delay (0 waits nothing) |
| LibScript.InitEntries | lib/st7735.c:27-76 | the five entries of INIT_ST7735B occupy the table from byte 1 to its end (byte 18) |
| LibScript.InitEncoded | lib/st7735.c:27-76 | the table after its count byte is exactly the encoding of those five entries |
| LibScript.InitParse | lib/st7735.c:27-76 | INIT_ST7735B is 18 bytes and parses to the five entries |
| LibScript.InitEvents | lib/st7735.c:27-76 | replaying the table is SWRESET, 150 ms, SLPOUT, 200 ms, COLMOD 0x05, 10 ms, MADCTL 0xA0, DISPON, 200 ms, and nothing else |
| LibScript.InitCmds | lib/st7735.c:27-76 | the commands sent are SWRESET, SLPOUT, COLMOD, MADCTL, DISPON in that order |
| LibScript.InitArgs | lib/st7735.c:27-76 | the only data bytes are 0x05 (after COLMOD) and 0xA0 (after MADCTL) |
| LibScript.InitDelay | lib/st7735.c:27-76 | the delays add up to 560 ms |
| LibScript.InitReplay | lib/st7735.c:27-76 | the table is well formed and St7735Commands on it sends those five commands, those two data bytes, and waits 560 ms |
| LibProtocol.Data16Bytes | lib/st7735.c:239-257 | Data16BitsSend is one data frame of two bytes, high byte first, that together make up the word |
| LibProtocol.WindowFrames | lib/st7735.c:301-327 | an invalid window sends nothing; a valid one sends six frames |
| LibProtocol.ReadWindow | lib/st7735.c:312-323 | a valid window sends CASET then RASET, with data 0, x0, 0, x1, 0, y0, 0, y1, and does not wait |
| LibProtocol.ReadBounds | lib/st7735.c:312-316 | a command followed by two bounds as words reads as that command and the bytes 0, lo, 0, hi |
| LibProtocol.ByteWord | lib/st7735.c:314 | a uint8_t widened to a word is sent as 0 then the byte |
| LibProtocol.WindowStatus | lib/st7735.c:304-310 | SetWindow returns ST7735_SUCCESS exactly when x0 <= x1 <= SIZE_X and y0 <= y1 <= SIZE_Y, and ST7735_ERROR exactly otherwise |
| LibProtocol.ReadColorTrace | lib/st7735.c:337-346 | SendColor565(c, n) sends one RAMWR and then the two bytes of c, n times; n = 0 sends RAMWR alone |
| LibProtocol.ReadWords | lib/st7735.c:342-345 | n colour words carry n copies of (high byte, low byte) and nothing else |
| LibProtocol.PartialAreaFrames | lib/st7735.c:267-289 | rows past SIZE_Y send nothing; otherwise six frames are sent |
| LibProtocol.ReadPartialArea | lib/st7735.c:276-286 | an accepted partial area sends PTLAR then PTLON, with data 0, sRow, 0, eRow |
| LibProtocol.PartialAreaCodes | lib/st7735.c:270-288 | SetPartialArea returns the SUCCESS code exactly when it sends nothing and the ERROR code exactly when it sends the area |
| LibProtocol.PixelAlwaysStreams | lib/st7735.c:357-363 | DrawPixel ignores SetWindow's result: it always ends with RAMWR and one colour word; the window frames are there exactly when the pixel is on the panel |
| LibGraphics.ShallowUnfold | lib/st7735.c:617-631 | one step of the x-major loop: x moves by sx, y moves by sy (mod 256) exactly when D >= 0, and D is updated as the code does |
| LibGraphics.SteepUnfold | lib/st7735.c:639-653 | one step of the y-major loop: y moves by sy, x moves by sx (mod 256) exactly when D <= 0 |
| LibGraphics.DecisionStart | lib/st7735.c:613 | the initial decision value 2 dy - dx is the invariant's value before the first step |
| LibGraphics.DecisionStep | lib/st7735.c:621-628 | the decision invariant is kept by every step, and a minor step is taken only while minor steps remain |
| LibGraphics.DecisionEnd | lib/st7735.c:617 | when the major axis is done, no minor steps remain |
| LibGraphics.ShallowWalk | lib/st7735.c:611-632 | the x-major walk plots one pixel per x step, ends at (x2, y2), and steps x by ±1 and y by 0 or ±1 in a fixed direction |
| LibGraphics.SteepIsTransposedShallow | lib/st7735.c:633-654 | the y-major walk is the x-major walk with the axes exchanged |
| LibGraphics.LineShallow | lib/st7735.c:611-632 | a shallow line plots \|dx\|+1 pixels, ends at (x2, y2), and each step moves x by ±1 and y by 0 or ±1 toward the end |
| LibGraphics.SteepWalk | lib/st7735.c:633-654 | the y-major walk plots dy+1 pixels, ends at (x2, y2), and steps y by ±1 and x by 0 or ±1 |
| LibGraphics.LineSteep | lib/st7735.c:633-654 | a steep line plots \|dy\|+1 pixels, ends at (x2, y2), and each step moves y by ±1 and x by 0 or ±1 toward the end |
| LibGraphics.LineEnds | lib/st7735.c:580-657 | DrawLine plots max(\|dx\|, \|dy\|)+1 pixels, the first is (x1, y1), the last is (x2, y2), and every step moves the major axis by one and the minor by at most one |
| LibGraphics.LineNotSymmetric | lib/st7735.c:621-626 | (0,0)→(2,1) plots (1,1) in the middle while (2,1)→(0,0) plots (1,0) |
| LibGraphics.HorizontalOneShort | lib/st7735.c:682-684 | with xs <= xe the line opens [xs..xe]×[y..y] but streams one colour fewer than that window holds |
| LibGraphics.HorizontalReversedEmpty | lib/st7735.c:673-680 | with xs > xe the swap leaves the single-pixel window (xs, y) and streams no colour |
| LibGraphics.VerticalOneShort | lib/st7735.c:710-712 | with ys <= ye the line opens [x..x]×[ys..ye] but streams one colour fewer than that window holds |
| LibGraphics.VerticalReversedEmpty | lib/st7735.c:701-708 | with ys > ye the swap leaves the single-pixel window (x, ys) and streams no colour |
| LibGraphics.RectangleFills | lib/st7735.c:726-751 | whatever the corner order, the rectangle is accepted exactly when its larger coordinates are on the panel, and then exactly its area in colours is streamed into its window |
| LibGraphics.AreaBound | lib/st7735.c:750 | an accepted window's area is between 1 and CACHE_SIZE_MEM, so the uint16_t count never wraps |
| LibGraphics.ClearFillsPanel | lib/st7735.c:760-766 | the full-panel window is accepted and CACHE_SIZE_MEM is exactly its area |
| LibText.CellPixels | lib/st7735.c:399-455 | each set glyph bit becomes 1, 2 or 4 pixels at X1, X2, X3 |
| LibText.CellTrace | lib/st7735.c:399-455 | the DrawPixel calls for one set bit are the pixel traces of that bit's cell, in order |
| LibText.AfterChar | lib/st7735.c:408-463 | DrawChar never changes the row |
| LibText.ColumnExact | lib/st7735.c:397-403 | a column draws a pixel exactly in the cells of its set bits |
| LibText.GlyphExact | lib/st7735.c:391-462 | a glyph draws a pixel exactly in the cell of (c, r) for each set bit r of column c |
| LibText.ColumnCount | lib/st7735.c:397-403 | a column draws scale × (number of set bits) pixels |
| LibText.GlyphCount | lib/st7735.c:391-462 | a glyph draws scale × (number of set bits) pixels |
| LibText.SetPositionOutcome | lib/st7735.c:478-498 | SetPosition fails and keeps the cursor exactly when both x > MAX_X and y > MAX_Y; an x on the panel is taken as is; a success always keeps the row y and a column <= MAX_X |
| LibText.PlaceCases | lib/st7735.c:549-564 | before each character: draw in place if it fits; else move to column 2 of the next line if that has room; else fail |
| LibText.StallIsFixpoint | lib/st7735.c:559-564 | a failing check leaves the cursor as it was, so the next pass fails the same way |
| LibText.LayoutStep | lib/st7735.c:549-565 | a placed character is drawn at the placed cursor, and the string goes on from the cursor after it |
| LibText.LayoutEnd | lib/st7735.c:548-565 | DrawString ends at the NUL exactly when it finishes; otherwise it stops on a failing check; the final cursor is the one after the last drawn character |
| LibText.PlaceFits | lib/st7735.c:509-527 | a placed character's next column is on the panel, and it sits where the cursor was or at column 2 of the next line |
| LibText.LayoutFits | lib/st7735.c:548-565 | every character DrawString draws starts where its width still fits the wrap test |
| LibText.LayoutChained | lib/st7735.c:548-565 | each character is drawn right after the previous one or at column 2 of the next line |
| LibText.WideGlyphOverflows | lib/st7735.c:438-463 | at X3 a glyph accepted at column 155 draws its fifth column entirely past SIZE_X |
| LibDriver.Display.constructor | lib/st7735.c:79-81 | the cursor starts at (0, 0) and the bus is empty |
| LibDriver.Display.CommandSend | lib/st7735.c:193-207 | one frame with DC low carrying the byte |
| LibDriver.Display.Data8BitsSend | lib/st7735.c:216-230 | one frame with DC high carrying the byte |
| LibDriver.Display.Data16BitsSend | lib/st7735.c:239-257 | one frame with DC high carrying the high then the low byte |
| LibDriver.Display.DelayMs | lib/st7735.c:788-795 | time one-millisecond busy-waits |
| LibDriver.Display.St7735Commands | lib/st7735.c:156-184 | the loop appends exactly the replay of the parsed table |
| LibDriver.Display.SendEntry | lib/st7735.c:164-183 | one loop pass appends the replay of the next entry and moves the table cursor to the entry after it |
| LibDriver.Display.SendArguments | lib/st7735.c:176-179 | the argument loop sends the next count table bytes as data frames |
| LibDriver.Display.SetPartialArea | lib/st7735.c:267-289 | appends the partial-area frames and returns the code proved in PartialAreaCodes |
| LibDriver.Display.SetWindow | lib/st7735.c:301-327 | appends the window frames and returns the status proved in WindowStatus |
| LibDriver.Display.SendColor565 | lib/st7735.c:337-346 | the loop appends RAMWR and count colour words |
| LibDriver.Display.DrawPixel | lib/st7735.c:357-363 | appends the pixel trace of (x, y) |
| LibDriver.Display.DrawPair | lib/st7735.c:424-426 | two vertically stacked pixels, upper first |
| LibDriver.Display.DrawCell | lib/st7735.c:399-455 | the pixels of one set bit at the current cursor |
| LibDriver.Display.DrawChar | lib/st7735.c:373-468 | draws the glyph's pixels at the cursor, advances the column by 5 or 11, keeps the row, and returns ST7735_SUCCESS |
| LibDriver.Display.DrawGlyph | lib/st7735.c:384-462 | the column loop, last column first, appends the glyph's pixel traces |
| LibDriver.Display.DrawColumn | lib/st7735.c:393-405 | the row loop, last row first, appends the pixels of one column's set bits |
| LibDriver.Display.SetPosition | lib/st7735.c:478-498 | returns the status and leaves the cursor described in SetPositionOutcome |
| LibDriver.Display.CheckPosition | lib/st7735.c:509-527 | fails when x > MAX_X and y > max_y; wraps to (2, y) when x > MAX_X only; otherwise keeps the cursor |
| LibDriver.Display.DrawString | lib/st7735.c:538-566 | appends the characters at the cursors of the layout and leaves the layout's final cursor; returns whether the NUL was reached |
| LibDriver.Display.PlaceAndDraw | lib/st7735.c:551-564 | one loop pass: when the check passes, the character is drawn at the placed cursor; when it fails, nothing changes |
| LibDriver.Display.DrawLine | lib/st7735.c:580-657 | appends the pixel traces of the line's points (whose properties LineEnds states) and returns 1 |
| LibDriver.Display.WalkShallow | lib/st7735.c:617-631 | the x-major loop appends the pixels of the shallow walk |
| LibDriver.Display.WalkSteep | lib/st7735.c:639-653 | the y-major loop appends the pixels of the steep walk |
| LibDriver.Display.DrawLineHorizontal | lib/st7735.c:669-685 | appends the trace described in HorizontalOneShort and HorizontalReversedEmpty |
| LibDriver.Display.DrawLineVertical | lib/st7735.c:697-713 | appends the trace described in VerticalOneShort and VerticalReversedEmpty |
| LibDriver.Display.DrawRectangle | lib/st7735.c:726-751 | appends the trace described in RectangleFills |
| LibDriver.Display.ClearScreen | lib/st7735.c:760-766 | appends the full-panel window and CACHE_SIZE_MEM colours |
| LibDriver.Display.UpdateScreen | lib/st7735.c:775-779 | sends DISPON alone |
| LegacyDefs.SelectorLevels | st7735.h:121-124 | COMMAND is 0 and drives DC low; DATA is 1 and drives DC high |
| LegacyDefs.WindowCommandsDistinct | st7735.h:71-73 | CASET, RASET and RAMWR are distinct command bytes |
| LegacyDefs.Geometry | st7735.h:104-112 | SIZE_X = 131, SIZE_Y = 161; CACHE_SIZE_MEM = 21384 is the full-panel area and fits a uint16_t |
| LegacyDefs.ArgCount | st7735.c:364 | the masked argument count is below the DELAY flag |
| LegacyDefs.DelayFlag | st7735.h:53 | every count below 0x80 survives the mask, with or without the DELAY flag, and the flag is seen exactly when it is set |
| LegacyDefs.MaskBits | st7735.c:362-364 | the delay test is bit 0x80 of the count byte and the count is its low seven bits |
| LegacyScript.EntryRead | st7735.c:356-377 | an entry is command, count byte, count arguments, and a delay byte exactly when the count byte has DELAY set |
| LegacyScript.ParseStep | st7735.c:356-377 | a successful parse reads one entry and continues right after it |
| LegacyScript.ParseCons | st7735.c:356-377 | conversely, one entry followed by a parse of the rest is a parse of the whole |
| LegacyScript.DelayTimes | st7735.c:689-703 | DelayMs(255) waits 500 ms, any other t waits t ms, 0 waits nothing, and no delay sends anything |
| LegacyScript.EntryAt | st7735.c:356-377 | one encoded entry reads back as itself, leaving the rest of the table |
| LegacyScript.ParseEncodedEntries | st7735.c:346-378 | the interpreter reads back every list of entries laid out in the `cmd, argc\|DELAY, args, [delay]` encoding and stops right after it |
| LegacyScript.ParseEncode | st7735.c:346-378 | parse inverts encode: a table built from entries parses back to them and is consumed entirely |
| LegacyScript.ReplayReads | st7735.c:346-378 | replaying entries sends exactly their commands in order, their argument bytes as data, and waits the sum of their delays with 255 counted as 500 |
| LegacyScript.EntryReads | st7735.c:356-377 | one entry sends its command, its arguments as data, then its delay if it has one |
| LegacyScript.InitEncoded | st7735.c:20-163 | INIT_ST7735B is exactly the encoding of its twelve entries |
| LegacyScript.InitParse | st7735.c:20-163 | INIT_ST7735B is 73 bytes, parses to its twelve entries and is consumed entirely |
| LegacyScript.InitCmds | st7735.c:20-163 | the commands are SWRESET, SLPOUT, COLMOD, FRMCTR1, INVOFF, MADCTL, DISSET5, INVCTR, GMCTRP1, GMCTRN1, NORON, DISPON in order |
| LegacyScript.InitArgsDelay | st7735.c:20-163 | the table sends 40 data bytes (listed) and waits 1200 ms |
| LegacyScript.InitReplay | st7735.c:20-163 | the table is well formed and St7735Commands on it sends those twelve commands, 40 data bytes, and waits 1200 ms |
| LegacyProtocol.SendFrames | st7735.c:387-408 | CmdOrDataSend puts exactly one byte in a frame, with DC low for COMMAND and high for DATA |
| LegacyProtocol.WindowFrames | st7735.c:439-471 | an invalid window sends nothing; a valid one sends ten frames |
| LegacyProtocol.WindowSends | st7735.c:450-468 | a valid window sends CASET, 0, x0, 0, x1, RASET, 0, y0, 0, y1, one byte per frame |
| LegacyProtocol.WindowStatus | st7735.c:442-470 | SetWindow returns 1 exactly when the window is valid and 0 exactly otherwise |
| LegacyProtocol.ReadWindow | st7735.c:450-468 | a valid window sends the commands CASET, RASET and data 0, x0, 0, x1, 0, y0, 0, y1, every frame one byte |
| LegacyProtocol.ReadAxis | st7735.c:450-458 | one axis reads as its command and 0, lo, 0, hi |
| LegacyProtocol.WindowAsLib | st7735.c:450-468 | the 2016 window sends the same commands and data as the 2020 one, in four more frames |
| LegacyProtocol.ReadColorTrace | st7735.c:417-428 | SendColor565(c, n) sends 2n+1 frames: RAMWR and n copies of (high byte, low byte); n = 0 sends RAMWR alone |
| LegacyProtocol.ColorAlternates | st7735.c:417-428 | after RAMWR, odd frames carry the high byte and even frames the low byte |
| LegacyProtocol.ReadPairs | st7735.c:422-427 | the loop's data are n copies of (high byte, low byte) |
| LegacyProtocol.PairsAlternate | st7735.c:422-427 | the loop's 2n frames alternate high byte and low byte |
| LegacyProtocol.ColorAsLib | st7735.c:417-428 | the 2016 stream sends the same bytes as the 2020 one, in n more frames |
| LegacyProtocol.PixelAlwaysStreams | st7735.c:528-534 | DrawPixel always ends with RAMWR and the two colour bytes; the window frames are there exactly when the pixel is on the panel |
| LegacyProtocol.ClearFillsPanel | st7735.c:479-485 | ClearScreen sends CASET, RASET, RAMWR, the full-panel bounds, and CACHE_SIZE_MEM colours, which is the panel's area |
| LegacyGraphics.Int8 | st7735.c:613-615 | the int8_t narrowing lands in -128..127 and agrees with its argument modulo 256 |
| LegacyGraphics.Delta | st7735.c:613-631 | within ±127 the delta is the true distance and direction; beyond, it wraps, and ±128 stays -128 |
| LegacyGraphics.SteepBackUnfold | st7735.c:662-677 | one step of the y-major loop: y moves back by sy, x moves back by sx exactly when D >= 0 |
| LegacyGraphics.SteepSlides | st7735.c:662-677 | once D >= 0 with dy >= dx, x moves on every step |
| LegacyGraphics.SteepStays | st7735.c:662-677 | once D < 0, x never moves |
| LegacyGraphics.LineShallow | st7735.c:634-655 | a shallow line plots \|dx\|+1 pixels from (x1, y1) to (x2, y2), stepping x by ±1 and y by 0 or ±1 |
| LegacyGraphics.ShallowAsLib | st7735.c:634-655 | when \|dy\| < \|dx\|, the 2016 line plots exactly the 2020 line's pixels |
| LegacyGraphics.SteepBranch | st7735.c:656-678 | the steep branch starts at (x2, y2) and walks y back to y1 |
| LegacyGraphics.LineSteep | st7735.c:656-678 | a steep line plots \|dy\|+1 pixels from (x2, y2) to row y1; x moves on every step when 2dx <= dy, and never otherwise |
| LegacyGraphics.SteepMissesEnd | st7735.c:656-678 | the last pixel of a steep line is never (x1, y1) |
| LegacyGraphics.VerticalSlants | st7735.c:656-678 | the vertical line (0,0)→(0,10) ends at (246, 0) |
| LegacyGraphics.SteepFrozen | st7735.c:656-678 | the line (0,0)→(6,10) is drawn as the vertical run x = 6 |
| LegacyText.LetterA | st7735.c:199 | 'A' is 0x7e, 0x11, 0x11, 0x11, 0x7e and DrawChar draws exactly 18 pixels for it |
| LegacyText.OnesOfA | st7735.c:199 | the columns of 'A' have 6 and 2 set bits |
| LegacyText.ColumnExact | st7735.c:559-567 | a column draws (col+i, row+j) exactly for the set bits j, counted LSB first |
| LegacyText.GlyphExact | st7735.c:555-568 | DrawChar draws (col+i, row+j) exactly when bit j of column i is set |
| LegacyText.ColumnCount | st7735.c:559-567 | a column draws as many pixels as it has set bits |
| LegacyText.GlyphCount | st7735.c:555-568 | a glyph draws as many pixels as it has set bits |
| LegacyText.SetPositionOutcome | st7735.c:494-518 | fails and keeps the cursor exactly when x > MAX_X-6 and y > MAX_Y-8; wraps to (2, y+8) when x > MAX_X-6 and y < MAX_Y-8; otherwise (x, y), including y = MAX_Y-8 |
| LegacyText.AdvanceCases | st7735.c:588 | after each character the cursor moves 6 columns right, or wraps to column 2 eight rows down, or stays when SetPosition fails |
| LegacyText.CellsChain | st7735.c:584-589 | DrawString draws one character per cell, each cell the advance of the previous, and ends at the advance of the last |
| LegacyText.StallSticks | st7735.c:584-589 | once the cursor cannot advance, every remaining character is drawn over the same cell |
| LegacyDriver.Display.constructor | st7735.c:265-267 | the cursor starts at (0, 0) and the bus is empty |
| LegacyDriver.Display.CmdOrDataSend | st7735.c:387-408 | one frame carrying the byte, with DC given by the selector |
| LegacyDriver.Display.DelayMs | st7735.c:689-703 | the busy-waits described in DelayTimes |
| LegacyDriver.Display.St7735Commands | st7735.c:346-378 | the loop appends exactly the replay of the parsed table |
| LegacyDriver.Display.SendEntry | st7735.c:356-377 | one loop pass appends the replay of the next entry and moves the table cursor past it |
| LegacyDriver.Display.SendArguments | st7735.c:366-369 | the argument loop sends the next count table bytes as data frames |
| LegacyDriver.Display.SendColor565 | st7735.c:417-428 | the loop appends RAMWR and count alternating colour bytes |
| LegacyDriver.Display.SetWindow | st7735.c:439-471 | appends the window frames and returns the status proved in WindowStatus |
| LegacyDriver.Display.ClearScreen | st7735.c:479-485 | appends the full-panel fill described in ClearFillsPanel |
| LegacyDriver.Display.DrawPixel | st7735.c:528-534 | appends the pixel trace of (x, y) |
| LegacyDriver.Display.SetPosition | st7735.c:494-518 | returns the status and leaves the cursor described in SetPositionOutcome |
| LegacyDriver.Display.DrawChar | st7735.c:543-571 | draws the glyph's pixels at the cursor, leaves the cursor unchanged and returns 0 |
| LegacyDriver.Display.DrawGlyph | st7735.c:555-568 | the column loop appends the glyph's pixels, column by column |
| LegacyDriver.Display.DrawColumn | st7735.c:559-567 | the bit loop, shifting the byte right each time, appends the pixels of the set bits |
| LegacyDriver.Display.DrawString | st7735.c:580-590 | appends every character at its cell and leaves the cursor where the chain of advances ends |
| LegacyDriver.Display.DrawCell | st7735.c:586-588 | one loop pass: the character at the cursor, then the cursor advanced |
| LegacyDriver.Display.DrawLine | st7735.c:603-681 | appends the pixel traces of the line's points (whose properties LineShallow and LineSteep state) and returns 1 |
| LegacyDriver.Display.WalkShallow | st7735.c:640-654 | the x-major loop appends the pixels of the shallow walk |
| LegacyDriver.Display.WalkSteepBack | st7735.c:662-677 | the y-major loop appends the pixels of the backward steep walk |

## Left out

- The GPIO and SPI register writes: the chip-select and DC pins, the SPIF busy-wait, and the direction registers. A frame stands for them.
- HardwareReset, SpiInit, SpiEnd and St7735Init: register set-up and reset pulses with delays, with no bus traffic of their own apart from the init script. The init script is modelled through St7735Commands.
- LibDriver.Display.CommandSend: the echoed SPDR value it returns is a hardware read and is not modelled. The same goes for Data8BitsSend, Data16BitsSend and LegacyDriver.Display.CmdOrDataSend.
- `_delay_ms(1)` is a recorded `Delay(1)` event, not real time.
- PROGMEM and `pgm_read_byte` are ordinary sequence reads.
- font.h is not part of this model. The 2020 font table `FONTS` is a constructor argument of `LibDriver.Display`: any table of 96 glyphs of 5 bytes.
- LibDriver.Display.constructor: requires such a font table. The C code has no constructor; the globals start at (0, 0).
- LibDriver.Display.DrawChar: requires a character in 0x20..0x7f. The source's range guard can never fire, and other characters index outside the font table. LegacyDriver.Display.DrawChar requires the same.
- LibDriver.Display.DrawString: when CheckPosition fails, the C loop spins forever without changing anything. The model returns `false` at that point instead of looping, and StallIsFixpoint proves that another pass would change nothing.
- LibDriver.Display.St7735Commands: requires a well-formed table. On a truncated table the C code reads past its end. LegacyDriver.Display.St7735Commands requires the same.
- LegacyDriver.Display.DrawString: requires the NUL within the first 256 characters, because the index is a uint8_t that would wrap.
- LegacyDriver.Display.DrawLine: requires \|x2-x1\| and \|y2-y1\| of at most 127. Beyond that the int8_t deltas wrap (LegacyGraphics.Delta shows how): the walk then goes the wrong way round modulo 256, through off-panel columns or rows. The x-major walk still ends at (x2, y2), and the y-major walk, which starts at (x2, y2) and runs until y reaches y1, still ends on row y1. Only a difference of exactly 128 leaves a delta of -128, and then the x-major walk need not end at (x2, y2). This wrap-around is not modelled. Under the bound the int decision variable cannot overflow.
- The 2016 `CHARACTERS` entries are at most 0x7f. So the right shift of the signed `char` in DrawChar is exact, and the model shifts unsigned.
- The 2016 `UpdateScreen` is declared in st7735.h but defined nowhere in st7735.c, so there is nothing to model.
- The controller's own behaviour is not modelled: window auto-increment, pixel memory, MADCTL orientation. The trace is what the driver sends, not a picture.
- main.c is example wiring, not part of the model.
- The `ST7735_`-prefixed prototypes in lib/st7735.h do not match the definitions in lib/st7735.c. The model names operations after the definitions.
