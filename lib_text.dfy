/**
 * Text output of the 2020 generation (lib/st7735.c): which pixels DrawChar
 * plots for a glyph at each of the three scales, and how CheckPosition and
 * DrawString move the text cursor and wrap lines.
 */
module LibText {
  import opened Bus
  import opened LibDefs
  import opened LibProtocol

  /** The text cursor: cacheMemIndexCol and cacheMemIndexRow, both
      unsigned short. */
  datatype Cursor = Cursor(col: uint16, row: uint16)

  datatype Option<T> = None | Some(value: T)

  function Pow2(n: nat): (r: nat)
    ensures r >= 1
  {
    if n == 0 then 1 else 2 * Pow2(n - 1)
  }

  /** Bit r of a glyph column, counted from the least significant bit: the
      test `letter & (1 << r)`. */
  predicate Bit(letter: uint8, r: nat) {
    (letter / Pow2(r)) % 2 == 1
  }

  /** The glyphs of the printable characters 0x20 .. 0x7f, five column bytes
      each. */
  predicate FontShape(fonts: seq<seq<uint8>>) {
    |fonts| == 96 && forall k :: 0 <= k < 96 ==> |fonts[k]| == CHARS_COLS_LEN
  }

  predicate Printable(ch: char) {
    0x20 <= ch as int <= 0x7f
  }

  /** How many pixels each set glyph bit becomes. */
  function Scale(size: ESizes): nat {
    match size
    case X1 => 1
    case X2 => 2
    case X3 => 4
  }

  /** How far DrawChar moves the cursor to the right. */
  function Advance(size: ESizes): nat {
    match size
    case X1 => CHARS_COLS_LEN
    case X2 => CHARS_COLS_LEN
    case X3 => CHARS_COLS_LEN + CHARS_COLS_LEN + 1
  }

  /** A coordinate passed to DrawPixel's uint8_t parameter. */
  function Narrow(v: int): uint8 {
    v % 0x100
  }

  /** The pixels DrawChar plots, in order, for bit r of glyph column c. */
  function CellPixels(cur: Cursor, c: nat, r: nat, size: ESizes): (ps: seq<Point>)
    ensures |ps| == Scale(size)
  {
    match size
    case X1 => [Point(Narrow(cur.col + c), Narrow(cur.row + r))]
    case X2 => [Point(Narrow(cur.col + c), Narrow(cur.row + 2 * r)),
                Point(Narrow(cur.col + c), Narrow(cur.row + 2 * r + 1))]
    case X3 => [Point(Narrow(cur.col + 2 * c), Narrow(cur.row + 2 * r)),
                Point(Narrow(cur.col + 2 * c), Narrow(cur.row + 2 * r + 1)),
                Point(Narrow(cur.col + 2 * c + 1), Narrow(cur.row + 2 * r)),
                Point(Narrow(cur.col + 2 * c + 1), Narrow(cur.row + 2 * r + 1))]
  }

  /** Two vertically stacked pixels, drawn top first. */
  function PairTrace(x: uint8, y0: uint8, y1: uint8, color: uint16): seq<Event> {
    PixelTrace(Point(x, y0), color) + PixelTrace(Point(x, y1), color)
  }

  /** What the branch of DrawChar for `size` sends for one set bit: one
      pixel at X1, a stacked pair at X2, two pairs side by side at X3. */
  function CellEvents(cur: Cursor, c: nat, r: nat, size: ESizes, color: uint16): seq<Event> {
    match size
    case X1 => PixelTrace(Point(Narrow(cur.col + c), Narrow(cur.row + r)), color)
    case X2 => PairTrace(Narrow(cur.col + c), Narrow(cur.row + 2 * r), Narrow(cur.row + 2 * r + 1), color)
    case X3 =>
      PairTrace(Narrow(cur.col + 2 * c), Narrow(cur.row + 2 * r), Narrow(cur.row + 2 * r + 1), color)
      + PairTrace(Narrow(cur.col + 2 * c + 1), Narrow(cur.row + 2 * r), Narrow(cur.row + 2 * r + 1), color)
  }

  /** The events of a cell are those of its pixels, in order. */
  lemma CellTrace(cur: Cursor, c: nat, r: nat, size: ESizes, color: uint16)
    ensures CellEvents(cur, c, r, size, color) == PixelsTrace(CellPixels(cur, c, r, size), color)
  {
    var ps := CellPixels(cur, c, r, size);
    match size {
      case X1 => PixelsOne(ps, color);
      case X2 => PixelsTwo(ps, color);
      case X3 =>
        PixelsTwo(ps[2..], color);
        PixelsTwo(ps[..2], color);
        PixelsTraceAppend(ps[..2], ps[2..], color);
        assert ps == ps[..2] + ps[2..];
    }
  }

  // Proof helper for CellTrace.
  lemma PixelsOne(ps: seq<Point>, color: uint16)
    requires |ps| == 1
    ensures PixelsTrace(ps, color) == PixelTrace(ps[0], color)
  {
    PixelsTraceCons(ps[0], [], color);
    assert ps == [ps[0]] + [];
  }

  // Proof helper for CellTrace.
  lemma PixelsTwo(ps: seq<Point>, color: uint16)
    requires |ps| == 2
    ensures PixelsTrace(ps, color) == PixelTrace(ps[0], color) + PixelTrace(ps[1], color)
  {
    PixelsOne(ps[1..], color);
    PixelsTraceCons(ps[0], ps[1..], color);
    assert ps == [ps[0]] + ps[1..];
  }

  /** The pixels of glyph column c for bits rows-1 down to 0 (the inner
      `while (idxRow--)` loop). */
  function ColumnPixels(letter: uint8, cur: Cursor, c: nat, size: ESizes, rows: nat): seq<Point> {
    if rows == 0 then []
    else
      (if Bit(letter, rows - 1) then CellPixels(cur, c, rows - 1, size) else [])
      + ColumnPixels(letter, cur, c, size, rows - 1)
  }

  /** The pixels of glyph columns cols-1 down to 0 (the outer
      `while (idxCol--)` loop). */
  function GlyphPixels(glyph: seq<uint8>, cur: Cursor, size: ESizes, cols: nat): seq<Point>
    requires cols <= |glyph|
  {
    if cols == 0 then []
    else ColumnPixels(glyph[cols - 1], cur, cols - 1, size, CHARS_ROWS_LEN)
         + GlyphPixels(glyph, cur, size, cols - 1)
  }

  /** The glyph of a printable character. */
  function Glyph(fonts: seq<seq<uint8>>, ch: char): (g: seq<uint8>)
    requires FontShape(fonts) && Printable(ch)
    ensures |g| == CHARS_COLS_LEN
  {
    fonts[ch as int - 0x20]
  }

  /** Everything DrawChar(ch, c, size) sends with the cursor at `cur`. */
  function CharTrace(fonts: seq<seq<uint8>>, ch: char, cur: Cursor, size: ESizes, color: uint16): seq<Event>
    requires FontShape(fonts) && Printable(ch)
  {
    var glyph := Glyph(fonts, ch);
    PixelsTrace(GlyphPixels(glyph, cur, size, |glyph|), color)
  }

  /** Drawing glyph columns 0 .. c is drawing column c, then columns
      0 .. c-1. */
  // Proof helper for the column loop of LibDriver.Display.DrawGlyph.
  lemma GlyphTraceStep(glyph: seq<uint8>, cur: Cursor, size: ESizes, c: nat, color: uint16)
    requires c < |glyph|
    ensures PixelsTrace(GlyphPixels(glyph, cur, size, c + 1), color)
            == PixelsTrace(ColumnPixels(glyph[c], cur, c, size, CHARS_ROWS_LEN), color)
               + PixelsTrace(GlyphPixels(glyph, cur, size, c), color)
  {
    PixelsTraceAppend(ColumnPixels(glyph[c], cur, c, size, CHARS_ROWS_LEN), GlyphPixels(glyph, cur, size, c), color);
  }

  /** Where DrawChar leaves the cursor: the column moves right by the
      advance, as an unsigned short; the row stays. */
  function AfterChar(cur: Cursor, size: ESizes): (next: Cursor)
    ensures next.row == cur.row
  {
    Cursor((cur.col + Advance(size)) % 0x1_0000, cur.row)
  }

  /** The column of bits a column loop visits, and nothing else: a pixel is
      plotted exactly when it belongs to the cell of a set bit below `rows`. */
  lemma {:induction false} ColumnExact(letter: uint8, cur: Cursor, c: nat, size: ESizes, rows: nat)
    ensures forall p :: p in ColumnPixels(letter, cur, c, size, rows) <==>
              exists r :: 0 <= r < rows && Bit(letter, r) && p in CellPixels(cur, c, r, size)
  {
    if rows > 0 {
      ColumnExact(letter, cur, c, size, rows - 1);
    }
  }

  /** DrawChar plots exactly the cells of the set glyph bits: a pixel is
      plotted if and only if some bit r of some column c is set and the
      pixel belongs to that bit's cell (one pixel at X1, two stacked pixels
      at X2, a 2 x 2 block at X3). */
  lemma {:induction false} GlyphExact(glyph: seq<uint8>, cur: Cursor, size: ESizes, cols: nat)
    requires cols <= |glyph|
    ensures forall p :: p in GlyphPixels(glyph, cur, size, cols) <==>
              exists c, r :: 0 <= c < cols && 0 <= r < CHARS_ROWS_LEN && Bit(glyph[c], r) &&
                             p in CellPixels(cur, c, r, size)
  {
    if cols > 0 {
      GlyphExact(glyph, cur, size, cols - 1);
      ColumnExact(glyph[cols - 1], cur, cols - 1, size, CHARS_ROWS_LEN);
      forall p | p in GlyphPixels(glyph, cur, size, cols)
        ensures exists c, r :: 0 <= c < cols && 0 <= r < CHARS_ROWS_LEN && Bit(glyph[c], r) &&
                               p in CellPixels(cur, c, r, size)
      {
        if p in ColumnPixels(glyph[cols - 1], cur, cols - 1, size, CHARS_ROWS_LEN) {
          var r :| 0 <= r < CHARS_ROWS_LEN && Bit(glyph[cols - 1], r) && p in CellPixels(cur, cols - 1, r, size);
        }
      }
      forall p, c, r | 0 <= c < cols && 0 <= r < CHARS_ROWS_LEN && Bit(glyph[c], r) && p in CellPixels(cur, c, r, size)
        ensures p in GlyphPixels(glyph, cur, size, cols)
      {
        if c == cols - 1 {
          assert p in ColumnPixels(glyph[cols - 1], cur, cols - 1, size, CHARS_ROWS_LEN);
        }
      }
    }
  }

  /** The set bits among the low `rows` bits of a byte. */
  function Ones(letter: uint8, rows: nat): nat {
    if rows == 0 then 0 else (if Bit(letter, rows - 1) then 1 else 0) + Ones(letter, rows - 1)
  }

  /** The set bits of the first `cols` columns of a glyph. */
  function GlyphOnes(glyph: seq<uint8>, cols: nat): nat
    requires cols <= |glyph|
  {
    if cols == 0 then 0 else Ones(glyph[cols - 1], CHARS_ROWS_LEN) + GlyphOnes(glyph, cols - 1)
  }

  lemma {:induction false} ColumnCount(letter: uint8, cur: Cursor, c: nat, size: ESizes, rows: nat)
    ensures |ColumnPixels(letter, cur, c, size, rows)| == Scale(size) * Ones(letter, rows)
  {
    if rows > 0 {
      var bit, below := if Bit(letter, rows - 1) then 1 else 0, Ones(letter, rows - 1);
      ColumnCount(letter, cur, c, size, rows - 1);
      assert Scale(size) * (bit + below) == Scale(size) * bit + Scale(size) * below;
    }
  }

  /** DrawChar plots Scale(size) pixels per set glyph bit: one at X1, two at
      X2, four at X3. */
  lemma {:induction false} GlyphCount(glyph: seq<uint8>, cur: Cursor, size: ESizes, cols: nat)
    requires cols <= |glyph|
    ensures |GlyphPixels(glyph, cur, size, cols)| == Scale(size) * GlyphOnes(glyph, cols)
  {
    if cols > 0 {
      var column, others := Ones(glyph[cols - 1], CHARS_ROWS_LEN), GlyphOnes(glyph, cols - 1);
      GlyphCount(glyph, cur, size, cols - 1);
      ColumnCount(glyph[cols - 1], cur, cols - 1, size, CHARS_ROWS_LEN);
      assert Scale(size) * (column + others) == Scale(size) * column + Scale(size) * others;
    }
  }

  // ----- the cursor state machine of DrawString -----

  /** SetPosition(x, y): the status and the cursor it leaves. It fails,
      leaving the cursor, only when x > MAX_X and y > MAX_Y; when only x is
      beyond MAX_X it moves to column 2 of row y; otherwise to (x, y). */
  function SetPosition(cur: Cursor, x: uint8, y: uint8): (uint8, Cursor) {
    if x > MAX_X && y > MAX_Y then (ST7735_ERROR, cur)
    else if x > MAX_X && y <= MAX_Y then (ST7735_SUCCESS, Cursor(2, y))
    else (ST7735_SUCCESS, Cursor(x, y))
  }

  /** SetPosition rejects a position only when both coordinates are beyond
      the panel; a successful call always leaves a column at most MAX_X and
      the requested row, even a row beyond MAX_Y when x is on the panel. */
  lemma SetPositionOutcome(cur: Cursor, x: uint8, y: uint8)
    ensures SetPosition(cur, x, y).0 == ST7735_ERROR <==> x > MAX_X && y > MAX_Y
    ensures SetPosition(cur, x, y).0 == ST7735_ERROR ==> SetPosition(cur, x, y).1 == cur
    ensures SetPosition(cur, x, y).0 == ST7735_SUCCESS ==>
              SetPosition(cur, x, y).1.row == y && SetPosition(cur, x, y).1.col <= MAX_X
    ensures x <= MAX_X ==> SetPosition(cur, x, y) == (ST7735_SUCCESS, Cursor(x, y))
  {
  }

  /** CheckPosition(x, y, max_y, size): the status and the cursor it leaves.
      It fails, leaving the cursor, when x > MAX_X and y > max_y; it moves
      the cursor to (2, y) when x > MAX_X and y <= max_y; otherwise it
      leaves the cursor. */
  function CheckPosition(cur: Cursor, x: uint8, y: uint8, maxY: uint8): (uint8, Cursor) {
    if x > MAX_X && y > maxY then (ST7735_ERROR, cur)
    else if x > MAX_X && y <= maxY then (ST7735_SUCCESS, Cursor(2, y))
    else (ST7735_SUCCESS, cur)
  }

  /** The arguments DrawString passes to CheckPosition, each narrowed to
      unsigned char: the column after the glyph, the row below it, and the
      lowest row a glyph may start on. */
  function NewX(cur: Cursor, size: ESizes): uint8 {
    (cur.col + CHARS_COLS_LEN + size.ExtraWidth()) % 0x100
  }

  function DeltaY(size: ESizes): uint8 {
    CHARS_ROWS_LEN + size.ExtraHeight()
  }

  function NewY(cur: Cursor, size: ESizes): uint8 {
    (cur.row + DeltaY(size)) % 0x100
  }

  function MaxY(size: ESizes): uint8 {
    MAX_Y - DeltaY(size)
  }

  /** One pass of the DrawString loop body: the status of CheckPosition and
      the cursor it leaves. */
  function Place(cur: Cursor, size: ESizes): (uint8, Cursor) {
    CheckPosition(cur, NewX(cur, size), NewY(cur, size), MaxY(size))
  }

  /** The three outcomes of one pass: the glyph fits at the cursor; or it
      does not, and the next line (row + delta) still has room, so the
      cursor moves to column 2 of it; or neither, and the pass fails. */
  lemma PlaceCases(cur: Cursor, size: ESizes)
    ensures NewX(cur, size) <= MAX_X ==> Place(cur, size) == (ST7735_SUCCESS, cur)
    ensures NewX(cur, size) > MAX_X && NewY(cur, size) <= MaxY(size) ==>
              Place(cur, size) == (ST7735_SUCCESS, Cursor(2, NewY(cur, size)))
    ensures NewX(cur, size) > MAX_X && NewY(cur, size) > MaxY(size) ==>
              Place(cur, size) == (ST7735_ERROR, cur)
    ensures Place(cur, size).0 == ST7735_ERROR <==> NewX(cur, size) > MAX_X && NewY(cur, size) > MaxY(size)
  {
  }

  /** A failing pass changes nothing, so the next pass computes the same
      arguments and fails again: once CheckPosition fails, DrawString loops
      forever without drawing and without advancing its index. */
  lemma StallIsFixpoint(cur: Cursor, size: ESizes)
    requires Place(cur, size).0 == ST7735_ERROR
    ensures Place(cur, size).1 == cur
    ensures Place(Place(cur, size).1, size) == Place(cur, size)
  {
  }

  /** A string as DrawString receives it: printable characters ended by the
      NUL. */
  predicate CString(str: seq<char>) {
    |str| > 0 && str[|str| - 1] == '\0' && forall k :: 0 <= k < |str| - 1 ==> Printable(str[k])
  }

  /** The layout of str[i..] from cursor `cur`: the cursors at which the
      characters are drawn, the final cursor, and whether the loop reached
      the NUL (false: it stalled on a failing CheckPosition). */
  function Layout(str: seq<char>, i: nat, cur: Cursor, size: ESizes): (seq<Cursor>, Cursor, bool)
    requires CString(str) && i < |str|
    decreases |str| - i
  {
    if str[i] == '\0' then ([], cur, true)
    else
      var (status, at) := Place(cur, size);
      if status != ST7735_SUCCESS then ([], cur, false)
      else
        var (cells, final, finished) := Layout(str, i + 1, AfterChar(at, size), size);
        ([at] + cells, final, finished)
  }

  /** Everything DrawString sends when it draws str[i], str[i + 1], ... at
      the cursors `cells`, in order. */
  function StringTrace(fonts: seq<seq<uint8>>, str: seq<char>, i: nat, cells: seq<Cursor>,
                       size: ESizes, color: uint16): seq<Event>
    requires FontShape(fonts) && CString(str) && i + |cells| < |str|
    decreases |cells|
  {
    if cells == [] then []
    else CharTrace(fonts, str[i], cells[0], size, color)
         + StringTrace(fonts, str, i + 1, cells[1..], size, color)
  }

  /** One pass that places a character: the layout from `cur` is the cursor
      Place chose, followed by the layout of the rest from after the glyph. */
  lemma LayoutStep(str: seq<char>, i: nat, cur: Cursor, size: ESizes)
    requires CString(str) && i < |str| && str[i] != '\0'
    requires Place(cur, size).0 == ST7735_SUCCESS
    ensures i + 1 < |str|
    ensures var next := Layout(str, i + 1, AfterChar(Place(cur, size).1, size), size);
            Layout(str, i, cur, size) == ([Place(cur, size).1] + next.0, next.1, next.2)
  {
  }

  /** DrawString's loop state: `sent`, what the call has sent so far,
      followed by what the layout of str[i..] from `cur` sends, is `all`,
      and that layout ends where and how `whole` does. */
  // Proof helper for the loop of LibDriver.Display.DrawString.
  predicate Resumes(fonts: seq<seq<uint8>>, str: seq<char>, size: ESizes, color: uint16,
                    whole: (seq<Cursor>, Cursor, bool), all: seq<Event>,
                    i: nat, cur: Cursor, sent: seq<Event>)
    requires FontShape(fonts) && CString(str) && i < |str|
  {
    var rest := Layout(str, i, cur, size);
    && i + |rest.0| < |str|
    && rest.1 == whole.1 && rest.2 == whole.2
    && all == sent + StringTrace(fonts, str, i, rest.0, size, color)
  }

  /** Before the first pass nothing is sent and the rest is everything. */
  // Proof helper for the loop of LibDriver.Display.DrawString.
  lemma ResumesStart(fonts: seq<seq<uint8>>, str: seq<char>, size: ESizes, color: uint16,
                     start: Cursor, sent: seq<Event>)
    requires FontShape(fonts) && CString(str)
    ensures |Layout(str, 0, start, size).0| < |str|
    ensures Resumes(fonts, str, size, color, Layout(str, 0, start, size),
                    sent + StringTrace(fonts, str, 0, Layout(str, 0, start, size).0, size, color),
                    0, start, sent)
  {
    LayoutEnd(str, 0, start, size);
  }

  /** A pass that places a character at the cursor Place chooses sends its
      glyph, and the loop resumes at the next character from after the
      glyph. */
  // Proof helper for the loop of LibDriver.Display.DrawString.
  lemma ResumesStep(fonts: seq<seq<uint8>>, str: seq<char>, size: ESizes, color: uint16,
                    whole: (seq<Cursor>, Cursor, bool), all: seq<Event>,
                    i: nat, cur: Cursor, sent: seq<Event>)
    requires FontShape(fonts) && CString(str) && i < |str| && str[i] != '\0'
    requires Resumes(fonts, str, size, color, whole, all, i, cur, sent)
    requires Place(cur, size).0 == ST7735_SUCCESS
    ensures i + 1 < |str|
    ensures Resumes(fonts, str, size, color, whole, all, i + 1, AfterChar(Place(cur, size).1, size),
                    sent + CharTrace(fonts, str[i], Place(cur, size).1, size, color))
  {
    var at := Place(cur, size).1;
    LayoutStep(str, i, cur, size);
    LayoutEnd(str, i + 1, AfterChar(at, size), size);
    var cells := Layout(str, i + 1, AfterChar(at, size), size).0;
    assert ([at] + cells)[0] == at && ([at] + cells)[1..] == cells;
    var head := CharTrace(fonts, str[i], at, size, color);
    var tail := StringTrace(fonts, str, i + 1, cells, size, color);
    assert StringTrace(fonts, str, i, [at] + cells, size, color) == head + tail;
    AppendAssoc(sent, head, tail);
  }

  /** A pass whose CheckPosition fails ends the layout where the loop
      stands, with everything sent. */
  // Proof helper for the loop of LibDriver.Display.DrawString.
  lemma ResumesStall(fonts: seq<seq<uint8>>, str: seq<char>, size: ESizes, color: uint16,
                     whole: (seq<Cursor>, Cursor, bool), all: seq<Event>,
                     i: nat, cur: Cursor, sent: seq<Event>)
    requires FontShape(fonts) && CString(str) && i < |str| && str[i] != '\0'
    requires Resumes(fonts, str, size, color, whole, all, i, cur, sent)
    requires Place(cur, size).0 != ST7735_SUCCESS
    ensures all == sent && whole.1 == cur && !whole.2
  {
  }

  /** Reaching the NUL ends the layout where the loop stands, with
      everything sent. */
  // Proof helper for the loop of LibDriver.Display.DrawString.
  lemma ResumesDone(fonts: seq<seq<uint8>>, str: seq<char>, size: ESizes, color: uint16,
                    whole: (seq<Cursor>, Cursor, bool), all: seq<Event>,
                    i: nat, cur: Cursor, sent: seq<Event>)
    requires FontShape(fonts) && CString(str) && i < |str| && str[i] == '\0'
    requires Resumes(fonts, str, size, color, whole, all, i, cur, sent)
    ensures all == sent && whole.1 == cur && whole.2
  {
    assert sent + [] == sent;
  }

  /** Where the layout of a string ends: it either reaches the NUL, or stops
      on a cursor where CheckPosition fails; the final cursor is the one
      DrawChar left after the last character drawn. */
  lemma {:induction false} LayoutEnd(str: seq<char>, i: nat, cur: Cursor, size: ESizes)
    requires CString(str) && i < |str|
    ensures var (cells, final, finished) := Layout(str, i, cur, size);
            && i + |cells| < |str|
            && (finished <==> str[i + |cells|] == '\0')
            && (!finished ==> Place(final, size).0 == ST7735_ERROR)
            && (cells != [] ==> final == AfterChar(cells[|cells| - 1], size))
            && (cells == [] ==> final == cur)
    decreases |str| - i
  {
    if str[i] != '\0' {
      var (status, at) := Place(cur, size);
      if status == ST7735_SUCCESS {
        var next := AfterChar(at, size);
        LayoutEnd(str, i + 1, next, size);
        var (cells, final, finished) := Layout(str, i + 1, next, size);
        assert Layout(str, i, cur, size) == ([at] + cells, final, finished);
        if cells != [] {
          assert ([at] + cells)[|cells|] == cells[|cells| - 1];
        }
      }
    }
  }

  /** Every glyph is placed where the narrowed column after it is at most
      MAX_X. */
  predicate Fits(cells: seq<Cursor>, size: ESizes) {
    forall k :: 0 <= k < |cells| ==> NewX(cells[k], size) <= MAX_X
  }

  /** Each glyph after the first sits right after the one before, or at
      column 2 of the line delta rows below. */
  predicate Chained(cells: seq<Cursor>, size: ESizes) {
    forall k :: 0 < k < |cells| ==>
      cells[k] == AfterChar(cells[k - 1], size) ||
      cells[k] == Cursor(2, NewY(AfterChar(cells[k - 1], size), size))
  }

  /** A successful pass leaves a cursor where the glyph fits: the one it
      had, or column 2 of the next line. */
  lemma PlaceFits(cur: Cursor, size: ESizes)
    requires Place(cur, size).0 == ST7735_SUCCESS
    ensures NewX(Place(cur, size).1, size) <= MAX_X
    ensures Place(cur, size).1 == cur || Place(cur, size).1 == Cursor(2, NewY(cur, size))
  {
  }

  /** Every character DrawString draws sits where its glyph fits in the
      columns (the narrowed column after it is at most MAX_X). */
  lemma {:induction false} LayoutFits(str: seq<char>, i: nat, cur: Cursor, size: ESizes)
    requires CString(str) && i < |str|
    ensures Fits(Layout(str, i, cur, size).0, size)
    decreases |str| - i
  {
    if str[i] != '\0' && Place(cur, size).0 == ST7735_SUCCESS {
      var at := Place(cur, size).1;
      PlaceFits(cur, size);
      var next := AfterChar(at, size);
      LayoutFits(str, i + 1, next, size);
      var cells := Layout(str, i + 1, next, size).0;
      assert Layout(str, i, cur, size).0 == [at] + cells;
    }
  }

  /** Each character after the first sits either right after the one before,
      or at column 2 of the line delta rows below. */
  lemma {:induction false} LayoutChained(str: seq<char>, i: nat, cur: Cursor, size: ESizes)
    requires CString(str) && i < |str|
    ensures Chained(Layout(str, i, cur, size).0, size)
    decreases |str| - i
  {
    if str[i] != '\0' && Place(cur, size).0 == ST7735_SUCCESS {
      var at := Place(cur, size).1;
      var next := AfterChar(at, size);
      LayoutChained(str, i + 1, next, size);
      var cells := Layout(str, i + 1, next, size).0;
      var all := [at] + cells;
      assert Layout(str, i, cur, size).0 == all;
      if cells != [] {
        assert Place(next, size).0 == ST7735_SUCCESS && cells[0] == Place(next, size).1;
        PlaceFits(next, size);
      }
      forall k | 0 < k < |all|
        ensures all[k] == AfterChar(all[k - 1], size) ||
                all[k] == Cursor(2, NewY(AfterChar(all[k - 1], size), size))
      {
        if k > 1 {
          assert all[k] == cells[k - 1] && all[k - 1] == cells[k - 2];
        }
      }
    }
  }

  /** At X3 the width check is one glyph too generous: the glyph drawn at
      column 155 passes the check, yet its last column of pixels lands on
      column 164, beyond SIZE_X, so those pixels' windows are rejected. */
  lemma WideGlyphOverflows(row: uint16, r: nat)
    ensures Place(Cursor(155, row), X3) == (ST7735_SUCCESS, Cursor(155, row))
    ensures forall p :: p in CellPixels(Cursor(155, row), 4, r, X3) ==> p.x > SIZE_X
  {
  }
}
