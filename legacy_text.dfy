/**
 * Text output of the 2016 generation (st7735.c): the CHARACTERS glyph
 * table, which pixels DrawChar plots for a character, and how SetPosition
 * and DrawString move the text cursor and wrap lines.
 */
module LegacyText {
  import opened Bus
  import opened LegacyDefs
  import opened LegacyProtocol

  /** The five column bytes of one glyph, bit 0 at the top. */
  datatype Columns = Columns(c0: uint8, c1: uint8, c2: uint8, c3: uint8, c4: uint8) {
    function Bytes(): (s: seq<uint8>)
      ensures |s| == 5
    {
      [c0, c1, c2, c3, c4]
    }
  }

  // The CHARACTERS table, in six runs of sixteen glyphs: GLYPHS_n holds the
  // characters 0xn0 .. 0xnf.

  const GLYPHS_2: seq<Columns> := [
    Columns(0x00, 0x00, 0x00, 0x00, 0x00),  // 0x20
    Columns(0x00, 0x00, 0x5f, 0x00, 0x00),  // 0x21
    Columns(0x00, 0x07, 0x00, 0x07, 0x00),  // 0x22
    Columns(0x14, 0x7f, 0x14, 0x7f, 0x14),  // 0x23
    Columns(0x24, 0x2a, 0x7f, 0x2a, 0x12),  // 0x24
    Columns(0x23, 0x13, 0x08, 0x64, 0x62),  // 0x25
    Columns(0x36, 0x49, 0x55, 0x22, 0x50),  // 0x26
    Columns(0x00, 0x05, 0x03, 0x00, 0x00),  // 0x27
    Columns(0x00, 0x1c, 0x22, 0x41, 0x00),  // 0x28
    Columns(0x00, 0x41, 0x22, 0x1c, 0x00),  // 0x29
    Columns(0x14, 0x08, 0x3e, 0x08, 0x14),  // 0x2a
    Columns(0x08, 0x08, 0x3e, 0x08, 0x08),  // 0x2b
    Columns(0x00, 0x50, 0x30, 0x00, 0x00),  // 0x2c
    Columns(0x08, 0x08, 0x08, 0x08, 0x08),  // 0x2d
    Columns(0x00, 0x60, 0x60, 0x00, 0x00),  // 0x2e
    Columns(0x20, 0x10, 0x08, 0x04, 0x02)  // 0x2f
  ]

  const GLYPHS_3: seq<Columns> := [
    Columns(0x3e, 0x51, 0x49, 0x45, 0x3e),  // 0x30
    Columns(0x00, 0x42, 0x7f, 0x40, 0x00),  // 0x31
    Columns(0x42, 0x61, 0x51, 0x49, 0x46),  // 0x32
    Columns(0x21, 0x41, 0x45, 0x4b, 0x31),  // 0x33
    Columns(0x18, 0x14, 0x12, 0x7f, 0x10),  // 0x34
    Columns(0x27, 0x45, 0x45, 0x45, 0x39),  // 0x35
    Columns(0x3c, 0x4a, 0x49, 0x49, 0x30),  // 0x36
    Columns(0x01, 0x71, 0x09, 0x05, 0x03),  // 0x37
    Columns(0x36, 0x49, 0x49, 0x49, 0x36),  // 0x38
    Columns(0x06, 0x49, 0x49, 0x29, 0x1e),  // 0x39
    Columns(0x00, 0x36, 0x36, 0x00, 0x00),  // 0x3a
    Columns(0x00, 0x56, 0x36, 0x00, 0x00),  // 0x3b
    Columns(0x08, 0x14, 0x22, 0x41, 0x00),  // 0x3c
    Columns(0x14, 0x14, 0x14, 0x14, 0x14),  // 0x3d
    Columns(0x00, 0x41, 0x22, 0x14, 0x08),  // 0x3e
    Columns(0x02, 0x01, 0x51, 0x09, 0x06)  // 0x3f
  ]

  const GLYPHS_4: seq<Columns> := [
    Columns(0x32, 0x49, 0x79, 0x41, 0x3e),  // 0x40
    Columns(0x7e, 0x11, 0x11, 0x11, 0x7e),  // 0x41
    Columns(0x7f, 0x49, 0x49, 0x49, 0x36),  // 0x42
    Columns(0x3e, 0x41, 0x41, 0x41, 0x22),  // 0x43
    Columns(0x7f, 0x41, 0x41, 0x22, 0x1c),  // 0x44
    Columns(0x7f, 0x49, 0x49, 0x49, 0x41),  // 0x45
    Columns(0x7f, 0x09, 0x09, 0x09, 0x01),  // 0x46
    Columns(0x3e, 0x41, 0x49, 0x49, 0x7a),  // 0x47
    Columns(0x7f, 0x08, 0x08, 0x08, 0x7f),  // 0x48
    Columns(0x00, 0x41, 0x7f, 0x41, 0x00),  // 0x49
    Columns(0x20, 0x40, 0x41, 0x3f, 0x01),  // 0x4a
    Columns(0x7f, 0x08, 0x14, 0x22, 0x41),  // 0x4b
    Columns(0x7f, 0x40, 0x40, 0x40, 0x40),  // 0x4c
    Columns(0x7f, 0x02, 0x0c, 0x02, 0x7f),  // 0x4d
    Columns(0x7f, 0x04, 0x08, 0x10, 0x7f),  // 0x4e
    Columns(0x3e, 0x41, 0x41, 0x41, 0x3e)  // 0x4f
  ]

  const GLYPHS_5: seq<Columns> := [
    Columns(0x7f, 0x09, 0x09, 0x09, 0x06),  // 0x50
    Columns(0x3e, 0x41, 0x51, 0x21, 0x5e),  // 0x51
    Columns(0x7f, 0x09, 0x19, 0x29, 0x46),  // 0x52
    Columns(0x46, 0x49, 0x49, 0x49, 0x31),  // 0x53
    Columns(0x01, 0x01, 0x7f, 0x01, 0x01),  // 0x54
    Columns(0x3f, 0x40, 0x40, 0x40, 0x3f),  // 0x55
    Columns(0x1f, 0x20, 0x40, 0x20, 0x1f),  // 0x56
    Columns(0x3f, 0x40, 0x38, 0x40, 0x3f),  // 0x57
    Columns(0x63, 0x14, 0x08, 0x14, 0x63),  // 0x58
    Columns(0x07, 0x08, 0x70, 0x08, 0x07),  // 0x59
    Columns(0x61, 0x51, 0x49, 0x45, 0x43),  // 0x5a
    Columns(0x00, 0x7f, 0x41, 0x41, 0x00),  // 0x5b
    Columns(0x02, 0x04, 0x08, 0x10, 0x20),  // 0x5c
    Columns(0x00, 0x41, 0x41, 0x7f, 0x00),  // 0x5d
    Columns(0x04, 0x02, 0x01, 0x02, 0x04),  // 0x5e
    Columns(0x40, 0x40, 0x40, 0x40, 0x40)  // 0x5f
  ]

  const GLYPHS_6: seq<Columns> := [
    Columns(0x00, 0x01, 0x02, 0x04, 0x00),  // 0x60
    Columns(0x20, 0x54, 0x54, 0x54, 0x78),  // 0x61
    Columns(0x7f, 0x48, 0x44, 0x44, 0x38),  // 0x62
    Columns(0x38, 0x44, 0x44, 0x44, 0x20),  // 0x63
    Columns(0x38, 0x44, 0x44, 0x48, 0x7f),  // 0x64
    Columns(0x38, 0x54, 0x54, 0x54, 0x18),  // 0x65
    Columns(0x08, 0x7e, 0x09, 0x01, 0x02),  // 0x66
    Columns(0x0c, 0x52, 0x52, 0x52, 0x3e),  // 0x67
    Columns(0x7f, 0x08, 0x04, 0x04, 0x78),  // 0x68
    Columns(0x00, 0x44, 0x7d, 0x40, 0x00),  // 0x69
    Columns(0x20, 0x40, 0x44, 0x3d, 0x00),  // 0x6a
    Columns(0x7f, 0x10, 0x28, 0x44, 0x00),  // 0x6b
    Columns(0x00, 0x41, 0x7f, 0x40, 0x00),  // 0x6c
    Columns(0x7c, 0x04, 0x18, 0x04, 0x78),  // 0x6d
    Columns(0x7c, 0x08, 0x04, 0x04, 0x78),  // 0x6e
    Columns(0x38, 0x44, 0x44, 0x44, 0x38)  // 0x6f
  ]

  const GLYPHS_7: seq<Columns> := [
    Columns(0x7c, 0x14, 0x14, 0x14, 0x08),  // 0x70
    Columns(0x08, 0x14, 0x14, 0x14, 0x7c),  // 0x71
    Columns(0x7c, 0x08, 0x04, 0x04, 0x08),  // 0x72
    Columns(0x48, 0x54, 0x54, 0x54, 0x20),  // 0x73
    Columns(0x04, 0x3f, 0x44, 0x40, 0x20),  // 0x74
    Columns(0x3c, 0x40, 0x40, 0x20, 0x7c),  // 0x75
    Columns(0x1c, 0x20, 0x40, 0x20, 0x1c),  // 0x76
    Columns(0x3c, 0x40, 0x30, 0x40, 0x3c),  // 0x77
    Columns(0x44, 0x28, 0x10, 0x28, 0x44),  // 0x78
    Columns(0x0c, 0x50, 0x50, 0x50, 0x3c),  // 0x79
    Columns(0x44, 0x64, 0x54, 0x4c, 0x44),  // 0x7a
    Columns(0x00, 0x08, 0x36, 0x41, 0x00),  // 0x7b
    Columns(0x00, 0x00, 0x7f, 0x00, 0x00),  // 0x7c
    Columns(0x00, 0x41, 0x36, 0x08, 0x00),  // 0x7d
    Columns(0x10, 0x08, 0x08, 0x10, 0x08),  // 0x7e
    Columns(0x00, 0x00, 0x00, 0x00, 0x00)  // 0x7f
  ]

  /** CHARACTERS, indexed by the character less 0x20. */
  const CHARACTERS: seq<seq<Columns>> := [GLYPHS_2, GLYPHS_3, GLYPHS_4, GLYPHS_5, GLYPHS_6, GLYPHS_7]

  /** The text cursor: cacheMemIndexCol and cacheMemIndexRow. */
  datatype Cursor = Cursor(col: int, row: int)

  predicate Printable(ch: char) {
    0x20 <= ch as int <= 0x7f
  }

  /** The glyph DrawChar reads for a printable character. */
  function Glyph(ch: char): (g: seq<uint8>)
    requires Printable(ch)
    ensures |g| == 5
  {
    var k := ch as int - 0x20;
    CHARACTERS[k / 16][k % 16].Bytes()
  }

  /** A glyph column byte shifted right j times, as DrawChar's inner loop
      does to its copy `c`. */
  function Shifted(letter: nat, j: nat): nat {
    if j == 0 then letter else Shifted(letter, j - 1) / 2
  }

  /** Bit j of a glyph column, counted from the least significant bit: the
      test `(c & 0x01) == 1` after j shifts. */
  predicate Bit(letter: uint8, j: nat) {
    Shifted(letter, j) % 2 == 1
  }

  /** A coordinate passed to DrawPixel's uint8_t parameter. */
  function Narrow(v: int): uint8 {
    v % 0x100
  }

  /** The pixel of bit j of glyph column i, relative to the cursor. */
  function Spot(cur: Cursor, i: nat, j: nat): Point {
    Point(Narrow(cur.col + i), Narrow(cur.row + j))
  }

  /** The pixels of glyph column i for bits 0 .. rows-1, in the order of
      the inner loop, which shifts the column byte right once per bit. */
  function ColumnPixels(letter: uint8, cur: Cursor, i: nat, rows: nat): seq<Point> {
    if rows == 0 then []
    else ColumnPixels(letter, cur, i, rows - 1) + (if Bit(letter, rows - 1) then [Spot(cur, i, rows - 1)] else [])
  }

  /** The pixels of glyph columns 0 .. cols-1, in the order of the outer
      loop. */
  function GlyphPixels(glyph: seq<uint8>, cur: Cursor, cols: nat): seq<Point>
    requires cols <= |glyph|
  {
    if cols == 0 then []
    else GlyphPixels(glyph, cur, cols - 1) + ColumnPixels(glyph[cols - 1], cur, cols - 1, 8)
  }

  /** Everything DrawChar(ch, c) sends with the cursor at `cur`. */
  function CharTrace(ch: char, cur: Cursor, color: uint16): seq<Event>
    requires Printable(ch)
  {
    PixelsTrace(GlyphPixels(Glyph(ch), cur, 5), color)
  }

  /** One more bit of a column: its pixel, if the bit is set, follows the
      pixels of the bits before it. */
  // Proof helper for the bit loop of LegacyDriver.Display.DrawColumn.
  lemma ColumnTraceStep(letter: uint8, cur: Cursor, i: nat, j: nat, color: uint16)
    ensures PixelsTrace(ColumnPixels(letter, cur, i, j + 1), color)
         == PixelsTrace(ColumnPixels(letter, cur, i, j), color)
            + (if Bit(letter, j) then PixelTrace(Spot(cur, i, j), color) else [])
  {
    var before := ColumnPixels(letter, cur, i, j);
    if Bit(letter, j) {
      PixelsTraceSnoc(before, Spot(cur, i, j), color);
    } else {
      assert ColumnPixels(letter, cur, i, j + 1) == before + [];
      assert before + [] == before;
    }
  }

  /** One more column of a glyph: its pixels follow those of the columns
      before it. */
  // Proof helper for the column loop of LegacyDriver.Display.DrawGlyph.
  lemma GlyphTraceStep(glyph: seq<uint8>, cur: Cursor, i: nat, color: uint16)
    requires i < |glyph|
    ensures PixelsTrace(GlyphPixels(glyph, cur, i + 1), color)
         == PixelsTrace(GlyphPixels(glyph, cur, i), color) + PixelsTrace(ColumnPixels(glyph[i], cur, i, 8), color)
  {
    PixelsTraceAppend(GlyphPixels(glyph, cur, i), ColumnPixels(glyph[i], cur, i, 8), color);
  }

  lemma {:induction false} ColumnExact(letter: uint8, cur: Cursor, i: nat, rows: nat)
    ensures forall p :: p in ColumnPixels(letter, cur, i, rows) <==>
              exists j :: 0 <= j < rows && Bit(letter, j) && p == Spot(cur, i, j)
  {
    if rows > 0 {
      ColumnExact(letter, cur, i, rows - 1);
    }
  }

  /** DrawChar plots (col+i, row+j), as uint8_t, exactly when bit j of glyph
      column i is set, and nothing else. */
  lemma {:induction false} GlyphExact(glyph: seq<uint8>, cur: Cursor, cols: nat)
    requires cols <= |glyph|
    ensures forall p :: p in GlyphPixels(glyph, cur, cols) <==>
              exists i, j :: 0 <= i < cols && 0 <= j < 8 && Bit(glyph[i], j) && p == Spot(cur, i, j)
  {
    if cols > 0 {
      GlyphExact(glyph, cur, cols - 1);
      ColumnExact(glyph[cols - 1], cur, cols - 1, 8);
      forall p | p in GlyphPixels(glyph, cur, cols)
        ensures exists i, j :: 0 <= i < cols && 0 <= j < 8 && Bit(glyph[i], j) && p == Spot(cur, i, j)
      {
        if p in ColumnPixels(glyph[cols - 1], cur, cols - 1, 8) {
          var j :| 0 <= j < 8 && Bit(glyph[cols - 1], j) && p == Spot(cur, cols - 1, j);
        }
      }
      forall p, i, j | 0 <= i < cols && 0 <= j < 8 && Bit(glyph[i], j) && p == Spot(cur, i, j)
        ensures p in GlyphPixels(glyph, cur, cols)
      {
        if i == cols - 1 {
          assert p in ColumnPixels(glyph[cols - 1], cur, cols - 1, 8);
        }
      }
    }
  }

  /** The set bits among the low `rows` bits of a byte. */
  function Ones(letter: uint8, rows: nat): nat {
    if rows == 0 then 0 else Ones(letter, rows - 1) + (if Bit(letter, rows - 1) then 1 else 0)
  }

  /** The set bits of the first `cols` columns of a glyph. */
  function GlyphOnes(glyph: seq<uint8>, cols: nat): nat
    requires cols <= |glyph|
  {
    if cols == 0 then 0 else GlyphOnes(glyph, cols - 1) + Ones(glyph[cols - 1], 8)
  }

  lemma {:induction false} ColumnCount(letter: uint8, cur: Cursor, i: nat, rows: nat)
    ensures |ColumnPixels(letter, cur, i, rows)| == Ones(letter, rows)
  {
    if rows > 0 {
      ColumnCount(letter, cur, i, rows - 1);
    }
  }

  /** DrawChar plots one pixel per set glyph bit. */
  lemma {:induction false} GlyphCount(glyph: seq<uint8>, cur: Cursor, cols: nat)
    requires cols <= |glyph|
    ensures |GlyphPixels(glyph, cur, cols)| == GlyphOnes(glyph, cols)
  {
    if cols > 0 {
      GlyphCount(glyph, cur, cols - 1);
      ColumnCount(glyph[cols - 1], cur, cols - 1, 8);
    }
  }

  /** The set bits of the two kinds of column in 'A'. */
  lemma OnesOfA()
    ensures Ones(0x7e, 8) == 6 && Ones(0x11, 8) == 2
  {
    assert Shifted(0x7e, 7) == 0 && Shifted(0x11, 7) == 0;
  }

  /** 'A' is the glyph 0x7e, 0x11, 0x11, 0x11, 0x7e and DrawChar plots 18
      pixels for it. */
  lemma LetterA(cur: Cursor)
    ensures Glyph('A') == [0x7e, 0x11, 0x11, 0x11, 0x7e]
    ensures |GlyphPixels(Glyph('A'), cur, 5)| == 18
  {
    var g := Glyph('A');
    assert g == [0x7e, 0x11, 0x11, 0x11, 0x7e];
    GlyphCount(g, cur, 5);
    OnesOfA();
    assert GlyphOnes(g, 5) == 6 + 2 + 2 + 2 + 6;
  }

  // ----- the cursor state machine of DrawString -----

  /** SetPosition(x, y): the status and the cursor it leaves. It fails,
      leaving the cursor, when x > MAX_X - 6 and y > MAX_Y - 8; when x is
      beyond MAX_X - 6 and y < MAX_Y - 8 it moves to column 2 of row y + 8;
      in every other case, y == MAX_Y - 8 included, to (x, y). */
  function SetPosition(cur: Cursor, x: uint8, y: uint8): (uint8, Cursor) {
    if x > MAX_X - 6 && y > MAX_Y - 8 then (0, cur)
    else if x > MAX_X - 6 && y < MAX_Y - 8 then (1, Cursor(2, y + 8))
    else (1, Cursor(x, y))
  }

  /** SetPosition fails exactly when both coordinates are past the last
      character cell, and then leaves the cursor; it wraps to the next line
      only below row MAX_Y - 8, so on that row a column past the edge is
      taken as it is. Every successful call leaves a cursor inside 0 .. 255
      on both axes. */
  lemma SetPositionOutcome(cur: Cursor, x: uint8, y: uint8)
    ensures SetPosition(cur, x, y).0 == 0 <==> x > MAX_X - 6 && y > MAX_Y - 8
    ensures SetPosition(cur, x, y).0 == 1 <==> !(x > MAX_X - 6 && y > MAX_Y - 8)
    ensures SetPosition(cur, x, y).0 == 0 ==> SetPosition(cur, x, y).1 == cur
    ensures x > MAX_X - 6 && y < MAX_Y - 8 ==> SetPosition(cur, x, y).1 == Cursor(2, y + 8)
    ensures x > MAX_X - 6 && y == MAX_Y - 8 ==> SetPosition(cur, x, y).1 == Cursor(x, y)
    ensures x <= MAX_X - 6 ==> SetPosition(cur, x, y).1 == Cursor(x, y)
    ensures SetPosition(cur, x, y).0 == 1 ==> InRange(SetPosition(cur, x, y).1)
  {
  }

  /** A cursor whose coordinates fit a uint8_t, as SetPosition leaves it. */
  predicate InRange(cur: Cursor) {
    0 <= cur.col < 0x100 && 0 <= cur.row < 0x100
  }

  /** Where DrawString moves the cursor after each character:
      SetPosition(col + 6, row), both arguments narrowed to uint8_t. */
  function Advance(cur: Cursor): Cursor {
    SetPosition(cur, Narrow(cur.col + 6), Narrow(cur.row)).1
  }

  /** From a cursor inside 0 .. 255, DrawString's next cell is six columns
      on while that stays within MAX_X - 6, else column 2 of the line eight
      rows down while the row is above MAX_Y - 8; past that the cursor
      stays, and the next character is drawn over the last one. */
  lemma AdvanceCases(cur: Cursor)
    requires InRange(cur)
    ensures cur.col + 6 <= MAX_X - 6 ==> Advance(cur) == Cursor(cur.col + 6, cur.row)
    ensures MAX_X - 6 < cur.col + 6 < 0x100 && cur.row < MAX_Y - 8 ==> Advance(cur) == Cursor(2, cur.row + 8)
    ensures MAX_X - 6 < cur.col + 6 < 0x100 && cur.row > MAX_Y - 8 ==> Advance(cur) == cur
    ensures cur.row == MAX_Y - 8 && cur.col + 6 < 0x100 ==> Advance(cur) == Cursor(cur.col + 6, cur.row)
    ensures InRange(Advance(cur))
  {
  }

  /** A string DrawString can walk: printable characters ended by NUL
      within reach of its uint8_t index. */
  predicate CString(str: seq<char>) {
    0 < |str| <= 0x100 && str[|str| - 1] == '\0' &&
    forall k :: 0 <= k < |str| - 1 ==> Printable(str[k])
  }

  /** The cells DrawString draws the characters from index i on into,
      starting with the cursor at `cur`. */
  function Cells(str: seq<char>, i: nat, cur: Cursor): seq<Cursor>
    requires CString(str) && i < |str|
    decreases |str| - i
  {
    if str[i] == '\0' then [] else [cur] + Cells(str, i + 1, Advance(cur))
  }

  /** Where DrawString leaves the cursor. */
  function Final(str: seq<char>, i: nat, cur: Cursor): Cursor
    requires CString(str) && i < |str|
    decreases |str| - i
  {
    if str[i] == '\0' then cur else Final(str, i + 1, Advance(cur))
  }

  /** What DrawString sends from index i on. */
  function StringTrace(str: seq<char>, i: nat, cur: Cursor, color: uint16): seq<Event>
    requires CString(str) && i < |str|
    decreases |str| - i
  {
    if str[i] == '\0' then []
    else CharTrace(str[i], cur, color) + StringTrace(str, i + 1, Advance(cur), color)
  }

  /** One character of DrawString: a character before the NUL is drawn at
      the cursor, and the rest of the string from the next cell. */
  // Proof helper for the loop of LegacyDriver.Display.DrawString.
  lemma StringStep(str: seq<char>, i: nat, cur: Cursor, color: uint16)
    requires CString(str) && i < |str| && str[i] != '\0'
    ensures i + 1 < |str| && Printable(str[i])
    ensures StringTrace(str, i, cur, color) == CharTrace(str[i], cur, color) + StringTrace(str, i + 1, Advance(cur), color)
    ensures Final(str, i, cur) == Final(str, i + 1, Advance(cur))
  {
  }

  /** DrawString draws every character before the NUL once, in order: the
      k-th into the cell reached by k advances of the cursor, and the
      cursor ends one advance past the last cell. */
  lemma {:induction false} CellsChain(str: seq<char>, i: nat, cur: Cursor)
    requires CString(str) && i < |str|
    ensures var cells := Cells(str, i, cur);
            |cells| == |str| - 1 - i &&
            (cells != [] ==> cells[0] == cur && Final(str, i, cur) == Advance(cells[|cells| - 1])) &&
            (cells == [] ==> Final(str, i, cur) == cur) &&
            forall k :: 0 <= k < |cells| - 1 ==> cells[k + 1] == Advance(cells[k])
    decreases |str| - i
  {
    if str[i] != '\0' {
      CellsChain(str, i + 1, Advance(cur));
    }
  }

  /** Once SetPosition fails, it fails again from the same cursor: every
      remaining character is drawn into the same cell and the cursor does
      not move. */
  lemma {:induction false} StallSticks(str: seq<char>, i: nat, cur: Cursor)
    requires CString(str) && i < |str|
    requires Advance(cur) == cur
    ensures forall k :: 0 <= k < |Cells(str, i, cur)| ==> Cells(str, i, cur)[k] == cur
    ensures Final(str, i, cur) == cur
    decreases |str| - i
  {
    if str[i] != '\0' {
      StallSticks(str, i + 1, cur);
    }
  }
}
