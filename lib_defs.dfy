/**
 * Constants of the 2020 generation's header (lib/st7735.h): command codes,
 * return codes, the panel geometry and the font-size encoding.
 */
module LibDefs {
  import opened Bus

  // Command codes sent with DC low.
  const SWRESET: uint8 := 0x01
  const SLPOUT: uint8 := 0x11
  const PTLON: uint8 := 0x12
  const DISPON: uint8 := 0x29
  const CASET: uint8 := 0x2A
  const RASET: uint8 := 0x2B
  const RAMWR: uint8 := 0x2C
  const PTLAR: uint8 := 0x30
  const MADCTL: uint8 := 0x36
  const COLMOD: uint8 := 0x3A

  const ST7735_SUCCESS: uint8 := 0
  const ST7735_ERROR: uint8 := 1

  // Panel geometry. SIZE_X and SIZE_Y are the largest end coordinates of a window.
  const MAX_X: int := 161
  const MAX_Y: int := 130
  const SIZE_X: int := MAX_X - 1
  const SIZE_Y: int := MAX_Y - 1
  const CACHE_SIZE_MEM: int := MAX_X * MAX_Y
  const CHARS_COLS_LEN: int := 5
  const CHARS_ROWS_LEN: int := 8

  /** The three font sizes of the ESizes enum. */
  datatype ESizes = X1 | X2 | X3 {
    /** The enumerator's value. */
    function Code(): uint8 {
      match this
      case X1 => 0x00
      case X2 => 0x80
      case X3 => 0x81
    }
    /** `size & 0x0F`: what DrawString adds to the glyph width. */
    function ExtraWidth(): int {
      Code() % 0x10
    }
    /** `size >> 4`: what DrawString adds to the glyph height. */
    function ExtraHeight(): int {
      Code() / 0x10
    }
  }

  /** The return codes can be told apart. */
  lemma ReturnCodesDistinct()
    ensures ST7735_SUCCESS != ST7735_ERROR
  {
  }

  /** The command bytes that start the frames of windows, streams and partial
      areas are pairwise distinct, so such frames can be told apart in a trace. */
  lemma CommandCodesDistinct()
    ensures |{PTLON, CASET, RASET, RAMWR, PTLAR}| == 5
  {
  }

  /** Panel geometry: the window bounds and the size of the pixel memory. */
  lemma Geometry()
    ensures SIZE_X == 160 && SIZE_Y == 129
    ensures CACHE_SIZE_MEM == 20930 == (SIZE_X + 1) * (SIZE_Y + 1)
    ensures CACHE_SIZE_MEM < 0x1_0000
    ensures CHARS_COLS_LEN == 5 && CHARS_ROWS_LEN == 8
  {
  }

  /** What DrawString adds to a glyph's footprint at each size. */
  lemma SizeExtras()
    ensures X1.ExtraWidth() == 0 && X1.ExtraHeight() == 0
    ensures X2.ExtraWidth() == 0 && X2.ExtraHeight() == 8
    ensures X3.ExtraWidth() == 1 && X3.ExtraHeight() == 8
  {
  }
}
