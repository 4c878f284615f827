/**
 * Constants of the 2016 generation's header (st7735.h): command codes, the
 * DELAY flag of the initialisation table, the panel geometry and the
 * command/data selector of CmdOrDataSend.
 */
module LegacyDefs {
  import opened Bus

  /** Bit 7 of an argument-count byte: a delay byte follows the arguments. */
  const DELAY: uint8 := 0x80

  // Command codes sent with DC low.
  const SWRESET: uint8 := 0x01
  const SLPOUT: uint8 := 0x11
  const NORON: uint8 := 0x13
  const INVOFF: uint8 := 0x20
  const DISPON: uint8 := 0x29
  const CASET: uint8 := 0x2A
  const RASET: uint8 := 0x2B
  const RAMWR: uint8 := 0x2C
  const MADCTL: uint8 := 0x36
  const COLMOD: uint8 := 0x3A
  const FRMCTR1: uint8 := 0xB1
  const INVCTR: uint8 := 0xB4
  const DISSET5: uint8 := 0xB6
  const GMCTRP1: uint8 := 0xE0
  const GMCTRN1: uint8 := 0xE1

  // Panel geometry. SIZE_X and SIZE_Y are the largest end coordinates of a window.
  const MAX_X: int := 132
  const MAX_Y: int := 162
  const SIZE_X: int := MAX_X - 1
  const SIZE_Y: int := MAX_Y - 1
  const CACHE_SIZE_MEM: int := MAX_X * MAX_Y

  /** The enumCmdOrData selector of CmdOrDataSend. */
  datatype CmdOrData = COMMAND | DATA {
    /** The enumerator's value. */
    function Code(): uint8 {
      if this == DATA then 1 else 0
    }
    /** The level CmdOrDataSend drives on the DC line: high for DATA. */
    function Level(): bool {
      this == DATA
    }
  }

  /** COMMAND = 0 drives DC low and DATA = 1 drives it high. */
  lemma SelectorLevels()
    ensures COMMAND.Code() == 0 && !COMMAND.Level()
    ensures DATA.Code() == 1 && DATA.Level()
  {
  }

  /** The window and stream command bytes are pairwise distinct. */
  lemma WindowCommandsDistinct()
    ensures |{CASET, RASET, RAMWR}| == 3
  {
  }

  /** Panel geometry: the window bounds and the size of the pixel memory,
      which fits the 16-bit count of SendColor565. */
  lemma Geometry()
    ensures SIZE_X == 131 && SIZE_Y == 161
    ensures CACHE_SIZE_MEM == 21384 == (SIZE_X + 1) * (SIZE_Y + 1)
    ensures CACHE_SIZE_MEM < 0x1_0000
  {
  }

  /** `numOfArguments & DELAY`: whether the delay flag is set. */
  predicate Delayed(b: uint8) {
    b >= DELAY
  }

  /** `numOfArguments & ~DELAY`: the argument count with the flag cleared. */
  function ArgCount(b: uint8): (n: uint8)
    ensures n < DELAY
  {
    if b >= DELAY then b - DELAY else b
  }

  /** A count below the flag (the table uses 0, 1, 2, 3 and 16) survives
      the flag being added and masked off again. */
  lemma DelayFlag(argc: uint8)
    requires argc < DELAY
    ensures !Delayed(argc) && ArgCount(argc) == argc
    ensures Delayed(argc + DELAY) && ArgCount(argc + DELAY) == argc
  {
  }

  /** Delayed and ArgCount are the masks `& DELAY` and `& ~DELAY` of the
      source, on every byte. */
  lemma MaskBits(b: uint8)
    ensures Delayed(b) <==> (b as bv8) & 0x80 != 0
    ensures ArgCount(b) == ((b as bv8) & 0x7F) as int
  {
    var v := b as bv8;
    if b < 0x80 {
      assert v < 0x80;
      assert v & 0x80 == 0 && v & 0x7F == v;
    } else {
      assert v >= 0x80 && (v - 0x80) as int == b - 0x80;
      assert v & 0x80 != 0 && v & 0x7F == v - 0x80;
    }
  }
}
