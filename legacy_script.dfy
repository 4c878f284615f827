/**
 * The 2016 initialisation script (st7735.c, INIT_ST7735B, St7735Commands
 * and DelayMs): a flat byte table
 *     count, { cmd, argc | DELAY?, arg_1 .. arg_argc, [delay] } * count
 * in which bit 7 of the count byte says whether a delay byte follows the
 * arguments. Each entry is replayed as one command frame, argc single-byte
 * data frames and, when flagged, the busy-waits of DelayMs(delay), where a
 * delay byte of 255 stands for 500 ms.
 *
 * The table is read front to back, so the parser works on what is left of
 * it: reading an entry returns the entry and the bytes after it.
 */
module LegacyScript {
  import opened Bus
  import opened LegacyDefs

  /** The arguments of one entry: fewer than 128 bytes, since their count
      is what is left of a table byte once the DELAY flag is masked off. */
  type Args = s: seq<uint8> | |s| < 0x80

  datatype Option<T> = None | Some(value: T)

  /** One entry of the script: command byte, argument bytes, and the delay
      byte when the entry's count byte carries the DELAY flag. */
  datatype Entry = Entry(cmd: uint8, args: Args, delay: Option<uint8>)

  /** How many table bytes an entry with count byte `b` occupies: command
      and count byte, the arguments, and the delay byte if flagged. */
  function EntryLength(b: uint8): nat {
    2 + ArgCount(b) + (if Delayed(b) then 1 else 0)
  }

  /** The entry at the front of `t`, with the bytes after it; None when the
      table ends before the entry does. */
  function ParseEntry(t: seq<uint8>): Option<(Entry, seq<uint8>)> {
    if |t| < 2 || |t| < EntryLength(t[1]) then None
    else
      var b := t[1];
      var argc := ArgCount(b);
      var delay := if Delayed(b) then Some(t[2 + argc]) else None;
      Some((Entry(t[0], t[2..2 + argc], delay), t[EntryLength(b)..]))
  }

  /** `n` entries read from the front of `t`, with the bytes after them;
      None when the table ends first. */
  function ParseEntries(t: seq<uint8>, n: nat): Option<(seq<Entry>, seq<uint8>)>
    decreases n
  {
    if n == 0 then Some(([], t))
    else
      match ParseEntry(t)
      case None => None
      case Some((e, after)) =>
        match ParseEntries(after, n - 1)
        case None => None
        case Some((rest, left)) => Some(([e] + rest, left))
  }

  /** A successful read of one entry: it lies inside the table, has a delay
      exactly when its count byte carries the flag, and is followed by
      everything after its arguments and that delay byte. */
  lemma EntryRead(t: seq<uint8>)
    requires ParseEntry(t).Some?
    ensures 2 <= EntryLength(t[1]) <= |t|
    ensures var (e, after) := ParseEntry(t).value;
      var argc := ArgCount(t[1]);
      && after == t[EntryLength(t[1])..]
      && e.cmd == t[0] && e.args == t[2..2 + argc]
      && (e.delay.Some? <==> Delayed(t[1]))
      && (e.delay.Some? ==> e.delay.value == t[2 + argc])
  {
  }

  /** One step of a successful parse: the first entry is the one read at
      the front and the others parse from the bytes after it. */
  lemma ParseStep(t: seq<uint8>, n: nat, es: seq<Entry>, left: seq<uint8>)
    requires n > 0 && ParseEntries(t, n) == Some((es, left))
    ensures ParseEntry(t).Some? && |es| > 0 && ParseEntry(t).value.0 == es[0]
    ensures ParseEntries(ParseEntry(t).value.1, n - 1) == Some((es[1..], left))
  {
    var rest := ParseEntries(ParseEntry(t).value.1, n - 1).value.0;
    assert es == [es[0]] + rest;
  }

  /** Reading one entry in front of entries that parse. */
  lemma ParseCons(t: seq<uint8>, es: seq<Entry>, after: seq<uint8>, left: seq<uint8>)
    requires es != [] && ParseEntry(t) == Some((es[0], after))
    requires ParseEntries(after, |es| - 1) == Some((es[1..], left))
    ensures ParseEntries(t, |es|) == Some((es, left))
  {
    assert [es[0]] + es[1..] == es;
  }

  /** The entries of a table: a count byte, then that many entries. */
  function Parse(t: seq<uint8>): Option<seq<Entry>> {
    if t == [] then None
    else
      match ParseEntries(t[1..], t[0])
      case None => None
      case Some((es, _)) => Some(es)
  }

  /** St7735Commands reads only inside the table. */
  predicate WellFormed(t: seq<uint8>) {
    Parse(t).Some?
  }

  /** The milliseconds DelayMs(time) waits: 255 stands for 500. */
  function RealTime(time: uint8): nat {
    if time == 255 then 500 else time
  }

  /** What DelayMs(time) sends: one 1 ms busy-wait per millisecond. */
  function DelayEvents(time: uint8): seq<Event> {
    Waits(RealTime(time))
  }

  /** DelayMs waits 500 ms for 255 and `time` ms for every other value,
      and sends nothing on the bus. */
  lemma DelayTimes(time: uint8)
    ensures Waited(DelayEvents(time)) == (if time == 255 then 500 else time)
    ensures Commands(DelayEvents(time)) == [] && DataBytes(DelayEvents(time)) == []
    ensures time == 0 <==> DelayEvents(time) == []
  {
    ReadWaits(RealTime(time));
  }

  /** The events of one entry: the command, its arguments, then the delay
      when there is one. */
  function EntryEvents(e: Entry): seq<Event> {
    [Command(e.cmd)] + DataFrames(e.args) + (if e.delay.Some? then DelayEvents(e.delay.value) else [])
  }

  /** The events of a sequence of entries, in table order. */
  function Replay(es: seq<Entry>): seq<Event> {
    if es == [] then [] else EntryEvents(es[0]) + Replay(es[1..])
  }

  /** What St7735Commands sends for a well-formed table. */
  function ScriptEvents(t: seq<uint8>): seq<Event>
    requires WellFormed(t)
  {
    Replay(Parse(t).value)
  }

  // ----- the encoding, as the inverse of Parse -----

  /** The bytes of one entry: command, count byte with the flag when there
      is a delay, arguments, delay byte. */
  function EntryBytes(e: Entry): seq<uint8> {
    if e.delay.Some? then [e.cmd, |e.args| + DELAY] + e.args + [e.delay.value]
    else [e.cmd, |e.args|] + e.args
  }

  /** The bytes of `es` in front of `tail`. */
  function EncodeOnto(es: seq<Entry>, tail: seq<uint8>): seq<uint8> {
    if es == [] then tail else EntryBytes(es[0]) + EncodeOnto(es[1..], tail)
  }

  /** The table that lists `es`. */
  function Encode(es: seq<Entry>): seq<uint8>
    requires |es| < 0x100
  {
    [|es|] + EncodeOnto(es, [])
  }

  /** The bytes of an entry are read back as that entry. */
  lemma EntryAt(e: Entry, tail: seq<uint8>)
    ensures ParseEntry(EntryBytes(e) + tail) == Some((e, tail))
  {
    var t := EntryBytes(e) + tail;
    var argc := |e.args|;
    assert t[1] == if e.delay.Some? then argc + DELAY else argc;
    assert ArgCount(t[1]) == argc;
    assert EntryLength(t[1]) == |EntryBytes(e)|;
    assert t[2..2 + argc] == e.args;
    assert t[|EntryBytes(e)|..] == tail;
  }

  /** An entry's bytes in front of entries that read back: the whole reads
      back with that entry first. */
  // Proof helper for ParseEncodedEntries.
  lemma EntryBytesCons(t: seq<uint8>, es: seq<Entry>, after: seq<uint8>, tail: seq<uint8>)
    requires es != [] && t == EntryBytes(es[0]) + after
    requires ParseEntries(after, |es| - 1) == Some((es[1..], tail))
    ensures ParseEntries(t, |es|) == Some((es, tail))
  {
    EntryAt(es[0], after);
    ParseCons(t, es, after, tail);
  }

  /** Entries written in front of any bytes read back as those entries,
      leaving those bytes. */
  lemma {:induction false} ParseEncodedEntries(es: seq<Entry>, tail: seq<uint8>)
    ensures ParseEntries(EncodeOnto(es, tail), |es|) == Some((es, tail))
    decreases |es|
  {
    if es != [] {
      ParseEncodedEntries(es[1..], tail);
      EntryBytesCons(EncodeOnto(es, tail), es, EncodeOnto(es[1..], tail), tail);
    }
  }

  /** Round trip: parsing the table built from `es` gives `es` back, and
      reading its entries uses up the whole table. */
  lemma ParseEncode(es: seq<Entry>)
    requires |es| < 0x100
    ensures Parse(Encode(es)) == Some(es)
    ensures ParseEntries(Encode(es)[1..], |es|) == Some((es, []))
  {
    assert Encode(es)[1..] == EncodeOnto(es, []);
    ParseEncodedEntries(es, []);
  }

  // ----- what a replay sends -----

  function Cmds(es: seq<Entry>): seq<uint8> {
    if es == [] then [] else [es[0].cmd] + Cmds(es[1..])
  }

  function AllArgs(es: seq<Entry>): seq<uint8> {
    if es == [] then [] else es[0].args + AllArgs(es[1..])
  }

  /** The milliseconds an entry waits. */
  function EntryDelay(e: Entry): nat {
    if e.delay.Some? then RealTime(e.delay.value) else 0
  }

  function TotalDelay(es: seq<Entry>): nat {
    if es == [] then 0 else EntryDelay(es[0]) + TotalDelay(es[1..])
  }

  /** Replaying N entries sends exactly their N command bytes in table order,
      exactly their argument bytes as data, and waits exactly the sum of
      their delays, with 255 counted as 500. */
  lemma {:induction false} ReplayReads(es: seq<Entry>)
    ensures Commands(Replay(es)) == Cmds(es)
    ensures DataBytes(Replay(es)) == AllArgs(es)
    ensures Waited(Replay(es)) == TotalDelay(es)
  {
    if es != [] {
      var e, rest := es[0], es[1..];
      assert Replay(es) == EntryEvents(e) + Replay(rest);
      EntryReads(e);
      ReadersAppend(EntryEvents(e), Replay(rest));
      ReplayReads(rest);
    }
  }

  /** One entry sends its command byte, its argument bytes as data, and
      waits its delay. */
  lemma EntryReads(e: Entry)
    ensures Commands(EntryEvents(e)) == [e.cmd]
    ensures DataBytes(EntryEvents(e)) == e.args
    ensures Waited(EntryEvents(e)) == EntryDelay(e)
  {
    var wait := if e.delay.Some? then DelayEvents(e.delay.value) else [];
    ReadersAppend([Command(e.cmd)] + DataFrames(e.args), wait);
    ReadCons(Command(e.cmd), DataFrames(e.args));
    ReadDataFrames(e.args);
    if e.delay.Some? {
      DelayTimes(e.delay.value);
    }
  }

  // ----- the table of the source -----

  /** The sixteen arguments of GMCTRP1 (positive gamma correction). */
  const GAMMA_POSITIVE: seq<uint8> := [
    0x09, 0x16, 0x09, 0x20, 0x21, 0x1B, 0x13, 0x19,
    0x17, 0x15, 0x1E, 0x2B, 0x04, 0x05, 0x02, 0x0E]

  /** The sixteen arguments of GMCTRN1 (negative gamma correction). */
  const GAMMA_NEGATIVE: seq<uint8> := [
    0x0B, 0x14, 0x08, 0x1E, 0x22, 0x1D, 0x18, 0x1E,
    0x1B, 0x1A, 0x24, 0x2B, 0x06, 0x06, 0x02, 0x0F]

  /** The entries of INIT_ST7735B, one block of bytes per entry. */
  const INIT_BLOCKS: seq<seq<uint8>> := [
    [SWRESET, DELAY, 150],
    [SLPOUT, DELAY, 255],
    [COLMOD, 1 + DELAY, 0x05, 10],
    [FRMCTR1, 3 + DELAY, 0x00, 0x06, 0x03, 10],
    [INVOFF, DELAY, 10],
    [MADCTL, 1, 0x00],
    [DISSET5, 2, 0x15, 0x02],
    [INVCTR, 1, 0x0],
    [GMCTRP1, 16] + GAMMA_POSITIVE,
    [GMCTRN1, 16 + DELAY] + GAMMA_NEGATIVE + [10],
    [NORON, DELAY, 10],
    [DISPON, DELAY, 255]]

  /** Blocks laid end to end. */
  function Flatten(bs: seq<seq<uint8>>): seq<uint8> {
    if bs == [] then [] else bs[0] + Flatten(bs[1..])
  }

  /** The 2016 initialisation table: the count byte, then the blocks. */
  const INIT_ST7735B: seq<uint8> := [12] + Flatten(INIT_BLOCKS)

  /** The entries INIT_ST7735B lists. */
  const INIT_ENTRIES: seq<Entry> := [
    Entry(SWRESET, [], Some(150)),
    Entry(SLPOUT, [], Some(255)),
    Entry(COLMOD, [0x05], Some(10)),
    Entry(FRMCTR1, [0x00, 0x06, 0x03], Some(10)),
    Entry(INVOFF, [], Some(10)),
    Entry(MADCTL, [0x00], None),
    Entry(DISSET5, [0x15, 0x02], None),
    Entry(INVCTR, [0x0], None),
    Entry(GMCTRP1, GAMMA_POSITIVE, None),
    Entry(GMCTRN1, GAMMA_NEGATIVE, Some(10)),
    Entry(NORON, [], Some(10)),
    Entry(DISPON, [], Some(255))]

  /** Entries whose blocks are given encode to those blocks laid end to end. */
  // Proof helper for InitEncoded.
  lemma {:induction false} EncodeBlocks(es: seq<Entry>, bs: seq<seq<uint8>>)
    requires |es| == |bs| && forall k | 0 <= k < |es| :: EntryBytes(es[k]) == bs[k]
    ensures EncodeOnto(es, []) == Flatten(bs)
    decreases |es|
  {
    if es != [] {
      EncodeBlocks(es[1..], bs[1..]);
    }
  }

  /** The first six blocks of the table are the bytes of the first six entries. */
  // Proof helper for InitEncoded.
  lemma InitBlocksFront()
    ensures forall k | 0 <= k < 6 :: EntryBytes(INIT_ENTRIES[k]) == INIT_BLOCKS[k]
  {
  }

  /** The last six blocks of the table are the bytes of the last six entries. */
  // Proof helper for InitEncoded.
  lemma InitBlocksBack()
    ensures forall k | 6 <= k < 12 :: EntryBytes(INIT_ENTRIES[k]) == INIT_BLOCKS[k]
  {
  }

  /** INIT_ST7735B is the encoding of INIT_ENTRIES. */
  lemma InitEncoded()
    ensures Encode(INIT_ENTRIES) == INIT_ST7735B
  {
    InitBlocksFront();
    InitBlocksBack();
    EncodeBlocks(INIT_ENTRIES, INIT_BLOCKS);
  }

  /** The blocks from `k` on: block `k`, then the rest. */
  // Proof helper for InitEncoded.
  lemma FlattenFrom(bs: seq<seq<uint8>>, k: nat)
    requires k < |bs|
    ensures Flatten(bs[k..]) == bs[k] + Flatten(bs[k + 1..])
  {
    assert bs[k..][1..] == bs[k + 1..];
  }

  /** INIT_ST7735B parses as INIT_ENTRIES, and its twelve entries use up
      all 73 bytes of the table. */
  lemma InitParse()
    ensures |INIT_ST7735B| == 73
    ensures Parse(INIT_ST7735B) == Some(INIT_ENTRIES)
    ensures ParseEntries(INIT_ST7735B[1..], 12) == Some((INIT_ENTRIES, []))
  {
    InitEncoded();
    ParseEncode(INIT_ENTRIES);
    var bs := INIT_BLOCKS;
    assert |Flatten(bs[12..])| == 0;
    FlattenFrom(bs, 11); FlattenFrom(bs, 10); FlattenFrom(bs, 9); FlattenFrom(bs, 8);
    FlattenFrom(bs, 7); FlattenFrom(bs, 6); FlattenFrom(bs, 5); FlattenFrom(bs, 4);
    FlattenFrom(bs, 3); FlattenFrom(bs, 2); FlattenFrom(bs, 1); FlattenFrom(bs, 0);
    assert bs[0..] == bs;
  }

  // Proof helper for InitCmds.
  lemma CmdsFrom(es: seq<Entry>, k: nat)
    requires k < |es|
    ensures Cmds(es[k..]) == [es[k].cmd] + Cmds(es[k + 1..])
  {
    assert es[k..][1..] == es[k + 1..];
  }

  // Proof helper for InitArgsFront and InitArgsBack.
  lemma ArgsFrom(es: seq<Entry>, k: nat)
    requires k < |es|
    ensures AllArgs(es[k..]) == es[k].args + AllArgs(es[k + 1..])
  {
    assert es[k..][1..] == es[k + 1..];
  }

  // Proof helper for InitDelayFront and InitDelayBack.
  lemma DelayFrom(es: seq<Entry>, k: nat)
    requires k < |es|
    ensures TotalDelay(es[k..]) == EntryDelay(es[k]) + TotalDelay(es[k + 1..])
  {
    assert es[k..][1..] == es[k + 1..];
  }

  /** Command `i` of a replay is the command of entry `i`. */
  // Proof helper for InitCmds.
  lemma {:induction false} CmdsIndex(es: seq<Entry>)
    ensures |Cmds(es)| == |es|
    ensures forall i | 0 <= i < |es| :: Cmds(es)[i] == es[i].cmd
  {
    if es != [] {
      CmdsIndex(es[1..]);
    }
  }

  /** The table sends its twelve commands in this order. */
  lemma InitCmds()
    ensures Cmds(INIT_ENTRIES)
            == [SWRESET, SLPOUT, COLMOD, FRMCTR1, INVOFF, MADCTL,
                DISSET5, INVCTR, GMCTRP1, GMCTRN1, NORON, DISPON]
  {
    CmdsIndex(INIT_ENTRIES);
  }

  /** The arguments and delays of entries split at `k`: those of the first
      `k`, then those of the rest. */
  // Proof helper for InitArgsDelay.
  lemma {:induction false} ReadsSplit(es: seq<Entry>, k: nat)
    requires k <= |es|
    ensures AllArgs(es) == AllArgs(es[..k]) + AllArgs(es[k..])
    ensures TotalDelay(es) == TotalDelay(es[..k]) + TotalDelay(es[k..])
    decreases k
  {
    if k > 0 {
      ReadsSplit(es[1..], k - 1);
      assert es[1..][..k - 1] == es[..k][1..];
      assert es[1..][k - 1..] == es[k..];
    } else {
      assert es[..0] == [] && es[0..] == es;
    }
  }

  /** The first six entries send these arguments. */
  // Proof helper for InitArgsDelay.
  lemma InitArgsFront()
    ensures AllArgs(INIT_ENTRIES[..6]) == [0x05, 0x00, 0x06, 0x03, 0x00]
  {
    var es := INIT_ENTRIES[..6];
    assert AllArgs(es[6..]) == [];
    ArgsFrom(es, 5); ArgsFrom(es, 4); ArgsFrom(es, 3);
    ArgsFrom(es, 2); ArgsFrom(es, 1); ArgsFrom(es, 0);
    assert es[0..] == es;
  }

  /** The first six entries wait 680 ms. */
  // Proof helper for InitArgsDelay.
  lemma InitDelayFront()
    ensures TotalDelay(INIT_ENTRIES[..6]) == 680
  {
    var es := INIT_ENTRIES[..6];
    assert TotalDelay(es[6..]) == 0;
    DelayFrom(es, 5); DelayFrom(es, 4); DelayFrom(es, 3);
    DelayFrom(es, 2); DelayFrom(es, 1); DelayFrom(es, 0);
    assert es[0..] == es;
  }

  /** The last six entries send these arguments. */
  // Proof helper for InitArgsDelay.
  lemma InitArgsBack()
    ensures AllArgs(INIT_ENTRIES[6..]) == [0x15, 0x02, 0x0] + GAMMA_POSITIVE + GAMMA_NEGATIVE
  {
    var es := INIT_ENTRIES;
    assert AllArgs(es[12..]) == [];
    ArgsFrom(es, 11); ArgsFrom(es, 10); ArgsFrom(es, 9);
    ArgsFrom(es, 8); ArgsFrom(es, 7); ArgsFrom(es, 6);
  }

  /** The last six entries wait 520 ms. */
  // Proof helper for InitArgsDelay.
  lemma InitDelayBack()
    ensures TotalDelay(INIT_ENTRIES[6..]) == 520
  {
    var es := INIT_ENTRIES;
    assert TotalDelay(es[12..]) == 0;
    DelayFrom(es, 11); DelayFrom(es, 10); DelayFrom(es, 9);
    DelayFrom(es, 8); DelayFrom(es, 7); DelayFrom(es, 6);
  }

  /** The table sends 40 argument bytes, those of the first six entries then
      those of the last six, and waits 1200 ms: 150 + 500 + 10 + 10 + 10 +
      10 + 10 + 500, the two delay bytes of 255 counting 500 ms each. */
  lemma InitArgsDelay()
    ensures AllArgs(INIT_ENTRIES)
            == [0x05, 0x00, 0x06, 0x03, 0x00] + ([0x15, 0x02, 0x0] + GAMMA_POSITIVE + GAMMA_NEGATIVE)
    ensures |AllArgs(INIT_ENTRIES)| == 40
    ensures TotalDelay(INIT_ENTRIES) == 1200
  {
    ReadsSplit(INIT_ENTRIES, 6);
    InitArgsFront();
    InitArgsBack();
    InitDelayFront();
    InitDelayBack();
  }

  /** What St7735Commands sends for INIT_ST7735B: its twelve commands in
      order, its 40 argument bytes as data, and 1200 ms of busy-waits. */
  lemma InitReplay()
    ensures WellFormed(INIT_ST7735B)
    ensures ScriptEvents(INIT_ST7735B) == Replay(INIT_ENTRIES)
    ensures Commands(ScriptEvents(INIT_ST7735B))
            == [SWRESET, SLPOUT, COLMOD, FRMCTR1, INVOFF, MADCTL,
                DISSET5, INVCTR, GMCTRP1, GMCTRN1, NORON, DISPON]
    ensures |DataBytes(ScriptEvents(INIT_ST7735B))| == 40
    ensures Waited(ScriptEvents(INIT_ST7735B)) == 1200
  {
    InitParse();
    ReplayReads(INIT_ENTRIES);
    InitCmds();
    InitArgsDelay();
  }
}
