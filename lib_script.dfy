/**
 * The 2020 initialisation script (lib/st7735.c, INIT_ST7735B and
 * St7735Commands): a flat byte table
 *     count, { argc, delay, cmd, arg_1 .. arg_argc } * count
 * replayed as one command frame, argc single-byte data frames and `delay`
 * calls of the 1 ms busy-wait per entry.
 */
module LibScript {
  import opened Bus
  import opened LibDefs

  /** The arguments of one entry: at most 255 bytes, since their count is
      one table byte. */
  type Args = s: seq<uint8> | |s| < 0x100

  /** One entry of the script: command byte, argument bytes, delay in ms. */
  datatype Entry = Entry(cmd: uint8, args: Args, delay: uint8)

  datatype Option<T> = None | Some(value: T)

  const INIT_ST7735B: seq<uint8> := [
    5,
    0, 150, SWRESET,
    0, 200, SLPOUT,
    1, 10, COLMOD, 0x05,
    1, 0, MADCTL, 0xA0,
    0, 200, DISPON
  ]

  /** `n` entries read from `t` starting at `pos`, with the position just
      after them; None when the table ends before they do. */
  function ParseEntries(t: seq<uint8>, pos: nat, n: nat): Option<(seq<Entry>, nat)>
    decreases n
  {
    if n == 0 then Some(([], pos))
    else if |t| < pos + 3 then None
    else
      var argc, time, cmd := t[pos], t[pos + 1], t[pos + 2];
      if |t| < pos + 3 + argc then None
      else
        match ParseEntries(t, pos + 3 + argc, n - 1)
        case None => None
        case Some((rest, end)) =>
          Some(([Entry(cmd, t[pos + 3..pos + 3 + argc], time)] + rest, end))
  }

  /** One step of a successful parse: the entry at `pos` lies inside the
      table, and the remaining entries parse from just after it. */
  lemma ParseStep(t: seq<uint8>, pos: nat, n: nat, es: seq<Entry>, end: nat)
    requires n > 0 && ParseEntries(t, pos, n) == Some((es, end))
    ensures pos + 3 <= |t| && pos + 3 + t[pos] <= |t|
    ensures |es| > 0 && es[0] == Entry(t[pos + 2], t[pos + 3..pos + 3 + t[pos]], t[pos + 1])
    ensures ParseEntries(t, pos + 3 + t[pos], n - 1) == Some((es[1..], end))
  {
    var next := pos + 3 + t[pos];
    var rest := ParseEntries(t, next, n - 1).value.0;
    assert ([Entry(t[pos + 2], t[pos + 3..next], t[pos + 1])] + rest)[1..] == rest;
  }

  /** The entries of a table: a count byte, then that many entries. */
  function Parse(t: seq<uint8>): Option<seq<Entry>> {
    if t == [] then None
    else
      match ParseEntries(t, 1, t[0])
      case None => None
      case Some((es, _)) => Some(es)
  }

  /** St7735Commands reads only inside the table. */
  predicate WellFormed(t: seq<uint8>) {
    Parse(t).Some?
  }

  /** The events of one entry: the command, its arguments, then the delay. */
  function EntryEvents(e: Entry): seq<Event> {
    [Command(e.cmd)] + DataFrames(e.args) + Waits(e.delay)
  }

  /** The events of a sequence of entries, in table order. */
  function Replay(es: seq<Entry>): seq<Event> {
    if es == [] then [] else EntryEvents(es[0]) + Replay(es[1..])
  }

  /** What St7735Commands sends for a well-formed table. */
  function ScriptEvents(t: seq<uint8>): seq<Event>
    requires WellFormed(t)
  {
    Replay(Parse(t).value)
  }

  // ----- the encoding, as the inverse of Parse -----

  function EncodeEntries(es: seq<Entry>): seq<uint8>
  {
    if es == [] then []
    else [|es[0].args|, es[0].delay, es[0].cmd] + es[0].args + EncodeEntries(es[1..])
  }

  /** The table that lists `es`. */
  function Encode(es: seq<Entry>): seq<uint8>
    requires |es| < 0x100
  {
    [|es|] + EncodeEntries(es)
  }

  lemma {:induction false} ParseEncodedEntries(prefix: seq<uint8>, es: seq<Entry>, suffix: seq<uint8>)
    ensures ParseEntries(prefix + EncodeEntries(es) + suffix, |prefix|, |es|)
            == Some((es, |prefix| + |EncodeEntries(es)|))
    decreases |es|
  {
    var t := prefix + EncodeEntries(es) + suffix;
    if es != [] {
      var e, rest := es[0], es[1..];
      var p := |prefix|;
      var head: seq<uint8> := [|e.args|, e.delay, e.cmd] + e.args;
      var prefix' := prefix + head;
      var end := |prefix'| + |EncodeEntries(rest)|;
      assert EncodeEntries(es) == head + EncodeEntries(rest);
      assert end == p + |EncodeEntries(es)|;
      assert t == prefix' + EncodeEntries(rest) + suffix;
      assert t[p] == |e.args| && t[p + 1] == e.delay && t[p + 2] == e.cmd;
      assert t[p + 3..p + 3 + |e.args|] == e.args;
      ParseEncodedEntries(prefix', rest, suffix);
      ParseCons(t, p, |es|, e, rest, end);
      assert [e] + rest == es;
    }
  }

  /** Round trip: parsing the table built from `es` gives `es` back, and the
      whole table is consumed. */
  lemma ParseEncode(es: seq<Entry>)
    requires |es| < 0x100
    ensures Parse(Encode(es)) == Some(es)
    ensures ParseEntries(Encode(es), 1, |es|) == Some((es, |Encode(es)|))
  {
    ParseEncodedEntries([|es|], es, []);
    assert [|es|] + EncodeEntries(es) + [] == Encode(es);
  }

  // ----- what a replay sends -----

  function Cmds(es: seq<Entry>): seq<uint8> {
    if es == [] then [] else [es[0].cmd] + Cmds(es[1..])
  }

  function AllArgs(es: seq<Entry>): seq<uint8> {
    if es == [] then [] else es[0].args + AllArgs(es[1..])
  }

  function TotalDelay(es: seq<Entry>): nat {
    if es == [] then 0 else es[0].delay + TotalDelay(es[1..])
  }

  /** Replaying N entries sends exactly their N command bytes in table order,
      exactly their argument bytes as data, and waits exactly the sum of their
      delays (a delay of 0 waits nothing). */
  lemma {:induction false} ReplayReads(es: seq<Entry>)
    ensures Commands(Replay(es)) == Cmds(es)
    ensures DataBytes(Replay(es)) == AllArgs(es)
    ensures Waited(Replay(es)) == TotalDelay(es)
  {
    if es != [] {
      var e, rest := es[0], es[1..];
      assert Replay(es) == EntryEvents(e) + Replay(rest);
      EntryReads(e);
      ReadersAppend(EntryEvents(e), Replay(rest));
      ReplayReads(rest);
    }
  }

  /** One entry sends its command byte, its argument bytes as data, and
      waits its delay. */
  lemma EntryReads(e: Entry)
    ensures Commands(EntryEvents(e)) == [e.cmd]
    ensures DataBytes(EntryEvents(e)) == e.args
    ensures Waited(EntryEvents(e)) == e.delay
  {
    ReadersAppend([Command(e.cmd)] + DataFrames(e.args), Waits(e.delay));
    ReadCons(Command(e.cmd), DataFrames(e.args));
    ReadDataFrames(e.args);
    ReadWaits(e.delay);
  }

  /** The entries INIT_ST7735B lists. */
  const INIT_ENTRIES: seq<Entry> := [
    Entry(SWRESET, [], 150),
    Entry(SLPOUT, [], 200),
    Entry(COLMOD, [0x05], 10),
    Entry(MADCTL, [0xA0], 0),
    Entry(DISPON, [], 200)]

  /** The 2020 table holds five entries and is consumed exactly: the last
      entry ends at byte 18, the table's length. */
  lemma InitEntries()
    ensures ParseEntries(INIT_ST7735B, 1, 5) == Some((INIT_ENTRIES, 18))
  {
    InitEncoded();
    assert INIT_ST7735B == [5] + EncodeEntries(INIT_ENTRIES) + [];
    ParseEncodedEntries([5], INIT_ENTRIES, []);
  }

  /** The bytes after the count byte of INIT_ST7735B encode INIT_ENTRIES. */
  lemma InitEncoded()
    ensures EncodeEntries(INIT_ENTRIES) == INIT_ST7735B[1..]
  {
    var es := INIT_ENTRIES;
    assert EncodeEntries(es[4..]) == [0, 200, DISPON];
    assert EncodeEntries(es[3..]) == [1, 0, MADCTL, 0xA0] + EncodeEntries(es[4..]);
    assert EncodeEntries(es[2..]) == [1, 10, COLMOD, 0x05] + EncodeEntries(es[3..]);
    assert EncodeEntries(es[1..]) == [0, 200, SLPOUT] + EncodeEntries(es[2..]);
    assert EncodeEntries(es) == [0, 150, SWRESET] + EncodeEntries(es[1..]);
  }

  /** Reading one entry in front of entries that parse. */
  lemma ParseCons(t: seq<uint8>, pos: nat, n: nat, e: Entry, rest: seq<Entry>, end: nat)
    requires n > 0 && pos + 3 <= |t| && pos + 3 + t[pos] <= |t|
    requires e == Entry(t[pos + 2], t[pos + 3..pos + 3 + t[pos]], t[pos + 1])
    requires ParseEntries(t, pos + 3 + t[pos], n - 1) == Some((rest, end))
    ensures ParseEntries(t, pos, n) == Some(([e] + rest, end))
  {
  }

  lemma InitParse()
    ensures Parse(INIT_ST7735B) == Some(INIT_ENTRIES)
    ensures |INIT_ST7735B| == 18
  {
    InitEntries();
    assert INIT_ST7735B[0] == 5;
  }

  lemma InitEvents()
    ensures Replay(INIT_ENTRIES)
            == [Command(SWRESET)] + Waits(150)
             + [Command(SLPOUT)] + Waits(200)
             + [Command(COLMOD), Data(0x05)] + Waits(10)
             + [Command(MADCTL), Data(0xA0)]
             + [Command(DISPON)] + Waits(200)
  {
    var es := INIT_ENTRIES;
    assert DataFrames([]) == [] && Waits(0) == [];
    assert DataFrames([0x05]) == [Data(0x05)];
    assert DataFrames([0xA0]) == [Data(0xA0)];
    assert Replay(es[4..]) == [Command(DISPON)] + Waits(200);
    assert Replay(es[3..]) == [Command(MADCTL), Data(0xA0)] + Replay(es[4..]);
    assert Replay(es[2..]) == [Command(COLMOD), Data(0x05)] + Waits(10) + Replay(es[3..]);
    assert Replay(es[1..]) == [Command(SLPOUT)] + Waits(200) + Replay(es[2..]);
  }

  lemma InitCmds()
    ensures Cmds(INIT_ENTRIES) == [SWRESET, SLPOUT, COLMOD, MADCTL, DISPON]
  {
    var es := INIT_ENTRIES;
    assert Cmds(es[4..]) == [DISPON];
    assert Cmds(es[3..]) == [MADCTL] + Cmds(es[4..]);
    assert Cmds(es[2..]) == [COLMOD] + Cmds(es[3..]);
    assert Cmds(es[1..]) == [SLPOUT] + Cmds(es[2..]);
  }

  lemma InitArgs()
    ensures AllArgs(INIT_ENTRIES) == [0x05, 0xA0]
  {
    var es := INIT_ENTRIES;
    assert AllArgs(es[4..]) == [];
    assert AllArgs(es[3..]) == [0xA0];
    assert AllArgs(es[2..]) == [0x05] + AllArgs(es[3..]);
    assert AllArgs(es[1..]) == AllArgs(es[2..]);
  }

  lemma InitDelay()
    ensures TotalDelay(INIT_ENTRIES) == 560
  {
    var es := INIT_ENTRIES;
    assert TotalDelay(es[4..]) == 200;
    assert TotalDelay(es[3..]) == 200;
    assert TotalDelay(es[2..]) == 210;
    assert TotalDelay(es[1..]) == 410;
  }

  /** Replaying the 2020 table sends SWRESET, SLPOUT, COLMOD with data 0x05,
      MADCTL with data 0xA0 and DISPON, in that order, waiting 150, 200, 10, 0
      and 200 ms after them (the events themselves are listed by InitEvents). */
  lemma InitReplay()
    ensures WellFormed(INIT_ST7735B)
    ensures ScriptEvents(INIT_ST7735B) == Replay(INIT_ENTRIES)
    ensures Commands(ScriptEvents(INIT_ST7735B)) == [SWRESET, SLPOUT, COLMOD, MADCTL, DISPON]
    ensures DataBytes(ScriptEvents(INIT_ST7735B)) == [0x05, 0xA0]
    ensures Waited(ScriptEvents(INIT_ST7735B)) == 560
  {
    InitParse();
    ReplayReads(INIT_ENTRIES);
    InitCmds();
    InitArgs();
    InitDelay();
  }
}
