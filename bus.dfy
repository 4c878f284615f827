/**
 * The SPI bus as both driver generations see it, with the GPIO and SPI
 * registers left aside: every driver call is observed as the events it
 * appends to an append-only trace.
 *
 * A chip-select frame is the run of bytes written to the data register
 * while chip-select is held low, tagged with the level of the data/command
 * (DC) line: low (false) for a command byte, high (true) for data.
 * One call of the 1 ms busy-wait `_delay_ms(1)` is one `Delay(1)` event.
 */
module Bus {

  type uint8 = x: int | 0 <= x < 0x100
  type uint16 = x: int | 0 <= x < 0x1_0000

  datatype Event = Frame(dc: bool, bytes: seq<uint8>) | Delay(ms: nat)

  /** The two arguments of DrawPixel, both uint8_t in either generation. */
  datatype Point = Point(x: uint8, y: uint8)

  /** A one-byte frame with DC low. */
  function Command(b: uint8): Event {
    Frame(false, [b])
  }

  /** A one-byte frame with DC high. */
  function Data(b: uint8): Event {
    Frame(true, [b])
  }

  /** One single-byte data frame per byte of `args`, in order. */
  function DataFrames(args: seq<uint8>): seq<Event>
  {
    seq(|args|, k requires 0 <= k < |args| => Data(args[k]))
  }

  /** `n` calls of the 1 ms busy-wait. */
  function Waits(n: nat): seq<Event>
  {
    seq(n, _ => Delay(1))
  }

  /** Appending to a trace piece by piece is appending the pieces at once. */
  // Proof helper for the driver loops that append a trace piece by piece.
  lemma AppendAssoc(a: seq<Event>, b: seq<Event>, c: seq<Event>)
    ensures a + (b + c) == a + b + c
  {
  }

  /** Moving the first of three pieces still to come onto the trace. */
  // Proof helper for the driver loops that append a trace piece by piece.
  lemma AppendShift(a: seq<Event>, c: seq<Event>, b: seq<Event>, r: seq<Event>)
    ensures a + ((c + b) + r) == (a + c) + (b + r)
  {
  }

  /** Sending the byte after a slice appends one more data frame. */
  // Proof helper for the argument loops of SendArguments.
  lemma DataFramesExtend(s: seq<uint8>, i: nat, j: nat)
    requires i <= j < |s|
    ensures DataFrames(s[i..j + 1]) == DataFrames(s[i..j]) + [Data(s[j])]
  {
    assert s[i..j + 1] == s[i..j] + [s[j]];
  }

  /** The bytes of a command frame; nothing for any other event. */
  function CommandPart(e: Event): seq<uint8> {
    if e.Frame? && !e.dc then e.bytes else []
  }

  /** The bytes of a data frame; nothing for any other event. */
  function DataPart(e: Event): seq<uint8> {
    if e.Frame? && e.dc then e.bytes else []
  }

  /** The milliseconds of a busy-wait; nothing for a frame. */
  function WaitPart(e: Event): nat {
    if e.Delay? then e.ms else 0
  }

  /** The command bytes of a trace, in the order they were sent. */
  function Commands(t: seq<Event>): seq<uint8> {
    if t == [] then [] else CommandPart(t[0]) + Commands(t[1..])
  }

  /** The data bytes of a trace, in the order they were sent. */
  function DataBytes(t: seq<Event>): seq<uint8> {
    if t == [] then [] else DataPart(t[0]) + DataBytes(t[1..])
  }

  /** Milliseconds spent in busy-waits along a trace. */
  function Waited(t: seq<Event>): nat {
    if t == [] then 0 else WaitPart(t[0]) + Waited(t[1..])
  }

  /** Reading a trace piecewise: the three readers distribute over concatenation. */
  lemma {:induction false} ReadersAppend(a: seq<Event>, b: seq<Event>)
    ensures Commands(a + b) == Commands(a) + Commands(b)
    ensures DataBytes(a + b) == DataBytes(a) + DataBytes(b)
    ensures Waited(a + b) == Waited(a) + Waited(b)
  {
    if a == [] {
      assert a + b == b;
    } else {
      var e, rest := a[0], a[1..];
      assert a == [e] + rest;
      assert a + b == [e] + (rest + b);
      ReadCons(e, rest);
      ReadCons(e, rest + b);
      ReadersAppend(rest, b);
    }
  }

  /** Reading a trace one event at a time. */
  // Proof helper for ReadersAppend.
  lemma ReadCons(e: Event, t: seq<Event>)
    ensures Commands([e] + t) == CommandPart(e) + Commands(t)
    ensures DataBytes([e] + t) == DataPart(e) + DataBytes(t)
    ensures Waited([e] + t) == WaitPart(e) + Waited(t)
  {
    assert ([e] + t)[0] == e;
    assert ([e] + t)[1..] == t;
  }

  /** Data frames carry their bytes and nothing else. */
  lemma {:induction false} ReadDataFrames(args: seq<uint8>)
    ensures Commands(DataFrames(args)) == []
    ensures DataBytes(DataFrames(args)) == args
    ensures Waited(DataFrames(args)) == 0
  {
    if args != [] {
      assert DataFrames(args)[1..] == DataFrames(args[1..]);
      ReadDataFrames(args[1..]);
    }
  }

  /** `n` busy-wait calls wait `n` ms and send nothing. */
  lemma {:induction false} ReadWaits(n: nat)
    ensures Commands(Waits(n)) == []
    ensures DataBytes(Waits(n)) == []
    ensures Waited(Waits(n)) == n
  {
    if n > 0 {
      assert Waits(n)[1..] == Waits(n - 1);
      ReadWaits(n - 1);
    }
  }

  /** `n` copies of a byte string, one after another. */
  function Repeat(bytes: seq<uint8>, n: nat): seq<uint8> {
    if n == 0 then [] else Repeat(bytes, n - 1) + bytes
  }

  /** n copies of the pair (a, b) put a at every even and b at every odd
      position. */
  lemma {:induction false} RepeatPairs(a: uint8, b: uint8, n: nat)
    ensures |Repeat([a, b], n)| == 2 * n
    ensures forall k :: 0 <= k < n ==> Repeat([a, b], n)[2 * k] == a && Repeat([a, b], n)[2 * k + 1] == b
  {
    if n > 0 {
      RepeatPairs(a, b, n - 1);
    }
  }
}
