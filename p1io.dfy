/** `p1io.py`: reading from the data source in steps sized after the last
    telegram, and the TCP reader that blocks until a whole step has
    arrived. */
module P1io {
  import opened Text
  import opened Crc16
  import opened Checksum
  import opened Telegram
  import opened Parser

  // ---------------------------------------------------------------------
  // The read size and sync heuristic of `p1io_main`

  /** The fewest bytes ever requested from the source. */
  const MinRead := 64

  /** `telegram_size`, `source_read_size` and `sync`. */
  datatype ReadState = ReadState(telegramSize: int, sourceReadSize: int, sync: bool)

  /** Before the first read: no telegram seen, 1 KiB requested, not in
      sync. */
  function Initial(): ReadState
  {
    ReadState(0, 1024, false)
  }

  /** `to_read = max(64, source_read_size)`. */
  function ToRead(s: ReadState): (n: int)
    ensures n >= MinRead && n >= s.sourceReadSize
    ensures n == MinRead || n == s.sourceReadSize
  {
    if s.sourceReadSize > MinRead then s.sourceReadSize else MinRead
  }

  /** The update after a read of the right length has been fed to the
      parser, which returned `found` and kept `residual` bytes: no telegram
      resets the read size and loses sync; otherwise the size of the last
      telegram becomes the telegram size (losing sync when it changed),
      sync is regained when nothing is left in the parser, and the next
      read asks for the rest of the telegram under way. */
  function Next(s: ReadState, found: seq<Telegram>, residual: nat): (n: ReadState)
    ensures found == [] ==> n == ReadState(s.telegramSize, 0, false)
    ensures found != [] ==> n.telegramSize == Len(found[|found| - 1])
    ensures found != [] ==> n.sourceReadSize == n.telegramSize - residual
    ensures n.sync <==> found != [] && (residual == 0 || (s.sync && Len(found[|found| - 1]) == s.telegramSize))
  {
    if found == [] then ReadState(s.telegramSize, 0, false)
    else
      var size := Len(found[|found| - 1]);
      var kept := if size != s.telegramSize then false else s.sync;
      var sync := if !kept && residual == 0 then true else kept;
      ReadState(size, size - residual, sync)
  }

  /** Sync is gained only with an empty parser, and lost only on a read
      without telegrams or a change of telegram size. */
  lemma SyncChanges(s: ReadState, found: seq<Telegram>, residual: nat)
    ensures !s.sync && Next(s, found, residual).sync ==> found != [] && residual == 0
    ensures s.sync && !Next(s, found, residual).sync ==>
      found == [] || Len(found[|found| - 1]) != s.telegramSize
  {
    var n := Next(s, found, residual);
    if !s.sync && n.sync {
      assert found != [];
    }
  }

  /** After a read the state is settled: the read size is at most the
      telegram size, which is a length. */
  predicate Settled(s: ReadState)
  {
    s.telegramSize >= 0 && s.sourceReadSize <= s.telegramSize
  }

  lemma NextSettles(s: ReadState, found: seq<Telegram>, residual: nat)
    requires s.telegramSize >= 0
    ensures Settled(Next(s, found, residual))
  {
  }

  /** In sync, a read that brings exactly one more telegram of the same
      size and leaves nothing behind leaves the state as it was: the
      next read asks for one telegram again. */
  lemma SteadyState(s: ReadState, found: seq<Telegram>)
    requires s.sync && s.sourceReadSize == s.telegramSize
    requires found != [] && Len(found[|found| - 1]) == s.telegramSize
    ensures Next(s, found, 0) == s
  {
  }

  /** The step as written: `len(parser)` raises a TypeError since
      `P1Parser` has no `__len__`. Line 226 reaches it when sync is off
      (`and` does not evaluate its right operand otherwise), line 230
      always, so every read that brings a telegram ends the loop. */
  function NextAsWritten(s: ReadState, found: seq<Telegram>): (r: Result<ReadState>)
    ensures r.Ok? <==> found == []
    ensures r.Ok? ==> forall residual: nat :: r.value == Next(s, found, residual)
    ensures r.Err? ==> r.error == TypeError
  {
    if found == [] then Ok(ReadState(s.telegramSize, 0, false))
    else Err(TypeError)
  }

  /** As written, the first read that brings a telegram raises; reads that
      bring none update the state as the corrected step does. */
  lemma StepAsWrittenRaises(s: ReadState, found: seq<Telegram>, residual: nat)
    ensures found != [] ==> NextAsWritten(s, found) == Err(TypeError)
    ensures found == [] ==> NextAsWritten(s, found) == Ok(Next(s, found, residual))
  {
  }

  /** With an empty parser, in sync on a telegram of the size of a meter
      frame of at least 64 bytes: reading the frame makes the parser yield
      its telegram, empties the parser again and keeps the state. */
  lemma FrameKeepsSync(data: bytes)
    requires IsFrameData(data) && |data| >= MinRead - 4
    requires FromBytes(data + HexBytes(CrcValue(data))).Ok?
    ensures var frame := data + HexBytes(CrcValue(data));
      var s := ReadState(|frame|, |frame|, true);
      var found := YieldAll(FromBytes, Cuts([] + frame));
      && ToRead(s) == |frame|
      && Residue([] + frame) == []
      && |found| == 1
      && Next(s, found, |Residue([] + frame)|) == s
  {
    var hex := HexBytes(CrcValue(data));
    var frame := data + hex;
    var junk: bytes := [];
    FrameFound(junk, data);
    FrameBuiltWhole(data);
    var t := FromBytes(frame).value;
    assert YieldAll(FromBytes, Cuts(junk + frame)) == [t];
    assert t.buffer == frame;
    assert frame[0] == Slash;
    assert Len(t) == |frame|;
  }

  /** `p1io_main`'s loop, one read at a time, over the parser it feeds. */
  class ReadLoop {
    var telegramSize: int
    var sourceReadSize: int
    var sync: bool
    const parser: P1Parser

    constructor()
      ensures State() == Initial()
      ensures fresh(parser) && parser.buffer == []
    {
      telegramSize := 0;
      sourceReadSize := 1024;
      sync := false;
      parser := new P1Parser();
    }

    function State(): ReadState
      reads this
    {
      ReadState(telegramSize, sourceReadSize, sync)
    }

    /** One turn of the loop, given what the source returned for a request
        of `ToRead(State())` bytes: a short read raises a RuntimeError and
        changes nothing; otherwise the parser is fed and the state
        updated. */
    method Turn(data: bytes) returns (r: Result<seq<Telegram>>)
      modifies this, parser
      ensures |data| != ToRead(old(State())) ==>
        r == Err(RuntimeError) && State() == old(State()) && parser.buffer == old(parser.buffer)
      ensures |data| == ToRead(old(State())) ==>
        && r == Ok(YieldAll(FromBytes, Cuts(old(parser.buffer) + data)))
        && parser.buffer == Residue(old(parser.buffer) + data)
        && State() == Next(old(State()), r.value, |parser.buffer|)
    {
      var toRead := ToRead(State());
      if |data| != toRead {
        return Err(RuntimeError);
      }
      var telegrams := parser.Feed(data);
      r := Ok(telegrams);
      Update(telegrams);
    }

    /** The state update after the parser returned `telegrams`. */
    method Update(telegrams: seq<Telegram>)
      modifies this
      ensures State() == Next(old(State()), telegrams, parser.Pending())
    {
      if |telegrams| == 0 {
        sourceReadSize := 0;
        sync := false;
        return;
      }
      var newSize := Len(telegrams[|telegrams| - 1]);
      if newSize != telegramSize {
        telegramSize := newSize;
        sync := false;
      }
      if !sync && parser.Pending() == 0 {
        sync := true;
      }
      sourceReadSize := telegramSize - parser.Pending();
    }
  }

  // ---------------------------------------------------------------------
  // TCPFullReader

  /** What the socket delivers next: a chunk of bytes (empty once the peer
      has closed the connection), or a timeout. */
  datatype Arrival = Chunk(data: bytes) | Timeout

  /** The bytes an arrival carries. */
  function Carried(a: Arrival): bytes
  {
    if a.Chunk? then a.data else []
  }

  /** All bytes still to arrive, in order. */
  function Flatten(xs: seq<Arrival>): bytes
  {
    if xs == [] then [] else Carried(xs[0]) + Flatten(xs[1..])
  }

  /** The bytes that arrive before the first timeout or end of stream. */
  function Available(xs: seq<Arrival>): bytes
  {
    if xs == [] then []
    else match xs[0]
      case Timeout => []
      case Chunk(d) => if d == [] then [] else d + Available(xs[1..])
  }

  /** `socket.recv(size)`: at most `size` bytes of the next chunk, the rest
      of it staying for the next call; an empty chunk once nothing is left
      to arrive. */
  function Recv(xs: seq<Arrival>, size: nat): (r: (Arrival, seq<Arrival>))
    requires size > 0
    ensures r.0.Chunk? ==> |r.0.data| <= size
  {
    if xs == [] then (Chunk([]), [])
    else match xs[0]
      case Timeout => (Timeout, xs[1..])
      case Chunk(d) =>
        if |d| <= size then (Chunk(d), xs[1..])
        else (Chunk(d[..size]), [Chunk(d[size..])] + xs[1..])
  }

  /** `recv` hands over bytes in stream order and loses none; it returns
      bytes exactly when some arrive before the next timeout or end of
      stream. */
  lemma RecvMeaning(xs: seq<Arrival>, size: nat)
    requires size > 0
    ensures var (a, rest) := Recv(xs, size);
      && Flatten(xs) == Carried(a) + Flatten(rest)
      && (a.Chunk? && a.data != [] ==> Available(xs) == a.data + Available(rest))
      && (a.Timeout? || a.data == [] ==> Available(xs) == [])
  {
    if xs != [] && xs[0].Chunk? && |xs[0].data| > size {
      var d := xs[0].data;
      var tail := xs[1..];
      var rest := [Chunk(d[size..])] + tail;
      assert rest[1..] == tail;
      assert d == d[..size] + d[size..];
      AppendAssoc(d[..size], d[size..], Flatten(tail));
      AppendAssoc(d[..size], d[size..], Available(tail));
    }
  }

  /** `TCPFullReader`: the socket as the arrivals still to come, and the
      bytes received and not yet returned. */
  class TcpReader {
    var buffer: bytes
    var incoming: seq<Arrival>

    constructor(arrivals: seq<Arrival>)
      ensures buffer == [] && incoming == arrivals
    {
      buffer := [];
      incoming := arrivals;
    }

    /** `read(size)`: exactly the next `size` bytes of the stream when that
        many arrive before a timeout or the end of the stream, and no bytes
        otherwise; nothing received is lost, what is not returned stays in
        the buffer. */
    method Read(size: nat) returns (data: bytes)
      modifies this
      ensures old(buffer) + Flatten(old(incoming)) == data + buffer + Flatten(incoming)
      ensures |data| == size <==> |old(buffer)| + |Available(old(incoming))| >= size
      ensures |data| != size ==> data == []
    {
      ghost var total := |buffer| + |Available(incoming)|;
      while |buffer| < size
        invariant old(buffer) + Flatten(old(incoming)) == buffer + Flatten(incoming)
        invariant |buffer| + |Available(incoming)| == total
        decreases |Flatten(incoming)|
      {
        RecvMeaning(incoming, size);
        var (a, rest) := Recv(incoming, size);
        ghost var before := incoming;
        incoming := rest;
        if a.Timeout? || a.data == [] {
          assert Available(before) == [];
          return [];
        }
        AppendAssoc(buffer, a.data, Flatten(incoming));
        buffer := buffer + a.data;
      }
      ghost var whole := buffer;
      data := buffer[..size];
      buffer := buffer[size..];
      assert whole == data + buffer;
    }
  }
}
