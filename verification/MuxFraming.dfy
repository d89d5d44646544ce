/** The multiplexed stream format that bridge writes to a client connection: an eight-byte header and the payload. */
module MuxFraming {
  import opened Bytes
  import opened Replies

  const WORD: nat := 0x1_0000_0000

  /** binary.BigEndian.PutUint32: the four bytes of a 32-bit word. */
  function PutUint32(n: nat): (b: seq<Byte>)
    requires n < WORD
    ensures |b| == 4
  {
    [n / 0x100_0000, n / 0x1_0000 % 0x100, n / 0x100 % 0x100, n % 0x100]
  }

  function Uint32(b: seq<Byte>): (n: nat)
    requires |b| == 4
  {
    (b[0] as int) * 0x100_0000 + (b[1] as int) * 0x1_0000 + (b[2] as int) * 0x100 + (b[3] as int)
  }

  lemma WordRoundTrip(n: nat)
    requires n < WORD
    ensures Uint32(PutUint32(n)) == n
  {
    assert n / 0x100 / 0x100 == n / 0x1_0000;
    assert n / 0x1_0000 / 0x100 == n / 0x100_0000;
  }

  function StreamByte(st: Stream): Byte {
    if st == Stdout then 1 else 2
  }

  /** One frame; the length is converted to 32 bits as uint32 does. */
  function Frame(st: Stream, data: seq<Byte>): (f: seq<Byte>)
    ensures |f| == 8 + |data|
  {
    [StreamByte(st), 0, 0, 0] + PutUint32(|data| % WORD) + data
  }

  /** What bridge writes for the messages it receives, up to the message that ends the session. */
  function Frames(log: seq<Reply>): seq<Byte> {
    if log == [] || !log[0].Output? then []
    else Frame(log[0].st, log[0].data) + Frames(log[1..])
  }

  // ---------- The reader on the other side ----------

  datatype Streams = Bad | Streams(out: seq<Byte>, err: seq<Byte>)

  /** Splits a byte stream into its frames and gathers the payloads of each stream. */
  function Demux(b: seq<Byte>): Streams
    decreases |b|
  {
    if b == [] then Streams([], [])
    else if |b| < 8 || (b[0] != 1 && b[0] != 2) then Bad
    else
      var n := Uint32(b[4..8]);
      if |b| < 8 + n then Bad
      else
        match Demux(b[8 + n..])
        case Bad => Bad
        case Streams(out, err) =>
          if b[0] == 1 then Streams(b[8..8 + n] + out, err) else Streams(out, b[8..8 + n] + err)
  }

  lemma FrameParts(st: Stream, data: seq<Byte>, rest: seq<Byte>)
    ensures var b := Frame(st, data) + rest;
            && b[0] == StreamByte(st) && b[4..8] == PutUint32(|data| % WORD)
            && b[8..8 + |data|] == data && b[8 + |data|..] == rest
  {
    var head := [StreamByte(st), 0, 0, 0] + PutUint32(|data| % WORD);
    assert Frame(st, data) == head + data;
    assert (Frame(st, data) + rest)[4..8] == head[4..8] == PutUint32(|data| % WORD);
  }

  /** A frame is the number of its stream, three zeros, four bytes of length, the most significant first, and the data. It
      announces its own length exactly when the length fits 32 bits. */
  lemma FrameLengthExact(st: Stream, data: seq<Byte>)
    ensures var f := Frame(st, data);
            && |f| == 8 + |data| && f[8..] == data
            && f[0] == (if st == Stdout then 1 else 2) && f[1] == f[2] == f[3] == 0
            && ((f[4] as int) * 256 * 256 * 256 + (f[5] as int) * 256 * 256 + (f[6] as int) * 256 + (f[7] as int) == |data| <==>
                |data| < 0x1_0000_0000)
  {
    hide PutUint32;
    FrameParts(st, data, []);
    var f := Frame(st, data);
    assert f + [] == f;
    WordRoundTrip(|data| % WORD);
    assert f[4..8][0] == f[4] && f[4..8][1] == f[5] && f[4..8][2] == f[6] && f[4..8][3] == f[7];
  }

  lemma {:induction false} PayloadHead(log: seq<Reply>, st: Stream)
    requires log != []
    ensures Payload(log, st) ==
            (if log[0].Output? && log[0].st == st then log[0].data else []) + Payload(log[1..], st)
    decreases |log|
  {
    hide Payload;
    var n := |log| - 1;
    var front, last := log[..n], log[n];
    assert log == front + [last];
    PayloadAppend(front, last, st);
    if n > 0 {
      PayloadHead(front, st);
      assert log[1..] == front[1..] + [last];
      PayloadAppend(front[1..], last, st);
    } else {
      NoPayload(st);
      assert front == [] && log[1..] == [];
    }
  }

  lemma NoPayload(st: Stream)
    ensures Payload([], st) == []
  {
  }

  lemma DemuxFrame(st: Stream, data: seq<Byte>, rest: seq<Byte>)
    requires |data| < WORD
    ensures Demux(Frame(st, data) + rest) ==
            match Demux(rest)
            case Bad => Bad
            case Streams(out, err) => if st == Stdout then Streams(data + out, err) else Streams(out, data + err)
  {
    hide Frame, PutUint32, Uint32;
    FrameParts(st, data, rest);
    WordRoundTrip(|data|);
  }

  /** Demultiplexing the frames of any messages gives back each stream exactly. */
  lemma {:induction false} DemuxFrames(log: seq<Reply>)
    requires forall m <- log :: m.Output? && |m.data| < WORD
    ensures Demux(Frames(log)) == Streams(Payload(log, Stdout), Payload(log, Stderr))
  {
    if log != [] {
      hide Demux, Frame, Payload;
      var m := log[0];
      assert m in log;
      DemuxFrame(m.st, m.data, Frames(log[1..]));
      DemuxFrames(log[1..]);
      PayloadHead(log, Stdout);
      PayloadHead(log, Stderr);
    }
  }

  lemma {:induction false} FramesStop(log: seq<Reply>, m: Reply, more: seq<Reply>)
    requires AllOutputs(log) && !m.Output?
    ensures Frames(log + [m] + more) == Frames(log)
  {
    var all := log + [m] + more;
    if log != [] {
      assert log[0] in log;
      assert all[0] == log[0];
      assert all[1..] == log[1..] + [m] + more;
      FramesStop(log[1..], m, more);
    }
  }
}
