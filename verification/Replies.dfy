/** The messages of the remote-exec protocol and the functions over message logs that its proofs use. */
module Replies {
  import opened Bytes
  import opened Options

  type Id = string

  datatype Stream = Stdout | Stderr

  /** What the agent sends back for a session; the base64 payload is the data itself. */
  datatype Reply = Output(st: Stream, data: seq<Byte>) | ExitCode(code: int) | Failed

  /** What a caller sends for its session. */
  datatype Command = Exec(cmd: seq<string>) | Stdin(data: seq<Byte>) | CloseStdin

  /** A message on the shared connection. */
  datatype Tagged<T> = Tagged(id: Id, body: T)

  /** The messages of one session on the wire, in order. */
  function For<T>(wire: seq<Tagged<T>>, id: Id): seq<T> {
    if wire == [] then []
    else (if wire[0].id == id then [wire[0].body] else []) + For(wire[1..], id)
  }

  lemma {:induction false} ForAppend<T>(wire: seq<Tagged<T>>, m: Tagged<T>, id: Id)
    ensures For(wire + [m], id) == For(wire, id) + if m.id == id then [m.body] else []
  {
    if wire == [] {
      assert wire + [m] == [m];
    } else {
      assert (wire + [m])[1..] == wire[1..] + [m];
      ForAppend(wire[1..], m, id);
    }
  }

  // ---------- Payloads ----------

  /** The bytes of one stream in a log. */
  function Payload(log: seq<Reply>, st: Stream): seq<Byte> {
    if log == [] then []
    else
      var m := log[|log| - 1];
      Payload(log[..|log| - 1], st) + if m.Output? && m.st == st then m.data else []
  }

  lemma PayloadAppend(log: seq<Reply>, m: Reply, st: Stream)
    ensures Payload(log + [m], st) == Payload(log, st) + if m.Output? && m.st == st then m.data else []
  {
    assert (log + [m])[..|log|] == log;
  }

  /** Every message weighs something: an output its bytes, any other message one. */
  function Weight(log: seq<Reply>): nat {
    if log == [] then 0
    else
      var m := log[|log| - 1];
      Weight(log[..|log| - 1]) + if m.Output? then |m.data| else 1
  }

  lemma WeightAppend(log: seq<Reply>, m: Reply)
    ensures Weight(log + [m]) == Weight(log) + if m.Output? then |m.data| else 1
  {
    assert (log + [m])[..|log|] == log;
  }

  ghost predicate AllOutputs(log: seq<Reply>) {
    forall m <- log :: m.Output?
  }

  lemma {:induction false} WeightOfOutputs(log: seq<Reply>)
    requires AllOutputs(log)
    ensures Weight(log) == |Payload(log, Stdout)| + |Payload(log, Stderr)|
  {
    if log != [] {
      WeightOfOutputs(log[..|log| - 1]);
      assert log[|log| - 1] in log;
    }
  }

  // ---------- Standard input in chunks ----------

  const CHUNK: nat := 32 * 1024

  /** The pieces of at most CHUNK bytes into which data falls from off on. */
  function ChunksFrom(data: seq<Byte>, off: nat): seq<seq<Byte>>
    decreases |data| - off
  {
    if off >= |data| then []
    else
      var end := if off + CHUNK > |data| then |data| else off + CHUNK;
      [data[off..end]] + ChunksFrom(data, off + CHUNK)
  }

  /** Piece k has the bytes from off + 32768 * k on, 32768 of them or what is left, and there is no further piece. */
  lemma {:induction false} ChunksExact(data: seq<Byte>, off: nat, k: nat)
    ensures k < |ChunksFrom(data, off)| <==> off + 32768 * k < |data|
    ensures k < |ChunksFrom(data, off)| ==>
              var end := off + 32768 * (k + 1);
              ChunksFrom(data, off)[k] == data[off + 32768 * k..if end > |data| then |data| else end]
    decreases k
  {
    if off < |data| && k > 0 {
      ChunksExact(data, off + CHUNK, k - 1);
    }
  }

  function Stdins(chunks: seq<seq<Byte>>): seq<Command> {
    if chunks == [] then [] else [Stdin(chunks[0])] + Stdins(chunks[1..])
  }

  /** The bytes that a series of commands feeds to standard input. */
  function StdinBytes(cs: seq<Command>): seq<Byte> {
    if cs == [] then []
    else
      var c := cs[|cs| - 1];
      StdinBytes(cs[..|cs| - 1]) + if c.Stdin? then c.data else []
  }

  lemma StdinAppend(cs: seq<Command>, c: Command)
    ensures StdinBytes(cs + [c]) == StdinBytes(cs) + if c.Stdin? then c.data else []
  {
    assert (cs + [c])[..|cs|] == cs;
  }

  lemma {:induction false} StdinConcat(a: seq<Command>, b: seq<Command>)
    ensures StdinBytes(a + b) == StdinBytes(a) + StdinBytes(b)
  {
    if b == [] {
      assert a + b == a;
    } else {
      var n := |b| - 1;
      assert a + b == (a + b[..n]) + [b[n]];
      StdinAppend(a + b[..n], b[n]);
      StdinConcat(a, b[..n]);
    }
  }

  /** The chunk commands from an offset on feed exactly the bytes from that offset on. */
  lemma {:induction false} ChunksFeed(data: seq<Byte>, off: nat)
    ensures StdinBytes(Stdins(ChunksFrom(data, off))) == if off >= |data| then [] else data[off..]
    decreases |data| - off
  {
    if off < |data| {
      var end := if off + CHUNK > |data| then |data| else off + CHUNK;
      var rest := ChunksFrom(data, off + CHUNK);
      ChunksFeed(data, off + CHUNK);
      assert ChunksFrom(data, off)[1..] == rest;
      StdinConcat([Stdin(data[off..end])], Stdins(rest));
      StdinAppend([], Stdin(data[off..end]));
      assert [] + [Stdin(data[off..end])] == [Stdin(data[off..end])];
    }
  }

  /** Everything a call sends: the exec, and with an input its chunks and the close. */
  function Script(cmd: seq<string>, stdin: Option<seq<Byte>>): seq<Command> {
    [Exec(cmd)] + Feed(stdin, 0)
  }

  /** What is left to send once the chunks before off are sent. */
  function Feed(stdin: Option<seq<Byte>>, off: nat): seq<Command> {
    if stdin.None? then [] else Stdins(ChunksFrom(stdin.value, off)) + [CloseStdin]
  }

  lemma ScriptFeeds(cmd: seq<string>, stdin: seq<Byte>)
    ensures StdinBytes(Script(cmd, Some(stdin))) == stdin
  {
    hide StdinBytes, ChunksFrom, Stdins;
    var body := Stdins(ChunksFrom(stdin, 0));
    assert Script(cmd, Some(stdin)) == ([Exec(cmd)] + body) + [CloseStdin];
    StdinAppend([Exec(cmd)] + body, CloseStdin);
    StdinConcat([Exec(cmd)], body);
    StdinAppend([], Exec(cmd));
    assert [] + [Exec(cmd)] == [Exec(cmd)];
    EmptyFeeds();
    ChunksFeed(stdin, 0);
  }

  lemma {:induction false} StdinsAt(chunks: seq<seq<Byte>>)
    ensures |Stdins(chunks)| == |chunks|
    ensures forall i :: 0 <= i < |chunks| ==> Stdins(chunks)[i] == Stdin(chunks[i])
  {
    if chunks != [] {
      StdinsAt(chunks[1..]);
    }
  }

  /** The script is the exec and, with an input, its pieces in order and the close. */
  lemma ScriptShape(cmd: seq<string>, stdin: Option<seq<Byte>>)
    ensures stdin.None? ==> Script(cmd, stdin) == [Exec(cmd)]
    ensures stdin.Some? ==>
              var (script, n) := (Script(cmd, stdin), |ChunksFrom(stdin.value, 0)|);
              && |script| == n + 2 && script[0] == Exec(cmd) && script[n + 1] == CloseStdin
              && forall i :: 0 <= i < n ==> script[i + 1] == Stdin(ChunksFrom(stdin.value, 0)[i])
  {
    hide ChunksFrom, Stdins;
    if stdin.Some? {
      StdinsAt(ChunksFrom(stdin.value, 0));
    }
  }

  lemma EmptyFeeds()
    ensures StdinBytes([]) == []
  {
  }

  lemma {:induction false} StdinsMembers(chunks: seq<seq<Byte>>)
    ensures forall c <- Stdins(chunks) :: c.Stdin?
  {
    if chunks != [] {
      StdinsMembers(chunks[1..]);
    }
  }

  /** A call closes the input once, as the last thing it sends. */
  lemma CloseIsLast(cmd: seq<string>, stdin: Option<seq<Byte>>, i: nat)
    requires i < |Script(cmd, stdin)| && Script(cmd, stdin)[i] == CloseStdin
    ensures i == |Script(cmd, stdin)| - 1 && stdin.Some?
  {
    if stdin.Some? {
      var body := Stdins(ChunksFrom(stdin.value, 0));
      StdinsMembers(ChunksFrom(stdin.value, 0));
      assert Script(cmd, stdin) == [Exec(cmd)] + body + [CloseStdin];
      assert forall k :: 0 <= k < |body| ==> body[k] in Stdins(ChunksFrom(stdin.value, 0));
      assert forall k :: 0 < k < |Script(cmd, stdin)| - 1 ==> Script(cmd, stdin)[k] == body[k - 1];
    }
  }
}
