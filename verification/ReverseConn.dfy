/** ReverseAgentConn as code: the dispatcher, the sender of standard input, the collecting loop and the bridge. */
module ReverseConns {
  import opened Bytes
  import opened Replies
  import opened MuxFraming
  import Protocol = ExecProtocols
  import opened Options

  /** The commands for one session, tagged with its ID. */
  function TagAll(id: Id, cs: seq<Command>): (w: seq<Tagged<Command>>) {
    if cs == [] then [] else TagAll(id, cs[..|cs| - 1]) + [Tagged(id, cs[|cs| - 1])]
  }

  lemma TagAppend(id: Id, cs: seq<Command>, c: Command)
    ensures TagAll(id, cs + [c]) == TagAll(id, cs) + [Tagged(id, c)]
  {
    assert (cs + [c])[..|cs|] == cs;
  }

  /** What a loop that receives these messages in turn returns, when one of them ends it. */
  function Collected(log: seq<Reply>): Option<Protocol.Outcome> {
    if log == [] then None
    else
      var n := |log| - 1;
      match Collected(log[..n])
      case Some(o) => Some(o)
      case None =>
        match log[n]
        case Output(_, _) => None
        case ExitCode(code) => Some(Protocol.Ok(Payload(log, Stdout), Payload(log, Stderr), code))
        case Failed => Some(Protocol.AgentError)
  }

  lemma CollectedAppend(log: seq<Reply>, m: Reply)
    requires Collected(log).None?
    ensures Collected(log + [m]) ==
            match m
            case Output(_, _) => None
            case ExitCode(code) => Some(Protocol.Ok(Payload(log + [m], Stdout), Payload(log + [m], Stderr), code))
            case Failed => Some(Protocol.AgentError)
  {
    assert (log + [m])[..|log|] == log;
  }

  lemma {:induction false} CollectedOutputs(log: seq<Reply>)
    requires AllOutputs(log)
    ensures Collected(log).None?
  {
    if log != [] {
      CollectedOutputs(log[..|log| - 1]);
      assert log[|log| - 1] in log;
    }
  }

  /** The loop and the protocol model agree: receiving one more message ends both with the same outcome or neither. */
  lemma CollectIsStep(c: Protocol.Call, m: Reply)
    requires AllOutputs(c.consumed) && c.phase == Protocol.Collecting
    ensures var d := Protocol.Collect(c, m);
            match Collected(c.consumed + [m])
            case None => d.phase == Protocol.Collecting
            case Some(o) => d.phase == Protocol.Returned(o) && d.queue.None?
  {
    CollectedOutputs(c.consumed);
    CollectedAppend(c.consumed, m);
  }

  lemma TagNothing(id: Id)
    ensures TagAll(id, []) == []
  {
  }

  /** What is left to send at an offset: the next chunk and the rest, or only the close. */
  lemma FeedStep(stdin: seq<Byte>, off: nat)
    ensures off >= |stdin| ==> Feed(Some(stdin), off) == [CloseStdin]
    ensures off < |stdin| ==>
              Feed(Some(stdin), off) ==
              [Stdin(stdin[off..if off + CHUNK > |stdin| then |stdin| else off + CHUNK])] + Feed(Some(stdin), off + CHUNK)
  {
    hide ChunksFrom, Stdins;
    Protocol.ChunksStep(stdin, off);
  }

  class ReverseAgentConn {
    /** rc.sessions: the buffered channel of every registered session. */
    var sessions: map<Id, seq<Reply>>
    /** What was written to the connection. */
    var wire: seq<Tagged<Command>>
    /** The sessions that were registered when each of these messages was written. */
    ghost var registered: seq<set<Id>>

    constructor ()
      ensures sessions == map[] && wire == [] && registered == []
    {
      sessions, wire, registered := map[], [], [];
    }

    method SendJSON(m: Tagged<Command>)
      modifies this`wire, this`registered
      ensures wire == old(wire) + [m] && registered == old(registered) + [sessions.Keys]
    {
      wire := wire + [m];
      registered := registered + [sessions.Keys];
    }

    /** One iteration of readLoop: at most the addressed channel changes, and only by one message at its end. */
    method Dispatch(m: Tagged<Reply>) returns (accepted: bool)
      modifies this`sessions
      ensures accepted <==> m.id != "" && m.id in old(sessions) && |old(sessions)[m.id]| < 64
      ensures sessions == if accepted then old(sessions)[m.id := old(sessions)[m.id] + [m.body]] else old(sessions)
      ensures forall c: Protocol.Call ::
                m.id in old(sessions) && c.queue == Some(old(sessions)[m.id]) && m.id != "" ==>
                  Protocol.Deliver(c, m.body).queue == Some(sessions[m.id])
    {
      accepted := false;
      if m.id == "" {
        return;
      }
      if m.id in sessions {
        var ch := sessions[m.id];
        if |ch| < Protocol.QUEUE_CAPACITY {
          sessions := sessions[m.id := ch + [m.body]];
          accepted := true;
        }
      }
    }

    /** The start of CollectExecWithStdin: register, exec, the input in chunks, close. The session was registered before
        the first of these messages was written. */
    method StartWithStdin(id: Id, cmd: seq<string>, stdin: seq<Byte>)
      modifies this
      ensures sessions == old(sessions)[id := []]
      ensures wire == old(wire) + TagAll(id, Script(cmd, Some(stdin)))
      ensures old(registered) <= registered && |registered| - |old(registered)| == |wire| - |old(wire)|
      ensures forall i :: |old(registered)| <= i < |registered| ==> id in registered[i]
    {
      hide TagAll, Script, Feed;
      sessions := sessions[id := []];
      SendJSON(Tagged(id, Exec(cmd)));
      ghost var issued := [] + [Exec(cmd)];
      TagAppend(id, [], Exec(cmd));
      TagNothing(id);
      var off := 0;
      Protocol.ScriptIs(cmd, Some(stdin));
      while off < |stdin|
        invariant sessions == old(sessions)[id := []]
        invariant wire == old(wire) + TagAll(id, issued)
        invariant old(registered) <= registered && |registered| - |old(registered)| == |wire| - |old(wire)|
        invariant forall i :: |old(registered)| <= i < |registered| ==> id in registered[i]
        invariant Script(cmd, Some(stdin)) == issued + Feed(Some(stdin), off)
        decreases |stdin| - off
      {
        var end := off + CHUNK;
        if end > |stdin| {
          end := |stdin|;
        }
        FeedStep(stdin, off);
        SendJSON(Tagged(id, Stdin(stdin[off..end])));
        TagAppend(id, issued, Stdin(stdin[off..end]));
        issued := issued + [Stdin(stdin[off..end])];
        off := off + CHUNK;
      }
      FeedStep(stdin, off);
      TagAppend(id, issued, CloseStdin);
      SendJSON(Tagged(id, CloseStdin));
    }

    /** The collecting loop over the messages a channel yields; None when they run out before one that ends it. */
    method Collect(ch: seq<Reply>) returns (r: Option<Protocol.Outcome>, received: nat)
      ensures received <= |ch| && r == Collected(ch[..received]) && (r.None? ==> received == |ch|)
      ensures forall i :: 0 <= i < received - 1 ==> ch[i].Output?
    {
      var stdout, stderr := [], [];
      received := 0;
      while received < |ch|
        invariant 0 <= received <= |ch|
        invariant AllOutputs(ch[..received])
        invariant stdout == Payload(ch[..received], Stdout) && stderr == Payload(ch[..received], Stderr)
      {
        var m := ch[received];
        var before := ch[..received];
        assert ch[..received + 1] == before + [m];
        CollectedOutputs(before);
        CollectedAppend(before, m);
        PayloadAppend(before, m, Stdout);
        PayloadAppend(before, m, Stderr);
        assert forall i :: 0 <= i < received ==> ch[i] in before;
        received := received + 1;
        match m
        case Output(st, data) =>
          if st == Stdout {
            stdout := stdout + data;
          } else {
            stderr := stderr + data;
          }
        case ExitCode(code) =>
          assert stdout == Payload(before + [m], Stdout) && stderr == Payload(before + [m], Stderr);
          return Some(Protocol.Ok(stdout, stderr, code)), received;
        case Failed =>
          return Some(Protocol.AgentError), received;
      }
      CollectedOutputs(ch[..received]);
      assert forall i :: 0 <= i < received ==> ch[i] in ch[..received];
      return None, received;
    }

    /** The frame buffer, filled in place. */
    method WriteFrame(st: Stream, data: seq<Byte>) returns (frame: array<Byte>)
      ensures fresh(frame) && frame[..] == Frame(st, data)
    {
      frame := new Byte[8 + |data|](_ => 0);
      frame[0] := StreamByte(st);
      var word := PutUint32(|data| % WORD);
      frame[4], frame[5], frame[6], frame[7] := word[0], word[1], word[2], word[3];
      forall i | 0 <= i < |data| {
        frame[8 + i] := data[i];
      }
    }

    /** The agent-to-client loop of bridge without a terminal: everything written to the client, and the exit code. */
    method Bridge(ch: seq<Reply>) returns (conn: seq<Byte>, code: int)
      ensures conn == Frames(ch)
      ensures match Collected(ch)
              case Some(o) => code == if o.Ok? then o.code else -1
              case None => code == -1
    {
      hide Payload, Frame;
      conn, code := [], -1;
      var i := 0;
      while i < |ch|
        invariant 0 <= i <= |ch| && AllOutputs(ch[..i]) && code == -1
        invariant conn + Frames(ch[i..]) == Frames(ch)
      {
        var m := ch[i];
        if m.Output? {
          var frame := WriteFrame(m.st, m.data);
          conn := conn + frame[..];
          assert ch[i..][1..] == ch[i + 1..];
          assert ch[..i + 1] == ch[..i] + [m];
          i := i + 1;
        } else {
          CollectedOutputs(ch[..i]);
          CollectedAppend(ch[..i], m);
          assert ch == ch[..i] + [m] + ch[i + 1..];
          CollectedStays(ch[..i] + [m], ch[i + 1..]);
          return conn, if m.ExitCode? then m.code else -1;
        }
      }
      assert ch[..i] == ch;
      CollectedOutputs(ch);
    }
  }

  lemma {:induction false} CollectedStays(log: seq<Reply>, more: seq<Reply>)
    requires Collected(log).Some?
    ensures Collected(log + more) == Collected(log)
  {
    if more == [] {
      assert log + more == log;
    } else {
      var n := |more| - 1;
      assert (log + more)[..|log + more| - 1] == log + more[..n];
      CollectedStays(log, more[..n]);
    }
  }

  // ---------- End to end through the bridge ----------

  /** In every run, framing the messages of a session that ended normally, as the bridge does, and splitting the bytes
      again gives the same two streams as collecting them; by CollectExact these are the child's, unless messages
      were dropped. */
  lemma BridgeExact(steps: seq<Protocol.Step>, s: Protocol.State, id: Id, out: seq<Byte>, err: seq<Byte>, code: int)
    requires Protocol.Run(Protocol.Init(), steps) == Some(s)
    requires id in s.sessions && s.sessions[id].call.phase == Protocol.Returned(Protocol.Ok(out, err, code))
    ensures Demux(Frames(s.sessions[id].call.consumed)) == Streams(out, err)
    ensures Collected(s.sessions[id].call.consumed) == Some(Protocol.Ok(out, err, code))
  {
    hide Protocol.Run, Demux, Frames, Payload, Collected, Protocol.IssueInv, Protocol.QueueInv, Protocol.ReturnInv,
      Protocol.AgentInv, For;
    Protocol.InitInv();
    Protocol.RunKeeps(Protocol.Init(), steps);
    var x := s.sessions[id];
    assert Protocol.LocalInv(x) && Protocol.WireInv(s, id, x);
    var log := x.call.consumed;
    var n := |log| - 1;
    assert log == log[..n] + [log[n]] + [];
    FramesStop(log[..n], log[n], []);
    InvIsSmall(s, id);
    assert forall m <- log[..n] :: m in log;
    DemuxFrames(log[..n]);
    PayloadAppend(log[..n], log[n], Stdout);
    PayloadAppend(log[..n], log[n], Stderr);
    assert log == log[..n] + [log[n]];
    CollectedOutputs(log[..n]);
    CollectedAppend(log[..n], log[n]);
  }

  /** In every run no output message is larger than a read buffer, so the 32-bit length of its frame never truncates. */
  lemma ConsumedIsSmall(steps: seq<Protocol.Step>, s: Protocol.State, id: Id)
    requires Protocol.Run(Protocol.Init(), steps) == Some(s) && id in s.sessions
    ensures forall m <- s.sessions[id].call.consumed :: m.Output? ==> |m.data| <= 32768
  {
    hide Protocol.Run, Protocol.Inv;
    Protocol.InitInv();
    Protocol.RunKeeps(Protocol.Init(), steps);
    InvIsSmall(s, id);
  }

  lemma InvIsSmall(s: Protocol.State, id: Id)
    requires Protocol.Inv(s) && id in s.sessions
    ensures forall m <- s.sessions[id].call.consumed :: m.Output? ==> |m.data| <= CHUNK
  {
    hide Payload, Protocol.IssueInv, Protocol.ReturnInv, Protocol.AgentInv, Protocol.DoneInv, Subsequence, For;
    var x := s.sessions[id];
    assert Protocol.LocalInv(x) && Protocol.WireInv(s, id, x);
    var c := x.call;
    SentIsSmall(x);
    forall m <- c.consumed
      ensures m.Output? ==> |m.data| <= CHUNK
    {
      assert m in Protocol.Accepted(c);
      SubsequenceMember(Protocol.Accepted(c), c.arrived, m);
      var i :| 0 <= i < |c.arrived| && c.arrived[i] == m;
      assert x.sent[i] == m;
    }
  }

  lemma SentIsSmall(x: Protocol.Session)
    requires Protocol.AgentInv(x)
    ensures forall i :: 0 <= i < |x.sent| && x.sent[i].Output? ==> |x.sent[i].data| <= CHUNK
  {
    hide Payload, Protocol.StdinInv;
  }
}
