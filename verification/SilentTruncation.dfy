/** Runs of the remote-exec protocol with a slow collector, in which the 65th message meets a full queue. When it is an
    output, CollectExec returns without error and yet without all output; when it is the exit message, the call waits
    for ever. */
module SilentTruncation {
  import opened Bytes
  import opened Options
  import opened Replies
  import opened ExecProtocols
  import opened ExecEndings

  ghost predicate Reachable(s: State) {
    exists steps :: Run(Init(), steps) == Some(s)
  }

  lemma {:induction false} RunLast(s: State, steps: seq<Step>, a: Step)
    requires Run(s, steps).Some? && Enabled(Run(s, steps).value, a)
    ensures Run(s, steps + [a]) == Some(Next(Run(s, steps).value, a))
    decreases |steps|
  {
    hide Enabled, Next;
    if steps == [] {
      assert steps + [a] == [a];
    } else {
      assert (steps + [a])[1..] == steps[1..] + [a];
      RunLast(Next(s, steps[0]), steps[1..], a);
    }
  }

  lemma Extend(s: State, a: Step)
    requires Reachable(s) && Enabled(s, a)
    ensures Reachable(Next(s, a))
  {
    hide Run, Enabled, Next;
    var steps :| Run(Init(), steps) == Some(s);
    RunLast(Init(), steps, a);
  }

  // ---------- Filling the queue ----------

  /** Nothing is on the wires, and the call and the child run, alone. */
  ghost predicate Quiet(s: State, id: Id) {
    && s.sessions.Keys == {id} && id != "" && s.down == [] && s.up == [] && !s.broken && !s.closed
    && s.sessions[id].call.phase == Collecting && s.sessions[id].call.queue.Some? && s.sessions[id].remote.Some?
  }

  /** The reader has passed on all that was written, and the pipe is open. */
  predicate Idle(p: Pipe) {
    !p.ended && !p.finished && p.held == [] && |p.taken| == |p.written|
  }

  /** k chunks were written, dispatched, and none of them collected. */
  ghost predicate Filling(s: State, id: Id, k: nat) {
    && Quiet(s, id)
    && var c := s.sessions[id].call;
       var r := s.sessions[id].remote.value;
       && |c.queue.value| == (if k < QUEUE_CAPACITY then k else QUEUE_CAPACITY)
       && (forall m <- c.queue.value :: m.Output?)
       && c.dropped == (if k < QUEUE_CAPACITY then 0 else k - QUEUE_CAPACITY)
       && Idle(r.out) && Idle(r.err) && r.waiter == Waiting && r.exit == None
  }

  lemma StartFilling(id: Id) returns (s: State)
    requires id != ""
    ensures Reachable(s) && Filling(s, id, 0)
  {
    hide Run;
    assert Run(Init(), []) == Some(Init()) by {
      RunNothing();
    }
    var a0, a1, a2 := Start(id, ["cat"], None), OnCall(id, SendExec), Route(true, 0);
    var s0 := Init();
    Extend(s0, a0);
    var s1 := Next(s0, a0);
    Extend(s1, a1);
    var s2 := Next(s1, a1);
    assert s2.down == [Tagged(id, Exec(["cat"]))];
    Extend(s2, a2);
    s := Next(s2, a2);
  }

  lemma RunNothing()
    ensures Run(Init(), []) == Some(Init())
  {
  }

  /** One more chunk from the child to the wire. */
  lemma ChunkSent(s: State, id: Id) returns (t: State)
    requires Reachable(s) && Quiet(s, id) && Idle(s.sessions[id].remote.value.out)
    ensures Reachable(t) && t.sessions.Keys == {id} && t.down == [] && !t.broken && !t.closed
    ensures exists data :: t.up == [Tagged(id, Output(Stdout, data))]
    ensures t.sessions[id].call == s.sessions[id].call && t.sessions[id].remote.Some?
    ensures var q := t.sessions[id].remote.value;
            q == s.sessions[id].remote.value.(out := q.out) && Idle(q.out)
  {
    hide Reachable;
    var a1 := OnAgent(id, OnPipe(Stdout, Write([0])));
    var a2, a3 := OnAgent(id, OnPipe(Stdout, Take(1))), OnAgent(id, OnPipe(Stdout, Forward));
    Extend(s, a1);
    var s1 := Next(s, a1);
    Extend(s1, a2);
    var s2 := Next(s1, a2);
    Extend(s2, a3);
    t := Next(s2, a3);
    assert t.up == [Tagged(id, Output(Stdout, s2.sessions[id].remote.value.out.held))];
  }

  /** And on to the queue. */
  lemma FillOne(s: State, id: Id, k: nat) returns (t: State)
    requires Reachable(s) && Filling(s, id, k)
    ensures Reachable(t) && Filling(t, id, k + 1)
  {
    hide Reachable;
    var u := ChunkSent(s, id);
    Extend(u, Dispatch);
    t := Next(u, Dispatch);
    assert t.sessions.Keys == {id};
  }

  lemma {:induction false} FillUp(s: State, id: Id, k: nat, n: nat) returns (t: State)
    requires Reachable(s) && Filling(s, id, k) && k <= n
    ensures Reachable(t) && Filling(t, id, n)
    decreases n - k
  {
    hide Reachable, Filling;
    if k == n {
      t := s;
    } else {
      var u := FillOne(s, id, k);
      t := FillUp(u, id, k + 1, n);
    }
  }

  // ---------- The end of the child ----------

  /** Both readers end, the child is reaped, and its exit code is on the wire. */
  lemma ChildEnds(s: State, id: Id, k: nat) returns (t: State)
    requires Reachable(s) && Filling(s, id, k)
    ensures Reachable(t) && t.sessions.Keys == {id} && t.sessions[id].call == s.sessions[id].call
    ensures ExitCode(0) in t.sessions[id].sent
    ensures t.up == [Tagged(id, ExitCode(0))] && !t.broken && !t.closed
  {
    hide Reachable;
    var s1 := StreamEnds(s, id, Stdout);
    var s2 := StreamEnds(s1, id, Stderr);
    var a1, a2, a3 := OnAgent(id, ChildExits(Clean)), OnAgent(id, Reap), OnAgent(id, Notify);
    Extend(s2, a1);
    var s3 := Next(s2, a1);
    Extend(s3, a2);
    var s4 := Next(s3, a2);
    Extend(s4, a3);
    t := Next(s4, a3);
  }

  lemma StreamEnds(s: State, id: Id, st: Stream) returns (t: State)
    requires Reachable(s) && Quiet(s, id) && Idle(PipeOf(s.sessions[id].remote.value, st))
    ensures Reachable(t) && Quiet(t, id) && t.sessions[id].call == s.sessions[id].call
    ensures var r := s.sessions[id].remote.value;
            var q := t.sessions[id].remote.value;
            && PipeOf(q, st).finished && q == WithPipe(r, st, PipeOf(q, st))
  {
    hide Reachable;
    var a1, a2 := OnAgent(id, OnPipe(st, End)), OnAgent(id, OnPipe(st, ReadEnds));
    Extend(s, a1);
    var s1 := Next(s, a1);
    Extend(s1, a2);
    t := Next(s1, a2);
    assert t.sessions.Keys == {id};
  }

  // ---------- The collector catches up ----------

  /** Some outputs and then the exit code wait in the queue; something was dropped before. */
  ghost predicate Draining(s: State, id: Id) {
    && id in s.sessions
    && var c := s.sessions[id].call;
       && c.phase == Collecting && c.dropped > 0 && c.queue.Some? && c.queue.value != []
       && (forall i :: 0 <= i < |c.queue.value| - 1 ==> c.queue.value[i].Output?)
       && c.queue.value[|c.queue.value| - 1].ExitCode?
  }

  lemma ExitQueued(s: State, id: Id) returns (t: State)
    requires Reachable(s) && s.sessions.Keys == {id} && id != "" && s.up == [Tagged(id, ExitCode(0))] && !s.broken
    requires var c := s.sessions[id].call;
             && c.phase == Collecting && c.dropped > 0 && c.queue.Some? && 0 < |c.queue.value| <= QUEUE_CAPACITY
             && forall m <- c.queue.value :: m.Output?
    ensures Reachable(t) && Draining(t, id)
  {
    hide Reachable, Payload;
    Extend(s, OnCall(id, Receive));
    var s1 := Next(s, OnCall(id, Receive));
    Extend(s1, Dispatch);
    t := Next(s1, Dispatch);
  }

  lemma {:induction false} Drain(s: State, id: Id) returns (t: State)
    requires Reachable(s) && Draining(s, id)
    ensures Reachable(t) && id in t.sessions && t.sessions[id].call.dropped > 0
    ensures t.sessions[id].call.phase.Returned? && t.sessions[id].call.phase.outcome.Ok?
    decreases |s.sessions[id].call.queue.value|
  {
    hide Reachable, Payload;
    var a := OnCall(id, Receive);
    Extend(s, a);
    var u := Next(s, a);
    if |s.sessions[id].call.queue.value| == 1 {
      t := u;
    } else {
      t := Drain(u, id);
    }
  }

  /** In some run CollectExec returns without error, and its result is not what the child wrote. */
  lemma OutputMissing(id: Id) returns (steps: seq<Step>, s: State, out: seq<Byte>, err: seq<Byte>, code: int)
    requires id != ""
    ensures Run(Init(), steps) == Some(s) && id in s.sessions && s.sessions[id].remote.Some?
    ensures s.sessions[id].call.phase == Returned(Ok(out, err, code))
    ensures var r := s.sessions[id].remote.value;
            out != r.out.written || err != r.err.written
  {
    hide Run, Next, Enabled, Draining;
    var s0 := StartFilling(id);
    var s1 := FillUp(s0, id, 0, QUEUE_CAPACITY + 1);
    var s2 := ChildEnds(s1, id, QUEUE_CAPACITY + 1);
    var s3 := ExitQueued(s2, id);
    s := Drain(s3, id);
    steps :| Run(Init(), steps) == Some(s);
    var o := s.sessions[id].call.phase.outcome;
    out, err, code := o.out, o.err, o.code;
    CollectExact(steps, s, id, out, err, code);
  }

  /** The exit message meets a queue of 64 outputs. */
  lemma ExitRefused(s: State, id: Id) returns (t: State)
    requires Reachable(s) && s.sessions.Keys == {id} && s.up == [Tagged(id, ExitCode(0))] && !s.broken && !s.closed
    requires var c := s.sessions[id].call;
             && c.phase == Collecting && c.queue.Some? && |c.queue.value| == QUEUE_CAPACITY
             && forall m <- c.queue.value :: m.Output?
    ensures Reachable(t) && id in t.sessions && t.up == [] && !t.broken && !t.closed
    ensures t.sessions[id].call.phase == Collecting && t.sessions[id].call.dropped == s.sessions[id].call.dropped + 1
    ensures t.sessions[id].sent == s.sessions[id].sent && !OnItsWay(t, id, ExitCode(0))
  {
    hide Reachable;
    Extend(s, Dispatch);
    t := Next(s, Dispatch);
  }

  /** In some run the only message dropped is the exit message; the agent sent it on a sound connection, and yet in no
      continuation does the call return with an exit code or an error of the agent. */
  lemma ExitMissing(id: Id) returns (s: State)
    requires id != ""
    ensures Reachable(s) && id in s.sessions && !s.broken && !s.closed
    ensures s.sessions[id].call.phase == Collecting && s.sessions[id].call.dropped == 1
    ensures ExitCode(0) in s.sessions[id].sent
    ensures forall steps :: Run(s, steps).Some? ==>
              && id in Run(s, steps).value.sessions
              && var p := Run(s, steps).value.sessions[id].call.phase; p == Collecting || p == Returned(ConnectionClosed)
  {
    hide Run, Next, Enabled, OnItsWay;
    var s0 := StartFilling(id);
    var s1 := FillUp(s0, id, 0, QUEUE_CAPACITY);
    var s2 := ChildEnds(s1, id, QUEUE_CAPACITY);
    s := ExitRefused(s2, id);
    var before :| Run(Init(), before) == Some(s);
    EndsIff(before, s, id, ExitCode(0));
    forall steps | Run(s, steps).Some?
      ensures id in Run(s, steps).value.sessions
      ensures var p := Run(s, steps).value.sessions[id].call.phase; p == Collecting || p == Returned(ConnectionClosed)
    {
      PastFeedingRun(s, id, steps);
    }
  }

  predicate PastFeeding(s: State, id: Id) {
    && id in s.sessions
    && var p := s.sessions[id].call.phase; p == Collecting || (p.Returned? && p.outcome != SendError)
  }

  lemma PastFeedingStep(s: State, id: Id, a: Step)
    requires PastFeeding(s, id) && Enabled(s, a)
    ensures PastFeeding(Next(s, a), id)
  {
    hide Payload, For, AgentNext, AgentSends, Handle;
  }

  lemma {:induction false} PastFeedingRun(s: State, id: Id, steps: seq<Step>)
    requires PastFeeding(s, id) && Run(s, steps).Some?
    ensures PastFeeding(Run(s, steps).value, id)
    decreases |steps|
  {
    hide PastFeeding, Enabled, Next;
    if steps != [] {
      PastFeedingStep(s, id, steps[0]);
      PastFeedingRun(Next(s, steps[0]), id, steps[1..]);
    }
  }
}
