/** Runs of the main process in which a client is not shown every byte exactly once. */
module AttachWitnesses {
  import opened Bytes
  import opened MainProcesses
  import opened AttachOutputs
  import opened Options

  ghost predicate Reachable(capacity: nat, s: State) {
    exists steps :: Run(Init(capacity), steps) == Some(s)
  }

  lemma {:induction false} RunLast(s: State, steps: seq<Step>, a: Step)
    requires Run(s, steps).Some? && Enabled(Run(s, steps).value, a)
    ensures Run(s, steps + [a]) == Some(Next(Run(s, steps).value, a))
    decreases |steps|
  {
    hide Enabled, Next;
    if steps == [] {
      assert steps + [a] == [a];
    } else {
      assert (steps + [a])[1..] == steps[1..] + [a];
      RunLast(Next(s, steps[0]), steps[1..], a);
    }
  }

  /** One more step of a run. */
  lemma Extend(capacity: nat, s: State, a: Step) returns (t: State)
    requires Reachable(capacity, s) && Enabled(s, a)
    ensures t == Next(s, a) && Reachable(capacity, t)
  {
    hide Run, Enabled, Next;
    t := Next(s, a);
    var steps :| Run(Init(capacity), steps) == Some(s);
    RunLast(Init(capacity), steps, a);
  }

  lemma InitReachable(capacity: nat)
    ensures Reachable(capacity, Init(capacity))
  {
    assert Run(Init(capacity), []) == Some(Init(capacity));
  }

  // ---------- Pieces of runs with one client ----------

  /** The reader has passed on all that was written, and the pipe is open. */
  predicate Caught(f: Fan) {
    f.stage.Idle? && !f.ended && !f.cut && !f.finished && |f.taken| == |f.written|
  }

  /** The process runs, and its only client is registered. */
  ghost predicate Running(s: State, id: Id) {
    && s.subs.Keys == {id} && s.childExit.None? && s.waited.None? && s.exitCode.None? && s.lock.None?
    && s.subs[id].listening && !s.subs[id].closed
  }

  /** A client subscribes, whatever the reader of stdout has in hand. */
  lemma Subscribes(capacity: nat, s: State, id: Id) returns (t: State)
    requires Reachable(capacity, s) && s.subs == map[] && s.lock.None? && s.exitCode.None?
    ensures Reachable(capacity, t) && t == s.(subs := t.subs) && t.subs.Keys == {id}
    ensures t.subs[id] == Sub(ReplayOut, Read(|s.out.published|, |s.out.ringed|, Last(capacity, s.out.ringed)),
                              Read(|s.err.published|, |s.err.ringed|, Last(capacity, s.err.ringed)),
                              true, false, [], [], [], [])
  {
    hide Reachable, Last;
    CapacityKept(capacity, s);
    t := Extend(capacity, s, Register(id));
    t := Extend(capacity, t, CopyOut(id));
    t := Extend(capacity, t, CopyErr(id));
  }

  lemma {:induction false} RunCapacity(s: State, steps: seq<Step>)
    requires Run(s, steps).Some?
    ensures Run(s, steps).value.capacity == s.capacity
    decreases |steps|
  {
    if steps != [] {
      RunCapacity(Next(s, steps[0]), steps[1..]);
    }
  }

  lemma CapacityKept(capacity: nat, s: State)
    requires Reachable(capacity, s)
    ensures s.capacity == capacity
  {
    hide Run;
    var steps :| Run(Init(capacity), steps) == Some(s);
    RunCapacity(Init(capacity), steps);
  }

  /** Its attach session sends both replays. */
  lemma Replays(capacity: nat, s: State, id: Id) returns (t: State)
    requires Reachable(capacity, s) && id in s.subs && s.subs[id].phase == ReplayOut
    requires s.subs[id].out.Read? && s.subs[id].err.Read?
    ensures Reachable(capacity, t) && id in t.subs && t == s.(subs := s.subs[id := t.subs[id]])
    ensures t.subs[id] == s.subs[id].(phase := Live, sent := t.subs[id].sent)
  {
    hide Reachable;
    t := Extend(capacity, s, SendOut(id));
    t := Extend(capacity, t, SendErr(id));
  }

  /** The process writes a byte, and the reader gets it as far as the ring buffer. */
  lemma Rings(capacity: nat, s: State) returns (t: State)
    requires Reachable(capacity, s) && Caught(s.out)
    ensures Reachable(capacity, t) && t == s.(out := t.out)
    ensures t.out.stage.Ringed? && |t.out.stage.chunk| == 1 && t.out.ringed == s.out.ringed + t.out.stage.chunk
    ensures t.out.published == s.out.published && !t.out.ended && !t.out.cut && !t.out.finished
    ensures |t.out.taken| == |t.out.written| && t.out.taken == s.out.taken + t.out.stage.chunk
  {
    hide Reachable;
    t := Extend(capacity, s, Pipe(Stdout, Write([7])));
    t := Extend(capacity, t, Pipe(Stdout, Take(1)));
    t := Extend(capacity, t, Pipe(Stdout, ToRing));
  }

  /** The reader offers the chunk to the client. */
  lemma Publishes(capacity: nat, s: State, id: Id) returns (t: State)
    requires Reachable(capacity, s) && s.subs.Keys == {id} && s.lock.None? && s.out.stage.Ringed?
    ensures Reachable(capacity, t) && t == s.(out := t.out, subs := t.subs) && t.subs.Keys == {id}
    ensures t.out == s.out.(published := t.out.published, stage := Idle)
    ensures t.subs[id] == Offer(s.subs[id], Event(Stdout, s.out.stage.chunk))
  {
    hide Reachable, Offer;
    t := Extend(capacity, s, Publish(Stdout));
  }

  /** The process ends with nothing in the pipes: its client's channel is closed. */
  lemma Ends(capacity: nat, s: State, id: Id) returns (t: State)
    requires Reachable(capacity, s) && Running(s, id) && Caught(s.out) && Caught(s.err)
    ensures Reachable(capacity, t) && t.subs.Keys == {id} && t.exitCode == Some(0)
    ensures t.subs[id] == s.subs[id].(listening := false, closed := true)
    ensures t.out.taken == s.out.taken && t.err.taken == s.err.taken
  {
    hide Reachable;
    t := Extend(capacity, s, Pipe(Stdout, End));
    t := Extend(capacity, t, Pipe(Stdout, ReadEnds));
    t := Extend(capacity, t, Pipe(Stderr, End));
    t := Extend(capacity, t, Pipe(Stderr, ReadEnds));
    t := Extend(capacity, t, Exit(0));
    t := Extend(capacity, t, WaitReturns);
    t := Extend(capacity, t, Finish);
  }

  /** The attach session sends what is left in the channel, and the exit code. */
  lemma {:induction false} Drains(capacity: nat, s: State, id: Id) returns (t: State)
    requires Reachable(capacity, s) && id in s.subs && s.subs[id].phase == Live && s.subs[id].closed && s.exitCode.Some?
    ensures Reachable(capacity, t) && t == s.(subs := t.subs) && id in t.subs
    ensures var (b, c) := (s.subs[id], t.subs[id]);
            && c.phase.Exited? && c.offers == b.offers && c.out == b.out && c.err == b.err
            && c.received == b.received + b.queue
    decreases |s.subs[id].queue|
  {
    hide Reachable;
    if s.subs[id].queue == [] {
      t := Extend(capacity, s, SendExit(id));
    } else {
      var u := Extend(capacity, s, SendLive(id));
      t := Drains(capacity, u, id);
      assert s.subs[id].received + s.subs[id].queue == u.subs[id].received + u.subs[id].queue;
    }
  }

  // ---------- Output that comes twice ----------

  /** A client subscribes while fanOut has a chunk in hand that is in the ring buffer and not yet published: it is shown
      the chunk twice. */
  lemma RepeatedChunk(capacity: nat, id: Id) returns (s: State)
    requires capacity > 0
    ensures Reachable(capacity, s) && id in s.subs && s.subs[id].phase.Exited?
    ensures |s.out.taken| == 1 && Shown(s.subs[id], Stdout) == s.out.taken + s.out.taken
  {
    hide Reachable, Payload, Run, Offer, KeptEvents, Events;
    InitReachable(capacity);
    var s1 := Rings(capacity, Init(capacity));
    var c := s1.out.stage.chunk;
    assert s1.out.ringed == [] + c == c == s1.out.taken;
    var s2 := Subscribes(capacity, s1, id);
    var s3 := Publishes(capacity, s2, id);
    OfferedFirst(s2.subs[id], Event(Stdout, c));
    var s4 := Replays(capacity, s3, id);
    var s5 := Ends(capacity, s4, id);
    s := Drains(capacity, s5, id);
    InvReachable(capacity, s);
    ClientFacts(s, id, Stdout);
    OnePayload(Event(Stdout, c));
    assert s.subs[id].received == [] + [Event(Stdout, c)] == [Event(Stdout, c)];
  }

  lemma OfferedFirst(b: Sub, e: Event)
    requires b.listening && b.queue == []
    ensures Offer(b, e) == b.(queue := [e], offers := b.offers + [Offering(e, true)])
  {
  }

  lemma OnePayload(e: Event)
    ensures Payload([e], e.stream) == e.data
  {
    PayloadAppend([], e, e.stream);
    assert [] + [e] == [e];
  }

  lemma InvReachable(capacity: nat, s: State)
    requires Reachable(capacity, s)
    ensures Inv(s)
  {
    hide Run, Inv;
    var steps :| Run(Init(capacity), steps) == Some(s);
    RunInv(capacity, steps, s);
  }

  // ---------- Output that is skipped ----------

  /** k chunks were offered to a client that takes none; its channel keeps the first ones. */
  ghost predicate Filling(s: State, id: Id, k: nat) {
    && Running(s, id) && Caught(s.out) && Caught(s.err)
    && var b := s.subs[id];
       && b.phase == Live && b.out.Read? && Seam(b.out) == 0 && |b.offers| == k
       && |b.queue| == (if k < LISTENER_CAPACITY then k else LISTENER_CAPACITY)
       && forall i :: 0 <= i < k ==> b.offers[i].event.stream == Stdout && (b.offers[i].kept <==> i < LISTENER_CAPACITY)
  }

  lemma StartsFilling(capacity: nat, id: Id) returns (s: State)
    ensures Reachable(capacity, s) && Filling(s, id, 0)
  {
    hide Reachable, Run, Last;
    InitReachable(capacity);
    var s1 := Subscribes(capacity, Init(capacity), id);
    s := Replays(capacity, s1, id);
    assert s.subs.Keys == {id};
  }

  lemma FillsOne(capacity: nat, s: State, id: Id, k: nat) returns (t: State)
    requires Reachable(capacity, s) && Filling(s, id, k)
    ensures Reachable(capacity, t) && Filling(t, id, k + 1)
  {
    hide Reachable;
    var s1 := Rings(capacity, s);
    t := Publishes(capacity, s1, id);
  }

  lemma {:induction false} Fills(capacity: nat, s: State, id: Id, k: nat, n: nat) returns (t: State)
    requires Reachable(capacity, s) && Filling(s, id, k) && k <= n
    ensures Reachable(capacity, t) && Filling(t, id, n)
    decreases n - k
  {
    hide Reachable, Filling;
    if k == n {
      t := s;
    } else {
      var u := FillsOne(capacity, s, id, k);
      t := Fills(capacity, u, id, k + 1, n);
    }
  }

  /** The client takes an event, and there is room for the next chunk. */
  lemma TakesOne(capacity: nat, s: State, id: Id) returns (t: State)
    requires Reachable(capacity, s) && Filling(s, id, LISTENER_CAPACITY + 1)
    ensures Reachable(capacity, t) && Running(t, id) && Caught(t.out) && Caught(t.err)
    ensures var (b, c) := (s.subs[id], t.subs[id]);
            && c.phase == Live && c.out == b.out
            && |c.offers| == LISTENER_CAPACITY + 2 && c.offers[..LISTENER_CAPACITY + 1] == b.offers
            && c.offers[LISTENER_CAPACITY + 1].kept && c.offers[LISTENER_CAPACITY + 1].event.stream == Stdout
  {
    hide Reachable;
    var s1 := Extend(capacity, s, SendLive(id));
    var s2 := Rings(capacity, s1);
    t := Publishes(capacity, s2, id);
  }

  /** A client that is slow for 257 chunks: it is told the exit code, it has received a chunk after one that was
      dropped, and what it was shown is not all. */
  lemma SkippedChunk(capacity: nat, id: Id) returns (s: State, i: nat, j: nat)
    ensures Reachable(capacity, s) && id in s.subs && s.subs[id].phase.Exited?
    ensures var b := s.subs[id];
            && i < j < |b.offers| && Missed(b.offers, Stdout, i)
            && b.offers[j].event.stream == Stdout && b.offers[j].kept
            && b.out.Read? && 0 <= Seam(b.out) && 0 <= From(b, Stdout) <= |s.out.taken|
            && Once(b, Stdout) != s.out.taken[From(b, Stdout)..]
  {
    hide Reachable, Run, Once, KeptEvents, Events, Offer, Caught;
    var s1 := StartsFilling(capacity, id);
    var s2 := Fills(capacity, s1, id, 0, LISTENER_CAPACITY + 1);
    var s3 := TakesOne(capacity, s2, id);
    var s4 := Ends(capacity, s3, id);
    s := Drains(capacity, s4, id);
    i, j := LISTENER_CAPACITY, LISTENER_CAPACITY + 1;
    assert s.subs[id].offers[..j][i] == s.subs[id].offers[i];
    InvReachable(capacity, s);
    ExitShowsAll(s, id, Stdout);
  }

  // ---------- Output that was never read ----------

  /** A run in which the process writes a byte and exits normally, and no client is ever shown it. */
  lemma TailLost(capacity: nat) returns (s: State)
    ensures Reachable(capacity, s) && s.exitCode == Some(0) && s.out.written == [104] && s.out.ringed == []
  {
    hide Reachable;
    InitReachable(capacity);
    s := Extend(capacity, Init(capacity), Pipe(Stdout, Write([104])));
    s := Extend(capacity, s, Exit(0));
    s := Extend(capacity, s, WaitReturns);
    s := Extend(capacity, s, Pipe(Stdout, ReadEnds));
    s := Extend(capacity, s, Pipe(Stderr, ReadEnds));
    s := Extend(capacity, s, Finish);
  }
}
