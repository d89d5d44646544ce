/** Runs of the broker in which jobs are never delivered, and in which waiting jobs change places. */
module BrokerWitnesses {
  import opened Bytes
  import opened Brokers
  import opened BrokerRuns
  import opened BrokerDeliveries
  import opened Options

  ghost predicate Reachable(s: State) {
    exists steps :: Run(Init(), steps) == Some(s)
  }

  lemma {:induction false} RunLast(s: State, steps: seq<Step>, a: Step)
    requires Run(s, steps).Some? && Enabled(Run(s, steps).value, a)
    ensures Run(s, steps + [a]) == Some(Next(Run(s, steps).value, a))
    decreases |steps|
  {
    hide Enabled, Next;
    if steps == [] {
      assert steps + [a] == [a];
    } else {
      assert (steps + [a])[1..] == steps[1..] + [a];
      RunLast(Next(s, steps[0]), steps[1..], a);
    }
  }

  /** One more step of a run. */
  lemma Extend(s: State, a: Step) returns (t: State)
    requires Reachable(s) && Enabled(s, a)
    ensures t == Next(s, a) && Reachable(t)
  {
    hide Run, Enabled, Next;
    t := Next(s, a);
    var steps :| Run(Init(), steps) == Some(s);
    RunLast(Init(), steps, a);
  }

  lemma InitReachable()
    ensures Reachable(Init())
  {
    assert Run(Init(), []) == Some(Init());
  }

  lemma InvReachable(s: State)
    requires Reachable(s)
    ensures Inv(s)
  {
    hide Run, Inv;
    var steps :| Run(Init(), steps) == Some(s);
    InitInv();
    RunKeeps(Init(), steps);
  }

  // ---------- A job that is given up ----------

  lemma StaysGivenUp(s: State, a: Step, m: Msg)
    requires Enabled(s, a) && m in s.givenUp
    ensures m in Next(s, a).givenUp
  {
    hide Sends, AfterSend, Target, AfterPoll, Moved;
  }

  /** What was given up stays so, however the run goes on: it is never pending, queued or delivered again. */
  lemma {:induction false} NeverDelivered(s: State, steps: seq<Step>, m: Msg, p: Place)
    requires Inv(s) && m in s.givenUp && Run(s, steps).Some? && p != GivenUp
    ensures m !in Contents(Run(s, steps).value, p)
    decreases |steps|
  {
    hide Inv, Next, Enabled, Contents;
    if steps == [] {
      GivenUpOnly(s, m, p);
    } else {
      StaysGivenUp(s, steps[0], m);
      StepKeeps(s, steps[0]);
      NeverDelivered(Next(s, steps[0]), steps[1..], m, p);
    }
  }

  lemma GivenUpOnly(s: State, m: Msg, p: Place)
    requires Inv(s) && m in s.givenUp && p != GivenUp
    ensures m !in Contents(s, p)
  {
    hide StoreInv, Distinct;
    assert m in Contents(s, GivenUp);
    assert forall q: Place :: m in Contents(s, q) <==> m in s.place && s.place[m] == q;
  }

  /** A job submitted while no runner has room, by the handler that does not requeue it, is lost: in no continuation does
      any runner get it. */
  lemma JobLost(m: Msg, more: seq<Step>, id: Id) returns (s: State)
    ensures Reachable(s) && m in s.place
    ensures Run(s, more).Some? ==>
              && m !in Contents(Run(s, more).value, Queued(id)) && m !in Contents(Run(s, more).value, Delivered(id))
              && m !in Contents(Run(s, more).value, Pending)
  {
    hide Reachable, Contents, Inv;
    InitReachable();
    s := Extend(Init(), Submit(m));
    s := Extend(s, GiveUp(0));
    InvReachable(s);
    if Run(s, more).Some? {
      NeverDelivered(s, more, m, Queued(id));
      NeverDelivered(s, more, m, Delivered(id));
      NeverDelivered(s, more, m, Pending);
    }
  }

  /** A job that was queued for a session which is deleted while no poll holds its channel is lost as well: it is never
      delivered, nor is it ever anywhere but in that queue. */
  lemma DeletedLosesJob(m: Msg, id: Id, more: seq<Step>, p: Place) returns (s: State)
    requires p != Queued(id)
    ensures Reachable(s) && m in Contents(s, Queued(id)) && !Deliverable(s, m, id)
    ensures Run(s, more).Some? ==> m !in Contents(Run(s, more).value, p)
  {
    hide Reachable, Inv, Contents, Deliverable, Run;
    InitReachable();
    s := Extend(Init(), Create(id));
    var done := SubmitToOnly(s, m, id);
    s := Extend(done, Delete(id));
    InvReachable(s);
    QueuedIs(s, m, id);
    var steps := StepsTo(s);
    NoHolders(s, id);
    DeliverableIff(steps, s, id, 0);
    StrandedAt(s, m, id, 0);
    if Run(s, more).Some? {
      StrandedStays(s, more, m, id, p);
    }
  }

  lemma StepsTo(s: State) returns (steps: seq<Step>)
    requires Reachable(s)
    ensures Run(Init(), steps) == Some(s)
  {
    steps :| Run(Init(), steps) == Some(s);
  }

  lemma NoHolders(s: State, id: Id)
    requires s.polls == map[]
    ensures Holders(s, id) == {}
  {
  }

  lemma QueuedIs(s: State, m: Msg, id: Id)
    requires id in s.store.chans && s.store.chans[id].buf == [m]
    ensures m in Contents(s, Queued(id))
  {
  }

  lemma SubmitToOnly(s: State, m: Msg, id: Id) returns (t: State)
    requires Reachable(s) && s.store == Store({id}, map[id := Chan([], [], false)], [], 0)
    requires s.place == map[] && s.polls == map[]
    ensures Reachable(t) && t.store.sessions == {id} && t.store.chans == map[id := Chan([m], [], false)]
    ensures t.polls == map[]
  {
    hide Reachable, FirstRoom, At;
    SendIsFirstFree(s.store, m);
    assert id in s.store.sessions && |s.store.chans[id].buf| < CAPACITY;
    assert Sends(s.store) && Target(s.store) == id;
    t := Extend(s, Submit(m));
    assert [] + [m] == [m];
  }

  // ---------- Two drains that overlap ----------

  /** The first drain cannot send a; b is requeued and the second drain takes it; the first puts a back, and then the
      second puts b in front of it. */
  lemma OverlapReorders(a: Msg, b: Msg) returns (s: State)
    requires a != b
    ensures Reachable(s) && s.overlapped && s.drains == map[]
    ensures s.requeued == [a, b] && s.store.pending == [b, a] && !Subsequence(s.store.pending, s.requeued)
  {
    hide Reachable;
    InitReachable();
    var s2 := TwoDrains(a, b);
    var s3 := Extend(s2, DrainPutsBack(1));
    s := Extend(s3, DrainPutsBack(2));
    assert [b] + ([a] + []) == [b, a] && s.drains == map[];
    NotInOrder(a, b);
  }

  lemma NotInOrder(a: Msg, b: Msg)
    requires a != b
    ensures !Subsequence([b, a], [a, b])
  {
    assert [a, b][..1] == [a] && [b, a][..1] == [b];
    if Subsequence([b, a], [a, b]) {
      assert Subsequence([b, a], [a]);
      assert [a][..0] == [];
      assert Subsequence([b], []) || Subsequence([b, a], []);
      assert false;
    }
  }

  /** Both messages failed to be sent by their drains, and neither was put back yet. */
  lemma TwoDrains(a: Msg, b: Msg) returns (s: State)
    requires a != b
    ensures Reachable(s) && s.overlapped && s.store == Init().store && s.requeued == [a, b]
    ensures s.drains == map[1 := Drain([], [a]), 2 := Drain([], [b])]
  {
    hide Reachable;
    InitReachable();
    s := Extend(Init(), Submit(a));
    s := Extend(s, Requeue(0));
    assert s.store.pending == [a] && s.requeued == [a];
    s := Extend(s, DrainTakes(1));
    s := Extend(s, DrainSends(1));
    assert s.drains == map[1 := Drain([], [a])] && s.held == [];
    s := Extend(s, Submit(b));
    s := Extend(s, Requeue(0));
    assert s.store.pending == [b] && s.requeued == [a, b];
    s := Extend(s, DrainTakes(2));
    s := Extend(s, DrainSends(2));
    assert s.drains == map[1 := Drain([], [a]), 2 := Drain([], [b])];
  }
}
