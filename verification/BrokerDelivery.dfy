/** Which buffered messages can still reach a runner, and which submitted ones wait outside the queues. */
module BrokerDeliveries {
  import opened Bytes
  import opened Brokers
  import opened BrokerRuns
  import BrokerOrders
  import opened Options

  /** The polls under way that hold the channel of a session. */
  function Holders(s: State, id: Id): set<nat> {
    set p | p in s.polls && s.polls[p] == id
  }

  ghost predicate Deliverable(s: State, m: Msg, id: Id) {
    exists steps :: Run(s, steps).Some? && m in Contents(Run(s, steps).value, Delivered(id))
  }

  /** The session is gone and too few polls hold its channel for this message to be received. */
  ghost predicate Stranded(s: State, m: Msg, id: Id) {
    && id in s.store.chans && id !in s.store.sessions
    && exists i :: |Holders(s, id)| <= i < |s.store.chans[id].buf| && s.store.chans[id].buf[i] == m
  }

  lemma StrandedAt(s: State, m: Msg, id: Id, i: nat)
    requires id in s.store.chans && id !in s.store.sessions
    requires |Holders(s, id)| <= i < |s.store.chans[id].buf| && s.store.chans[id].buf[i] == m
    ensures Stranded(s, m, id)
  {
  }

  /** A send reaches only sessions that exist. */
  lemma SendPassesBy(s: Store, m: Msg, id: Id)
    requires StoreInv(s) && id in s.chans && id !in s.sessions
    ensures id in AfterSend(s, m).chans && AfterSend(s, m).chans[id] == s.chans[id] && AfterSend(s, m).sessions == s.sessions
  {
    hide FirstRoom, At;
    SendEffect(s, m);
    SendIsFirstFree(s, m);
  }

  lemma ReceiveStranded(s: State, p: nat, m: Msg, id: Id)
    requires Inv(s) && Enabled(s, Receive(p)) && Stranded(s, m, id)
    ensures Stranded(Next(s, Receive(p)), m, id)
  {
    hide PlacedOnce;
    var t := Next(s, Receive(p));
    var i :| |Holders(s, id)| <= i < |s.store.chans[id].buf| && s.store.chans[id].buf[i] == m;
    if s.polls[p] == id {
      assert Holders(t, id) == Holders(s, id) - {p} && p in Holders(s, id);
      StrandedAt(t, m, id, i - 1);
    } else {
      assert Holders(t, id) == Holders(s, id);
      StrandedAt(t, m, id, i);
    }
  }

  /** The step leaves the channel alone, and no poll takes hold of it. */
  lemma StrandedSame(s: State, t: State, m: Msg, id: Id)
    requires Stranded(s, m, id) && Holders(t, id) <= Holders(s, id)
    requires id in t.store.chans && t.store.chans[id].buf == s.store.chans[id].buf && id !in t.store.sessions
    ensures Stranded(t, m, id)
  {
    hide Holders;
    var i :| |Holders(s, id)| <= i < |s.store.chans[id].buf| && s.store.chans[id].buf[i] == m;
    Fewer(Holders(t, id), Holders(s, id));
    StrandedAt(t, m, id, i);
  }

  lemma Fewer(a: set<nat>, b: set<nat>)
    requires a <= b
    ensures |a| <= |b|
  {
    assert b == a + (b - a);
  }

  lemma SendStranded(s: State, a: Step, m: Msg, id: Id)
    requires Inv(s) && Enabled(s, a) && Stranded(s, m, id) && (a.Submit? || a.DrainSends?)
    ensures Stranded(Next(s, a), m, id)
  {
    hide PlacedOnce, StoreInv, Sends, AfterSend, Target;
    SendPassesBy(s.store, if a.Submit? then a.m else s.drains[a.d].todo[0], id);
    StrandedSame(s, Next(s, a), m, id);
  }

  lemma StrandedStep(s: State, a: Step, m: Msg, id: Id)
    requires Inv(s) && Enabled(s, a) && Stranded(s, m, id)
    ensures Stranded(Next(s, a), m, id)
  {
    if a.Receive? {
      hide Inv, Stranded;
      ReceiveStranded(s, a.p, m, id);
    } else if a.Submit? || a.DrainSends? {
      hide Inv, Stranded;
      SendStranded(s, a, m, id);
    } else {
      hide Inv, Moved, Without;
      StrandedSame(s, Next(s, a), m, id);
    }
  }

  /** Such a message stays where it is. */
  lemma {:induction false} StrandedStays(s: State, steps: seq<Step>, m: Msg, id: Id, p: Place)
    requires Inv(s) && Stranded(s, m, id) && Run(s, steps).Some? && p != Queued(id)
    ensures m !in Contents(Run(s, steps).value, p)
    decreases |steps|
  {
    hide Inv, Next, Enabled;
    if steps == [] {
      assert m in Contents(s, Queued(id));
      BrokerOrders.PlaceOf(s, Queued(id), m);
      BrokerOrders.PlaceOf(s, p, m);
    } else {
      StrandedStep(s, steps[0], m, id);
      StepKeeps(s, steps[0]);
      StrandedStays(Next(s, steps[0]), steps[1..], m, id, p);
    }
  }

  lemma OneMore(s: State, a: Step, m: Msg, id: Id)
    requires Enabled(s, a) && Deliverable(Next(s, a), m, id)
    ensures Deliverable(s, m, id)
  {
    hide Next, Enabled, Contents;
    var t := Next(s, a);
    var steps :| Run(t, steps).Some? && m in Contents(Run(t, steps).value, Delivered(id));
    assert ([a] + steps)[1..] == steps;
    assert Run(s, [a] + steps) == Run(t, steps);
  }

  lemma {:induction false} FreshFor(used: set<nat>) returns (p: nat)
    ensures p !in used
    ensures forall x <- used :: x < p
  {
    p := 0;
    if used != {} {
      var x :| x in used;
      var q := FreshFor(used - {x});
      p := if q <= x then x + 1 else q;
      assert forall y <- used :: y == x || y in used - {x};
    }
  }

  lemma ReceiveNext(s: State, p: nat, i: nat, id: Id)
    requires Inv(s) && p in Holders(s, id) && id in s.store.chans && i < |s.store.chans[id].buf|
    ensures Enabled(s, Receive(p))
    ensures var t := Next(s, Receive(p));
            && id in t.store.chans && t.store.chans[id].buf == s.store.chans[id].buf[1..]
            && s.store.chans[id].buf[0] in t.store.chans[id].got
            && t.store.sessions == s.store.sessions && |Holders(t, id)| == |Holders(s, id)| - 1
  {
    hide PlacedOnce, StoreInv;
    var t := Next(s, Receive(p));
    assert Holders(t, id) == Holders(s, id) - {p};
  }

  lemma {:induction false} CanDeliver(s: State, id: Id, i: nat)
    requires Inv(s) && id in s.store.chans && i < |s.store.chans[id].buf|
    requires id in s.store.sessions || i < |Holders(s, id)|
    ensures Deliverable(s, s.store.chans[id].buf[i], id)
    decreases i, Holders(s, id) == {}
  {
    hide Inv, Next, Enabled, Holders;
    var m := s.store.chans[id].buf[i];
    if Holders(s, id) == {} {
      var p := FreshFor(s.polls.Keys);
      PollNext(s, p, id);
      StepKeeps(s, Step.Poll(p, id));
      CanDeliver(Next(s, Step.Poll(p, id)), id, i);
      OneMore(s, Step.Poll(p, id), m, id);
    } else {
      var p :| p in Holders(s, id);
      ReceiveNext(s, p, i, id);
      var t := Next(s, Receive(p));
      StepKeeps(s, Receive(p));
      if i == 0 {
        assert Run(t, []) == Some(t) && m in Contents(t, Delivered(id));
      } else {
        CanDeliver(t, id, i - 1);
      }
      OneMore(s, Receive(p), m, id);
    }
  }

  lemma PollNext(s: State, p: nat, id: Id)
    requires p !in s.polls && id in s.store.sessions
    ensures Enabled(s, Step.Poll(p, id)) && Next(s, Step.Poll(p, id)).store == s.store
    ensures Holders(Next(s, Step.Poll(p, id)), id) != {}
  {
    assert p in Holders(Next(s, Step.Poll(p, id)), id);
  }

  /** In every reachable state: the message at index i of a channel can still be received if and only if its session
      exists, or more than i polls hold the channel. */
  lemma DeliverableIff(done: seq<Step>, s: State, id: Id, i: nat)
    requires Run(Init(), done) == Some(s) && id in s.store.chans && i < |s.store.chans[id].buf|
    ensures Deliverable(s, s.store.chans[id].buf[i], id) <==> id in s.store.sessions || i < |Holders(s, id)|
  {
    hide Run, Inv, Contents, Holders;
    InitInv();
    RunKeeps(Init(), done);
    var m := s.store.chans[id].buf[i];
    if id in s.store.sessions || i < |Holders(s, id)| {
      CanDeliver(s, id, i);
    } else {
      StrandedAt(s, m, id, i);
      if Deliverable(s, m, id) {
        var steps :| Run(s, steps).Some? && m in Contents(Run(s, steps).value, Delivered(id));
        StrandedStays(s, steps, m, id, Delivered(id));
        assert false;
      }
    }
  }

  // ---------- Sends that fail ----------

  /** The first send of the message failed: its sender still holds it, gave it up, or requeued it once. */
  ghost predicate SendFailed(s: State, m: Msg) {
    m in s.held || m in s.givenUp || m in s.requeued
  }

  ghost predicate NoRoom(s: Store)
    requires s.sessions <= s.chans.Keys
  {
    forall id <- s.sessions :: |s.chans[id].buf| == CAPACITY
  }

  lemma InWithout(q: seq<Msg>, i: nat, m: Msg)
    requires i < |q| && m != q[i]
    ensures m in Without(q, i) <==> m in q
  {
    if m in q {
      var k :| 0 <= k < |q| && q[k] == m;
      assert Without(q, i)[if k < i then k else k - 1] == m;
    }
  }

  lemma FailedStays(s: State, a: Step, m: Msg)
    requires Enabled(s, a) && a != Submit(m)
    ensures SendFailed(Next(s, a), m) <==> SendFailed(s, m)
  {
    hide Sends, AfterSend, Target, AfterPoll, Moved, Without;
    if a.Requeue? || a.GiveUp? {
      if m != s.held[a.i] {
        InWithout(s.held, a.i, m);
      }
    }
  }

  lemma {:induction false} FailedLasts(s: State, steps: seq<Step>, m: Msg)
    requires m in s.place && Run(s, steps).Some?
    ensures SendFailed(Run(s, steps).value, m) <==> SendFailed(s, m)
    decreases |steps|
  {
    hide Next, SendFailed;
    if steps != [] {
      var a := steps[0];
      NotAgain(s, a, m);
      FailedStays(s, a, m);
      KeysGrow(s, a);
      assert m in s.place.Keys;
      FailedLasts(Next(s, a), steps[1..], m);
    }
  }

  lemma NotAgain(s: State, a: Step, m: Msg)
    requires m in s.place && Enabled(s, a)
    ensures a != Submit(m)
  {
  }

  lemma {:induction false} RequeuedRun(s: State, steps: seq<Step>)
    requires Inv(s) && BrokerOrders.Requeued(s) && Run(s, steps).Some?
    ensures BrokerOrders.Requeued(Run(s, steps).value)
    decreases |steps|
  {
    hide Inv, BrokerOrders.Requeued, Next, Enabled;
    if steps != [] {
      StepKeeps(s, steps[0]);
      BrokerOrders.RequeuedStep(s, steps[0]);
      RequeuedRun(Next(s, steps[0]), steps[1..]);
    }
  }

  lemma NewNeverFailed(s: State, m: Msg)
    requires Inv(s) && BrokerOrders.Requeued(s) && m !in s.place
    ensures !SendFailed(s, m)
  {
    hide StoreInv, Distinct;
    assert m !in Contents(s, Held) && m !in Contents(s, GivenUp);
  }

  lemma SubmitFails(s: State, m: Msg)
    requires Inv(s) && Enabled(s, Submit(m)) && !SendFailed(s, m)
    ensures SendFailed(Next(s, Submit(m)), m) <==> NoRoom(s.store)
  {
    hide PlacedOnce, Target, AfterSend, FirstRoom;
    SendIsFirstFree(s.store, m);
  }

  /** In every run a message is held by its sender, given up, or has ever been pending if and only if no session had room
      in its queue when it was submitted. */
  lemma HeldIff(before: seq<Step>, s: State, m: Msg, after: seq<Step>, t: State)
    requires Run(Init(), before) == Some(s) && Enabled(s, Submit(m)) && Run(Next(s, Submit(m)), after) == Some(t)
    ensures s.store.sessions <= s.store.chans.Keys
    ensures SendFailed(t, m) <==> NoRoom(s.store)
  {
    hide Run, SendFailed, Sends, Target, AfterSend, PlacedOnce;
    InitInv();
    RunKeeps(Init(), before);
    RequeuedRun(Init(), before);
    NewNeverFailed(s, m);
    SubmitFails(s, m);
    FailedLasts(Next(s, Submit(m)), after, m);
  }
}
