/** Exactly which runs of the broker keep waiting jobs in the order in which they were requeued. */
module BrokerOrders {
  import opened Bytes
  import opened Brokers
  import opened BrokerRuns
  import opened Options

  /** q holds a at a smaller index than b. */
  ghost predicate Before(q: seq<Msg>, a: Msg, b: Msg) {
    exists i, j :: 0 <= i < j < |q| && q[i] == a && q[j] == b
  }

  /** The messages of w stand in w as they do in q. */
  ghost predicate Ordered(w: seq<Msg>, q: seq<Msg>) {
    forall i, j :: 0 <= i < j < |w| ==> Before(q, w[i], w[j])
  }

  /** Any two pending messages stand in the order in which they were requeued. */
  ghost predicate InOrder(s: State) {
    Ordered(s.store.pending, s.requeued)
  }

  /** The step puts a message in front of a pending one that was requeued earlier. Both lists are there to see before
      the drain puts its messages back. */
  ghost predicate Overtakes(s: State, a: Step) {
    && a.DrainPutsBack? && a.d in s.drains
    && exists x, y :: x in s.drains[a.d].left && y in s.store.pending && Before(s.requeued, y, x)
  }

  ghost predicate AlwaysInOrder(s: State, steps: seq<Step>)
    decreases |steps|
  {
    InOrder(s) && (steps != [] && Enabled(s, steps[0]) ==> AlwaysInOrder(Next(s, steps[0]), steps[1..]))
  }

  ghost predicate NeverOvertakes(s: State, steps: seq<Step>)
    decreases |steps|
  {
    steps != [] && Enabled(s, steps[0]) ==>
      !Overtakes(s, steps[0]) && NeverOvertakes(Next(s, steps[0]), steps[1..])
  }

  // ---------- Orders ----------

  lemma BeforeGrows(q: seq<Msg>, m: Msg, a: Msg, b: Msg)
    requires Before(q, a, b)
    ensures Before(q + [m], a, b)
  {
    var i, j :| 0 <= i < j < |q| && q[i] == a && q[j] == b;
    assert (q + [m])[i] == a && (q + [m])[j] == b;
  }

  lemma OrderedGrows(w: seq<Msg>, q: seq<Msg>, m: Msg)
    requires Ordered(w, q)
    ensures Ordered(w, q + [m])
  {
    hide Before;
    forall i, j | 0 <= i < j < |w|
      ensures Before(q + [m], w[i], w[j])
    {
      BeforeGrows(q, m, w[i], w[j]);
    }
  }

  /** A message that joins both ends. */
  lemma OrderedBothGrow(w: seq<Msg>, q: seq<Msg>, m: Msg)
    requires Ordered(w, q) && forall x <- w :: x in q
    ensures Ordered(w + [m], q + [m])
  {
    OrderedGrows(w, q, m);
    forall i, j | 0 <= i < j < |w + [m]|
      ensures Before(q + [m], (w + [m])[i], (w + [m])[j])
    {
      if j == |w| {
        assert w[i] in w;
        var k :| 0 <= k < |q| && q[k] == w[i];
        assert (q + [m])[k] == w[i] && (q + [m])[|q|] == m;
      }
    }
  }

  lemma OrderedTail(w: seq<Msg>, q: seq<Msg>, k: nat)
    requires Ordered(w, q) && k <= |w|
    ensures Ordered(w[k..], q) && Ordered(w[..k], q)
  {
    hide Before;
  }

  lemma OrderedDrops(a: seq<Msg>, m: Msg, b: seq<Msg>, q: seq<Msg>)
    requires Ordered(a + ([m] + b), q)
    ensures Ordered(a + b, q)
  {
    hide Before;
    var w := a + ([m] + b);
    forall i, j | 0 <= i < j < |a + b|
      ensures Before(q, (a + b)[i], (a + b)[j])
    {
      var k := if i < |a| then i else i + 1;
      var l := if j < |a| then j else j + 1;
      assert (a + b)[i] == w[k] && (a + b)[j] == w[l];
    }
  }

  /** Two lists, one after the other, are in order if and only if both are and none of the second belongs before one of
      the first. */
  lemma OrderedJoin(a: seq<Msg>, b: seq<Msg>, q: seq<Msg>)
    requires Ordered(a, q) && Ordered(b, q) && Distinct(q)
    requires (forall x <- a :: x in q && x !in b) && (forall y <- b :: y in q)
    ensures Ordered(a + b, q) <==> forall x, y :: x in a && y in b ==> !Before(q, y, x)
  {
    if Ordered(a + b, q) {
      forall x, y | x in a && y in b
        ensures !Before(q, y, x)
      {
        var i :| 0 <= i < |a| && a[i] == x;
        var j :| 0 <= j < |b| && b[j] == y;
        assert (a + b)[i] == x && (a + b)[|a| + j] == y;
        NotBoth(q, x, y);
      }
    } else {
      var i, j :| 0 <= i < j < |a + b| && !Before(q, (a + b)[i], (a + b)[j]);
      assert i < |a| <= j;
      assert a[i] in a && b[j - |a|] in b;
      OneOrOther(q, a[i], b[j - |a|]);
    }
  }

  lemma NotBoth(q: seq<Msg>, a: Msg, b: Msg)
    requires Distinct(q) && Before(q, a, b)
    ensures !Before(q, b, a)
  {
  }

  lemma OneOrOther(q: seq<Msg>, a: Msg, b: Msg)
    requires a in q && b in q && a != b
    ensures Before(q, a, b) || Before(q, b, a)
  {
    var i :| 0 <= i < |q| && q[i] == a;
    var j :| 0 <= j < |q| && q[j] == b;
    assert i < j || j < i;
  }

  // ---------- The invariant ----------

  /** A message on its way through the pending list. */
  predicate UnderWay(p: Place) {
    p.Pending? || p.Todo? || p.Left?
  }

  /** Every message is requeued at most once, after its sender held it, and all that wait were requeued. */
  ghost predicate Requeued(s: State) {
    && Distinct(s.requeued)
    && (forall m <- s.requeued :: m in s.place && s.place[m] != Held)
    && (forall m <- s.place :: UnderWay(s.place[m]) ==> m in s.requeued)
  }

  /** Each drain has its messages in order. */
  ghost predicate DrainsOrdered(s: State) {
    forall d <- s.drains :: Ordered(s.drains[d].left + s.drains[d].todo, s.requeued)
  }

  lemma PlaceOf(s: State, p: Place, m: Msg)
    requires Inv(s)
    ensures m in Contents(s, p) <==> m in s.place && s.place[m] == p
  {
    hide StoreInv, Contents, Distinct;
  }

  /** A message comes to a new place. */
  lemma OnePlaced(s: State, t: State, m: Msg, p: Place)
    requires Requeued(s) && t.place == s.place[m := p] && t.requeued == s.requeued
    requires p == Held ==> m !in s.place
    requires UnderWay(p) ==> m in s.requeued
    ensures Requeued(t)
  {
    hide Distinct;
  }

  lemma OneRequeued(s: State, t: State, m: Msg)
    requires Requeued(s) && m in s.place && s.place[m] == Held
    requires t.place == s.place[m := Pending] && t.requeued == s.requeued + [m]
    ensures Requeued(t)
  {
    assert forall x <- t.requeued :: x in s.requeued || x == m;
  }

  lemma AllPlaced(s: State, t: State, p: Place, q: Place)
    requires Requeued(s) && t.place == Moved(s.place, p, q) && t.requeued == s.requeued && UnderWay(p) && UnderWay(q)
    ensures Requeued(t)
  {
    hide Distinct;
  }

  lemma RequeuedStep(s: State, a: Step)
    requires Inv(s) && Requeued(s) && Enabled(s, a)
    ensures Requeued(Next(s, a))
  {
    hide Inv, Requeued, Sends, AfterSend, Target, AfterPoll, Without, Moved;
    var t := Next(s, a);
    match a
    case Submit(m) => OnePlaced(s, t, m, if Sends(s.store) then Queued(Target(s.store)) else Held);
    case Requeue(i) =>
      PlaceOf(s, Held, s.held[i]);
      OneRequeued(s, t, s.held[i]);
    case GiveUp(i) => OnePlaced(s, t, s.held[i], GivenUp);
    case DrainTakes(d) => AllPlaced(s, t, Pending, Todo(d));
    case DrainSends(d) =>
      var m := s.drains[d].todo[0];
      PlaceOf(s, Todo(d), m);
      TodoRequeued(s, d, m);
      OnePlaced(s, t, m, if Sends(s.store) then Queued(Target(s.store)) else Left(d));
    case DrainPutsBack(d) => AllPlaced(s, t, Left(d), Pending);
    case Receive(p) => OnePlaced(s, t, s.store.chans[s.polls[p]].buf[0], Delivered(s.polls[p]));
    case _ => SamePlaced(s, t);
  }

  lemma TodoRequeued(s: State, d: nat, m: Msg)
    requires Requeued(s) && m in s.place && s.place[m] == Todo(d)
    ensures m in s.requeued
  {
  }

  lemma SamePlaced(s: State, t: State)
    requires Requeued(s) && t.place == s.place && t.requeued == s.requeued
    ensures Requeued(t)
  {
  }

  lemma PendingRequeued(s: State)
    requires Inv(s) && Requeued(s)
    ensures forall m <- s.store.pending :: m in s.requeued
    ensures forall d <- s.drains :: forall m <- s.drains[d].left :: m in s.requeued && m !in s.store.pending
  {
    hide Inv, Distinct;
    forall m <- s.store.pending
      ensures m in s.requeued
    {
      PlaceOf(s, Pending, m);
    }
    forall d <- s.drains
      ensures forall m <- s.drains[d].left :: m in s.requeued && m !in s.store.pending
    {
      forall m <- s.drains[d].left
        ensures m in s.requeued && m !in s.store.pending
      {
        PlaceOf(s, Left(d), m);
        PlaceOf(s, Pending, m);
      }
    }
  }

  /** Each drain keeps its messages in order: it takes them in order, tries the first and keeps it last. */
  lemma DrainsStep(s: State, a: Step)
    requires DrainsOrdered(s) && InOrder(s) && Enabled(s, a)
    ensures DrainsOrdered(Next(s, a))
  {
    hide Ordered, Sends, AfterSend, Target, AfterPoll, Without, Moved;
    var t := Next(s, a);
    forall d <- t.drains
      ensures Ordered(t.drains[d].left + t.drains[d].todo, t.requeued)
    {
      match a
      case Requeue(i) => OrderedGrows(s.drains[d].left + s.drains[d].todo, s.requeued, s.held[i]);
      case DrainTakes(e) =>
        if d == e {
          assert [] + s.store.pending == s.store.pending;
        }
      case DrainSends(e) =>
        if d == e {
          DrainStep(s.drains[d], s.requeued);
        }
      case _ =>
    }
  }

  lemma DrainStep(r: Drain, q: seq<Msg>)
    requires r.todo != [] && Ordered(r.left + r.todo, q)
    ensures Ordered(r.left + r.todo[1..], q)
    ensures Ordered((r.left + [r.todo[0]]) + r.todo[1..], q)
  {
    hide Ordered;
    assert r.todo == [r.todo[0]] + r.todo[1..];
    OrderedDrops(r.left, r.todo[0], r.todo[1..], q);
    assert (r.left + [r.todo[0]]) + r.todo[1..] == r.left + r.todo;
  }

  /** From a state in order, exactly the steps that overtake lead out of order. */
  lemma OvertakeStep(s: State, a: Step)
    requires Inv(s) && Requeued(s) && DrainsOrdered(s) && InOrder(s) && Enabled(s, a)
    ensures InOrder(Next(s, a)) <==> !Overtakes(s, a)
  {
    hide Inv, Ordered, Sends, AfterSend, Target, AfterPoll, Without, Moved, Before, Distinct;
    match a
    case Requeue(i) =>
      PendingRequeued(s);
      OrderedBothGrow(s.store.pending, s.requeued, s.held[i]);
    case DrainPutsBack(d) =>
      PendingRequeued(s);
      assert s.drains[d].left + [] == s.drains[d].left;
      OrderedJoin(s.drains[d].left, s.store.pending, s.requeued);
    case DrainTakes(d) => NothingOrdered(s.requeued);
    case Submit(m) => SendKeepsPending(s.store, m);
    case DrainSends(d) => SendKeepsPending(s.store, s.drains[d].todo[0]);
    case Receive(p) => PollKeepsPending(s.store, s.polls[p]);
    case _ =>
  }

  lemma NothingOrdered(q: seq<Msg>)
    ensures Ordered([], q)
  {
  }

  lemma PollKeepsPending(s: Store, id: Id)
    ensures AfterPoll(s, id).pending == s.pending
  {
  }

  lemma {:induction false} OvertakeRun(s: State, steps: seq<Step>)
    requires Inv(s) && Requeued(s) && DrainsOrdered(s) && InOrder(s)
    ensures AlwaysInOrder(s, steps) <==> NeverOvertakes(s, steps)
    decreases |steps|
  {
    hide Inv, Requeued, DrainsOrdered, InOrder, Overtakes, Enabled, Next;
    if steps != [] && Enabled(s, steps[0]) {
      var t := Next(s, steps[0]);
      OvertakeStep(s, steps[0]);
      if InOrder(t) {
        StepKeeps(s, steps[0]);
        RequeuedStep(s, steps[0]);
        DrainsStep(s, steps[0]);
        OvertakeRun(t, steps[1..]);
      } else {
        OutOfOrder(t, steps[1..]);
      }
    }
  }

  lemma OutOfOrder(s: State, steps: seq<Step>)
    requires !InOrder(s)
    ensures !AlwaysInOrder(s, steps)
  {
  }

  /** In every run, pending messages stand at all times in the order in which they were requeued, if and only if no drain
      puts a message back in front of one that was requeued earlier. */
  lemma KeepsOrderIff(steps: seq<Step>)
    ensures AlwaysInOrder(Init(), steps) <==> NeverOvertakes(Init(), steps)
  {
    hide AlwaysInOrder, NeverOvertakes;
    InitInv();
    OvertakeRun(Init(), steps);
  }

  // ---------- Drains that do not overlap ----------

  lemma {:induction false} SubsequenceOrdered(w: seq<Msg>, q: seq<Msg>)
    requires Subsequence(w, q)
    ensures Ordered(w, q)
    decreases |q|
  {
    if w != [] {
      var front, last := q[..|q| - 1], q[|q| - 1];
      assert q == front + [last];
      if w[|w| - 1] == last && Subsequence(w[..|w| - 1], front) {
        SubsequenceOrdered(w[..|w| - 1], front);
        forall x <- w[..|w| - 1]
          ensures x in front
        {
          SubsequenceMember(w[..|w| - 1], front, x);
        }
        OrderedBothGrow(w[..|w| - 1], front, last);
        assert w == w[..|w| - 1] + [last];
      } else {
        SubsequenceOrdered(w, front);
        OrderedGrows(w, front, last);
      }
    }
  }

  lemma WaitingEndsPending(s: State, w: seq<Msg>)
    requires Waiting(s, w)
    ensures |s.store.pending| <= |w| && s.store.pending == w[|w| - |s.store.pending|..]
  {
  }

  lemma PendingInOrder(steps: seq<Step>, s: State)
    requires Run(Init(), steps) == Some(s) && !s.overlapped
    ensures InOrder(s)
  {
    hide Run, Waiting, Subsequence, Ordered;
    PendingKeepsOrder(steps, s);
    var w :| Waiting(s, w) && Subsequence(w, s.requeued);
    SubsequenceOrdered(w, s.requeued);
    WaitingEndsPending(s, w);
    OrderedTail(w, s.requeued, |w| - |s.store.pending|);
  }

  lemma OverlapStays(s: State, a: Step)
    requires Enabled(s, a) && s.overlapped
    ensures Next(s, a).overlapped
  {
    hide Sends, AfterSend, Target, AfterPoll, Moved, Without;
  }

  lemma {:induction false} OverlapLasts(s: State, steps: seq<Step>)
    requires Run(s, steps).Some? && s.overlapped
    ensures Run(s, steps).value.overlapped
    decreases |steps|
  {
    hide Enabled, Next;
    if steps != [] {
      OverlapStays(s, steps[0]);
      OverlapLasts(Next(s, steps[0]), steps[1..]);
    }
  }

  lemma {:induction false} RunConcat(s: State, a: seq<Step>, b: seq<Step>)
    requires Run(s, a).Some?
    ensures Run(s, a + b) == Run(Run(s, a).value, b)
    decreases |a|
  {
    hide Enabled, Next;
    if a == [] {
      assert a + b == b;
    } else {
      assert (a + b)[1..] == a[1..] + b;
      RunConcat(Next(s, a[0]), a[1..], b);
    }
  }

  lemma {:induction false} InOrderFrom(done: seq<Step>, s: State, steps: seq<Step>)
    requires Run(Init(), done) == Some(s) && Run(s, steps).Some? && !Run(s, steps).value.overlapped
    ensures AlwaysInOrder(s, steps)
    decreases |steps|
  {
    hide Enabled, Next, InOrder;
    if s.overlapped {
      OverlapLasts(s, steps);
    }
    PendingInOrder(done, s);
    if steps != [] {
      RunConcat(Init(), done, [steps[0]]);
      assert Run(s, [steps[0]]) == Run(Next(s, steps[0]), []);
      InOrderFrom(done + [steps[0]], Next(s, steps[0]), steps[1..]);
    }
  }

  /** In particular in every run in which no drain starts while another is running. */
  lemma NoOverlapNoOvertaking(steps: seq<Step>, s: State)
    requires Run(Init(), steps) == Some(s) && !s.overlapped
    ensures NeverOvertakes(Init(), steps) && AlwaysInOrder(Init(), steps)
  {
    hide AlwaysInOrder, NeverOvertakes, Run;
    RunNothing();
    InOrderFrom([], Init(), steps);
    KeepsOrderIff(steps);
  }

  lemma RunNothing()
    ensures Run(Init(), []) == Some(Init())
  {
  }
}
