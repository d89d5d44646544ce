/** Every interleaving of the broker's goroutines: senders, several drains at once, polls, and sessions that come and
    go. A step is one critical section of mu or one receive from a channel. */
module BrokerRuns {
  import opened Bytes
  import opened Brokers
  import opened Options

  /** A running drainPendingMessages: what it took and has not tried yet, and what it could not send. */
  datatype Drain = Drain(todo: seq<Msg>, left: seq<Msg>)

  /** Where a message is: held by the sender whose send failed, pending, in one of the two lists of a drain, in a
      channel, received by a poller, or given up by its sender. */
  datatype Place =
    | Held
    | Pending
    | Todo(d: nat)
    | Left(d: nat)
    | Queued(id: Id)
    | Delivered(id: Id)
    | GivenUp

  /** polls gives the session whose channel each poll under way holds. The last three fields are logs: the place of
      every message so far, the order in which messages were requeued, and whether a drain ever started while another
      was running. */
  datatype State = State(
    store: Store,
    polls: map<nat, Id>,
    held: seq<Msg>,
    drains: map<nat, Drain>,
    givenUp: seq<Msg>,
    place: map<Msg, Place>,
    requeued: seq<Msg>,
    overlapped: bool)

  function Init(): State {
    State(Store({}, map[], [], 0), map[], [], map[], [], map[], [], false)
  }

  /** Submit is the send of a new message. After a failed one the sender requeues the message (submitWorkflowJob), or
      does not (handleSubmitJob). A poll looks its session up, and then receives one message from the channel it got, or
      ends without: the channel may have been closed meanwhile. */
  datatype Step =
    | Submit(m: Msg)
    | Requeue(i: nat)
    | GiveUp(i: nat)
    | DrainTakes(d: nat)
    | DrainSends(d: nat)
    | DrainPutsBack(d: nat)
    | Create(id: Id)
    | Delete(id: Id)
    | Poll(p: nat, id: Id)
    | Receive(p: nat)
    | EndPoll(p: nat)

  ghost predicate Enabled(s: State, a: Step) {
    match a
    case Submit(m) => m !in s.place
    case Requeue(i) => i < |s.held|
    case GiveUp(i) => i < |s.held|
    case DrainTakes(d) => d !in s.drains
    case DrainSends(d) => d in s.drains && s.drains[d].todo != []
    case DrainPutsBack(d) => d in s.drains && s.drains[d].todo == []
    case Create(id) => id !in s.store.chans
    case Delete(id) => true
    case Poll(p, _) => p !in s.polls
    case Receive(p) => p in s.polls && s.polls[p] in s.store.chans && s.store.chans[s.polls[p]].buf != []
    case EndPoll(p) => p in s.polls
  }

  function Without(q: seq<Msg>, i: nat): seq<Msg>
    requires i < |q|
  {
    q[..i] + q[i + 1..]
  }

  /** All messages of one place move to another. */
  function Moved(place: map<Msg, Place>, p: Place, q: Place): map<Msg, Place> {
    map m | m in place :: if place[m] == p then q else place[m]
  }

  ghost function Next(s: State, a: Step): State
    requires Enabled(s, a)
  {
    match a
    case Submit(m) =>
      if Sends(s.store) then
        s.(store := AfterSend(s.store, m), place := s.place[m := Queued(Target(s.store))])
      else s.(held := s.held + [m], place := s.place[m := Held])
    case Requeue(i) =>
      var m := s.held[i];
      s.(store := s.store.(pending := s.store.pending + [m]), held := Without(s.held, i),
         place := s.place[m := Pending], requeued := s.requeued + [m])
    case GiveUp(i) =>
      var m := s.held[i];
      s.(held := Without(s.held, i), givenUp := s.givenUp + [m], place := s.place[m := GivenUp])
    case DrainTakes(d) =>
      s.(store := s.store.(pending := []), drains := s.drains[d := Drain(s.store.pending, [])],
         place := Moved(s.place, Pending, Todo(d)), overlapped := s.overlapped || s.drains != map[])
    case DrainSends(d) =>
      var r := s.drains[d];
      var m := r.todo[0];
      if Sends(s.store) then
        s.(store := AfterSend(s.store, m), drains := s.drains[d := r.(todo := r.todo[1..])],
           place := s.place[m := Queued(Target(s.store))])
      else
        s.(drains := s.drains[d := Drain(r.todo[1..], r.left + [m])], place := s.place[m := Left(d)])
    case DrainPutsBack(d) =>
      s.(store := s.store.(pending := s.drains[d].left + s.store.pending), drains := s.drains - {d},
         place := Moved(s.place, Left(d), Pending))
    case Create(id) =>
      s.(store := s.store.(sessions := s.store.sessions + {id}, chans := s.store.chans[id := Chan([], [], false)]))
    case Delete(id) =>
      if id in s.store.sessions && id in s.store.chans then
        s.(store := s.store.(sessions := s.store.sessions - {id},
                             chans := s.store.chans[id := s.store.chans[id].(closed := true)]))
      else s
    case Poll(p, id) => if id in s.store.sessions then s.(polls := s.polls[p := id]) else s
    case Receive(p) =>
      var id := s.polls[p];
      s.(store := AfterPoll(s.store, id), polls := s.polls - {p},
         place := s.place[s.store.chans[id].buf[0] := Delivered(id)])
    case EndPoll(p) => s.(polls := s.polls - {p})
  }

  ghost function Run(s: State, steps: seq<Step>): Option<State>
    decreases |steps|
  {
    if steps == [] then Some(s)
    else if Enabled(s, steps[0]) then Run(Next(s, steps[0]), steps[1..])
    else None
  }

  // ---------- Every message is in exactly one place ----------

  function Contents(s: State, p: Place): seq<Msg> {
    match p
    case Held => s.held
    case Pending => s.store.pending
    case Todo(d) => if d in s.drains then s.drains[d].todo else []
    case Left(d) => if d in s.drains then s.drains[d].left else []
    case Queued(id) => if id in s.store.chans then s.store.chans[id].buf else []
    case Delivered(id) => if id in s.store.chans then s.store.chans[id].got else []
    case GivenUp => s.givenUp
  }

  ghost predicate Distinct(q: seq<Msg>) {
    forall i, j :: 0 <= i < j < |q| ==> q[i] != q[j]
  }

  ghost predicate PlacedOnce(s: State) {
    && (forall p: Place :: Distinct(Contents(s, p)))
    && (forall p: Place, m: Msg :: m in Contents(s, p) <==> m in s.place && s.place[m] == p)
  }

  ghost predicate Inv(s: State) {
    StoreInv(s.store) && PlacedOnce(s) && forall p <- s.polls :: s.polls[p] in s.store.chans
  }

  lemma WithoutMembers(q: seq<Msg>, i: nat)
    requires Distinct(q) && i < |q|
    ensures Distinct(Without(q, i))
    ensures forall m :: m in Without(q, i) <==> m in q && m != q[i]
  {
    var r := Without(q, i);
    forall m
      ensures m in r <==> m in q && m != q[i]
    {
      if m in r {
        var k :| 0 <= k < |r| && r[k] == m;
        assert m == q[if k < i then k else k + 1];
      }
      if m in q && m != q[i] {
        var k :| 0 <= k < |q| && q[k] == m;
        assert r[if k < i then k else k - 1] == m;
      }
    }
  }

  /** One message leaves one list and joins the end of another; every other list stays. */
  lemma MoveOne(s: State, t: State, p: Place, i: nat, q: Place)
    requires PlacedOnce(s) && p != q && i < |Contents(s, p)|
    requires Contents(t, p) == Without(Contents(s, p), i) && Contents(t, q) == Contents(s, q) + [Contents(s, p)[i]]
    requires forall x: Place :: x != p && x != q ==> Contents(t, x) == Contents(s, x)
    requires t.place == s.place[Contents(s, p)[i] := q]
    ensures PlacedOnce(t)
  {
    hide Contents, Without;
    var m := Contents(s, p)[i];
    WithoutMembers(Contents(s, p), i);
    assert m in Contents(s, p);
    assert s.place[m] == p;
    assert m !in Contents(s, q);
    forall x: Place
      ensures Distinct(Contents(t, x))
      ensures forall y: Msg :: y in Contents(t, x) <==> y in t.place && t.place[y] == x
    {
      assert forall y: Msg :: y in Contents(s, x) <==> y in s.place && s.place[y] == x;
    }
  }

  /** A new message joins the end of a list. */
  lemma AddOne(s: State, t: State, m: Msg, q: Place)
    requires PlacedOnce(s) && m !in s.place && t.place == s.place[m := q]
    requires Contents(t, q) == Contents(s, q) + [m]
    requires forall x: Place :: x != q ==> Contents(t, x) == Contents(s, x)
    ensures PlacedOnce(t)
  {
    hide Contents;
    forall x: Place
      ensures Distinct(Contents(t, x))
      ensures forall y: Msg :: y in Contents(t, x) <==> y in t.place && t.place[y] == x
    {
      assert forall y: Msg :: y in Contents(s, x) <==> y in s.place && s.place[y] == x;
    }
  }

  /** All messages of one list go in front of another. */
  lemma MoveAll(s: State, t: State, p: Place, q: Place)
    requires PlacedOnce(s) && p != q && t.place == Moved(s.place, p, q)
    requires Contents(t, p) == [] && Contents(t, q) == Contents(s, p) + Contents(s, q)
    requires forall x: Place :: x != p && x != q ==> Contents(t, x) == Contents(s, x)
    ensures PlacedOnce(t)
  {
    hide Contents, Distinct;
    assert Distinct(Contents(s, p)) && Distinct(Contents(s, q));
    assert forall y: Msg :: y in Contents(s, p) <==> y in s.place && s.place[y] == p;
    DistinctJoin(Contents(s, p), Contents(s, q));
    NothingDistinct();
    forall x: Place
      ensures Distinct(Contents(t, x))
      ensures forall y: Msg :: y in Contents(t, x) <==> y in t.place && t.place[y] == x
    {
      assert forall y: Msg :: y in Contents(s, x) <==> y in s.place && s.place[y] == x;
    }
  }

  lemma DistinctJoin(a: seq<Msg>, b: seq<Msg>)
    requires Distinct(a) && Distinct(b) && forall y <- a :: y !in b
    ensures Distinct(a + b)
  {
    forall i, j | 0 <= i < |a| && 0 <= j < |b|
      ensures a[i] != b[j]
    {
      assert a[i] in a && b[j] in b;
    }
  }

  lemma NothingDistinct()
    ensures Distinct([])
  {
  }

  lemma SameContents(s: State, t: State)
    requires PlacedOnce(s) && t.place == s.place && forall x: Place :: Contents(t, x) == Contents(s, x)
    ensures PlacedOnce(t)
  {
    hide Contents;
    forall x: Place
      ensures Distinct(Contents(t, x))
      ensures forall y: Msg :: y in Contents(t, x) <==> y in t.place && t.place[y] == x
    {
      assert forall y: Msg :: y in Contents(s, x) <==> y in s.place && s.place[y] == x;
    }
  }

  lemma SubmitKeeps(s: State, m: Msg)
    requires Inv(s) && Enabled(s, Submit(m))
    ensures Inv(Next(s, Submit(m)))
  {
    hide PlacedOnce, Sends, AfterSend, Target, StoreInv;
    SendEffect(s.store, m);
    AddOne(s, Next(s, Submit(m)), m, if Sends(s.store) then Queued(Target(s.store)) else Held);
  }

  /** Where a step of a drain moves its next message. */
  ghost function DrainGoal(s: State, d: nat): Place {
    if Sends(s.store) then Queued(Target(s.store)) else Left(d)
  }

  lemma DrainSendsMoves(s: State, d: nat)
    requires StoreInv(s.store) && Enabled(s, DrainSends(d))
    ensures var (t, todo) := (Next(s, DrainSends(d)), s.drains[d].todo);
            && t.place == s.place[todo[0] := DrainGoal(s, d)]
            && Contents(t, Todo(d)) == Without(Contents(s, Todo(d)), 0)
            && Contents(t, DrainGoal(s, d)) == Contents(s, DrainGoal(s, d)) + [todo[0]]
            && forall x: Place :: x != Todo(d) && x != DrainGoal(s, d) ==> Contents(t, x) == Contents(s, x)
  {
    hide Sends, AfterSend, Target, StoreInv;
    SendEffect(s.store, s.drains[d].todo[0]);
    assert s.drains[d].todo[1..] == Without(s.drains[d].todo, 0);
  }

  lemma DrainSendsKeeps(s: State, d: nat)
    requires Inv(s) && Enabled(s, DrainSends(d))
    ensures Inv(Next(s, DrainSends(d)))
  {
    hide PlacedOnce, Sends, AfterSend, Target, StoreInv, Contents;
    DrainSendsMoves(s, d);
    SendEffect(s.store, s.drains[d].todo[0]);
    TodoIs(s, d);
    MoveOne(s, Next(s, DrainSends(d)), Todo(d), 0, DrainGoal(s, d));
  }

  lemma TodoIs(s: State, d: nat)
    requires d in s.drains
    ensures Contents(s, Todo(d)) == s.drains[d].todo
  {
  }

  lemma HeldKeeps(s: State, a: Step)
    requires Inv(s) && Enabled(s, a) && (a.Requeue? || a.GiveUp?)
    ensures Inv(Next(s, a))
  {
    hide PlacedOnce;
    MoveOne(s, Next(s, a), Held, a.i, if a.Requeue? then Pending else GivenUp);
  }

  lemma DrainListKeeps(s: State, d: nat)
    requires Inv(s)
    ensures Enabled(s, DrainTakes(d)) ==> Inv(Next(s, DrainTakes(d)))
    ensures Enabled(s, DrainPutsBack(d)) ==> Inv(Next(s, DrainPutsBack(d)))
  {
    hide PlacedOnce;
    if d !in s.drains {
      var t := Next(s, DrainTakes(d));
      assert Contents(s, Pending) + Contents(s, Todo(d)) == Contents(t, Todo(d));
      MoveAll(s, t, Pending, Todo(d));
    } else if s.drains[d].todo == [] {
      MoveAll(s, Next(s, DrainPutsBack(d)), Left(d), Pending);
    }
  }

  lemma CreateKeeps(s: State, id: Id)
    requires Inv(s) && Enabled(s, Create(id))
    ensures Inv(Next(s, Create(id)))
  {
    hide PlacedOnce;
    SameContents(s, Next(s, Create(id)));
  }

  lemma DeleteKeeps(s: State, id: Id)
    requires Inv(s)
    ensures Inv(Next(s, Delete(id)))
  {
    hide PlacedOnce;
    var t := Next(s, Delete(id));
    forall x: Place
      ensures Contents(t, x) == Contents(s, x)
    {
      hide StoreInv;
    }
    hide Contents;
    SameContents(s, t);
  }

  lemma HoldKeeps(s: State, a: Step)
    requires Inv(s) && Enabled(s, a) && (a.Poll? || a.EndPoll?)
    ensures Inv(Next(s, a))
  {
    hide PlacedOnce;
    SameContents(s, Next(s, a));
  }

  lemma ReceiveKeeps(s: State, p: nat)
    requires Inv(s) && Enabled(s, Receive(p))
    ensures Inv(Next(s, Receive(p)))
  {
    hide PlacedOnce;
    var id := s.polls[p];
    var buf := s.store.chans[id].buf;
    assert buf[1..] == Without(buf, 0);
    PollKeeps(s.store, id, id);
    MoveOne(s, Next(s, Receive(p)), Queued(id), 0, Delivered(id));
  }

  lemma StepKeeps(s: State, a: Step)
    requires Inv(s) && Enabled(s, a)
    ensures Inv(Next(s, a))
  {
    hide Inv, Next;
    match a
    case Submit(m) => SubmitKeeps(s, m);
    case Requeue(i) => HeldKeeps(s, a);
    case GiveUp(i) => HeldKeeps(s, a);
    case DrainTakes(d) => DrainListKeeps(s, d);
    case DrainSends(d) => DrainSendsKeeps(s, d);
    case DrainPutsBack(d) => DrainListKeeps(s, d);
    case Create(id) => CreateKeeps(s, id);
    case Delete(id) => DeleteKeeps(s, id);
    case Poll(p, id) => HoldKeeps(s, a);
    case Receive(p) => ReceiveKeeps(s, p);
    case EndPoll(p) => HoldKeeps(s, a);
  }

  lemma {:induction false} RunKeeps(s: State, steps: seq<Step>)
    requires Inv(s) && Run(s, steps).Some?
    ensures Inv(Run(s, steps).value)
    ensures s.place.Keys <= Run(s, steps).value.place.Keys
    decreases |steps|
  {
    hide Inv, Enabled;
    if steps != [] {
      StepKeeps(s, steps[0]);
      KeysGrow(s, steps[0]);
      RunKeeps(Next(s, steps[0]), steps[1..]);
    }
  }

  /** No step forgets a message. */
  lemma KeysGrow(s: State, a: Step)
    requires Enabled(s, a)
    ensures s.place.Keys <= Next(s, a).place.Keys
  {
    hide Sends, AfterSend, Target;
  }

  lemma InitInv()
    ensures Inv(Init())
  {
  }

  /** Conservation: in every run, each message submitted so far is in exactly one place, and there exactly once. */
  lemma Conservation(steps: seq<Step>, s: State, m: Msg)
    requires Run(Init(), steps) == Some(s) && exists i :: 0 <= i < |steps| && steps[i] == Submit(m)
    ensures exists p: Place :: m in Contents(s, p) && forall q: Place :: m in Contents(s, q) ==> q == p
    ensures forall p: Place :: Distinct(Contents(s, p))
  {
    hide Run, Contents, StoreInv;
    InitInv();
    RunKeeps(Init(), steps);
    SubmittedIsPlaced(Init(), steps, m);
    var p := s.place[m];
    assert m in Contents(s, p);
    forall q: Place | m in Contents(s, q)
      ensures q == p
    {
    }
  }

  lemma {:induction false} SubmittedIsPlaced(s: State, steps: seq<Step>, m: Msg)
    requires Inv(s) && Run(s, steps).Some? && exists i :: 0 <= i < |steps| && steps[i] == Submit(m)
    ensures m in Run(s, steps).value.place
    decreases |steps|
  {
    hide Inv;
    var i :| 0 <= i < |steps| && steps[i] == Submit(m);
    var t := Next(s, steps[0]);
    StepKeeps(s, steps[0]);
    if i == 0 {
      assert m in t.place.Keys;
      RunKeeps(t, steps[1..]);
    } else {
      assert steps[1..][i - 1] == Submit(m);
      SubmittedIsPlaced(t, steps[1..], m);
    }
  }

  /** Channel safety and bounds, in every run: the channel of a known session is open, so neither a send nor a close
      can hit a closed one; and no channel ever holds more than ten messages. */
  lemma ChannelSafety(steps: seq<Step>, s: State)
    requires Run(Init(), steps) == Some(s)
    ensures forall id <- s.store.sessions :: id in s.store.chans && !s.store.chans[id].closed
    ensures forall id <- s.store.chans :: |s.store.chans[id].buf| <= 10
  {
    hide Run, PlacedOnce;
    InitInv();
    RunKeeps(Init(), steps);
  }

  // ---------- Order ----------

  /** The messages on their way through the pending list while at most one drain runs: first what the drain could not
      send, then what it has yet to try, then what was requeued meanwhile. */
  ghost predicate Waiting(s: State, w: seq<Msg>) {
    if s.drains == map[] then w == s.store.pending
    else exists d :: s.drains.Keys == {d} && w == s.drains[d].left + s.drains[d].todo + s.store.pending
  }

  ghost predicate OrderInv(s: State) {
    !s.overlapped ==> exists w :: Waiting(s, w) && Subsequence(w, s.requeued)
  }

  lemma {:induction false} DropOne(a: seq<Msg>, m: Msg, b: seq<Msg>, all: seq<Msg>)
    requires Subsequence(a + [m] + b, all)
    ensures Subsequence(a + b, all)
    decreases |b|, |all|
  {
    var rest := all[..|all| - 1];
    assert all == rest + [all[|all| - 1]];
    if b == [] {
      assert a + [m] + b == a + [m] && a + b == a && (a + [m])[..|a|] == a;
      if Subsequence(a + [m], rest) {
        DropOne(a, m, b, rest);
        assert Subsequence(a, rest);
      }
      SubsequenceSkip(a, rest, all[|all| - 1]);
    } else {
      var n := |b| - 1;
      var l := a + [m] + b;
      assert l[..|l| - 1] == a + [m] + b[..n];
      assert (a + b)[..|a + b| - 1] == a + b[..n];
      if Subsequence(l, rest) {
        DropOne(a, m, b, rest);
      } else {
        DropOne(a, m, b[..n], rest);
      }
    }
  }

  lemma OrderStep(s: State, a: Step)
    requires OrderInv(s) && Enabled(s, a)
    ensures OrderInv(Next(s, a))
  {
    hide Sends, AfterSend, Target, Subsequence, Waiting, Moved, AfterPoll;
    var t := Next(s, a);
    if !t.overlapped {
      var w :| Waiting(s, w) && Subsequence(w, s.requeued);
      match a
      case Requeue(i) =>
        var m := s.held[i];
        SubsequenceKeep(w, s.requeued, m);
        WaitingGrows(s, t, w, m);
      case DrainTakes(d) => DrainTakesOrder(s, d, w);
      case DrainSends(d) => DrainOrder(s, d, w);
      case DrainPutsBack(d) => DrainPutsBackOrder(s, d, w);
      case Submit(m) => SubmitOrder(s, m, w);
      case _ => OtherOrder(s, a, w);
    }
  }

  lemma DrainTakesOrder(s: State, d: nat, w: seq<Msg>)
    requires Waiting(s, w) && Enabled(s, DrainTakes(d)) && s.drains == map[]
    ensures Waiting(Next(s, DrainTakes(d)), w)
  {
    var t := Next(s, DrainTakes(d));
    assert t.drains.Keys == {d};
    assert w == t.drains[d].left + t.drains[d].todo + t.store.pending;
  }

  lemma DrainPutsBackOrder(s: State, d: nat, w: seq<Msg>)
    requires Waiting(s, w) && Enabled(s, DrainPutsBack(d))
    ensures Waiting(Next(s, DrainPutsBack(d)), w)
  {
    var t := Next(s, DrainPutsBack(d));
    assert s.drains.Keys == {d};
    assert t.drains.Keys == {};
    assert w == t.store.pending;
  }

  lemma OtherOrder(s: State, a: Step, w: seq<Msg>)
    requires Waiting(s, w) && Enabled(s, a) && !a.Requeue? && !a.Submit? && !a.DrainTakes? && !a.DrainSends? && !a.DrainPutsBack?
    ensures Waiting(Next(s, a), w)
  {
    assert Next(s, a).drains == s.drains && Next(s, a).store.pending == s.store.pending;
  }

  lemma WaitingGrows(s: State, t: State, w: seq<Msg>, m: Msg)
    requires Waiting(s, w) && t.drains == s.drains && t.store.pending == s.store.pending + [m]
    ensures Waiting(t, w + [m])
  {
    if s.drains != map[] {
      var d :| s.drains.Keys == {d} && w == s.drains[d].left + s.drains[d].todo + s.store.pending;
      assert w + [m] == t.drains[d].left + t.drains[d].todo + t.store.pending;
    }
  }

  lemma SubmitOrder(s: State, m: Msg, w: seq<Msg>)
    requires Waiting(s, w) && Enabled(s, Submit(m))
    ensures Waiting(Next(s, Submit(m)), w)
  {
    hide Sends, Target;
  }

  lemma DrainOrder(s: State, d: nat, w: seq<Msg>)
    requires Waiting(s, w) && Enabled(s, DrainSends(d)) && Subsequence(w, s.requeued)
    ensures exists w' :: Waiting(Next(s, DrainSends(d)), w') && Subsequence(w', s.requeued)
  {
    hide Subsequence, Sends, Target, AfterSend;
    var t := Next(s, DrainSends(d));
    SendKeepsPending(s.store, s.drains[d].todo[0]);
    assert s.drains.Keys == {d} && t.drains.Keys == {d};
    var r := s.drains[d];
    Regroup(r.left, r.todo, s.store.pending);
    if Sends(s.store) {
      DropOne(r.left, r.todo[0], r.todo[1..] + s.store.pending, s.requeued);
      assert Waiting(t, r.left + (r.todo[1..] + s.store.pending));
    } else {
      assert Waiting(t, w);
    }
  }

  lemma SendKeepsPending(s: Store, m: Msg)
    ensures AfterSend(s, m).pending == s.pending
  {
  }

  lemma Regroup(left: seq<Msg>, todo: seq<Msg>, pending: seq<Msg>)
    requires todo != []
    ensures left + todo + pending == left + [todo[0]] + (todo[1..] + pending)
    ensures left + todo + pending == (left + [todo[0]]) + todo[1..] + pending
    ensures left + (todo[1..] + pending) == left + todo[1..] + pending
  {
  }

  lemma {:induction false} OrderRun(s: State, steps: seq<Step>)
    requires OrderInv(s) && Run(s, steps).Some?
    ensures OrderInv(Run(s, steps).value)
    decreases |steps|
  {
    hide OrderInv, Enabled;
    if steps != [] {
      OrderStep(s, steps[0]);
      OrderRun(Next(s, steps[0]), steps[1..]);
    }
  }

  /** As long as drains do not overlap, waiting messages keep the order in which they were requeued. */
  lemma PendingKeepsOrder(steps: seq<Step>, s: State)
    requires Run(Init(), steps) == Some(s) && !s.overlapped
    ensures exists w :: Waiting(s, w) && Subsequence(w, s.requeued)
  {
    hide Run;
    assert Waiting(Init(), []) && Subsequence<Msg>([], []);
    OrderRun(Init(), steps);
  }

  /** Each queue is first in, first out: what was received and what is buffered only grows at its end. */
  lemma QueueIsFifo(s: State, a: Step, id: Id)
    requires Inv(s) && Enabled(s, a) && id in s.store.chans
    ensures var t := Next(s, a);
            && id in t.store.chans
            && s.store.chans[id].got + s.store.chans[id].buf <= t.store.chans[id].got + t.store.chans[id].buf
            && s.store.chans[id].got <= t.store.chans[id].got
  {
    hide PlacedOnce, AfterSend, Sends, Target, Moved, Without;
    if a.Submit? {
      SendIsFifo(s.store, a.m, id);
    } else if a.DrainSends? {
      SendIsFifo(s.store, s.drains[a.d].todo[0], id);
    }
  }

  lemma SendIsFifo(s: Store, m: Msg, id: Id)
    requires StoreInv(s) && id in s.chans
    ensures Sends(s) ==> var t := AfterSend(s, m);
                         id in t.chans && t.chans[id].got == s.chans[id].got && s.chans[id].buf <= t.chans[id].buf
  {
    hide AfterSend, Sends, Target;
    SendEffect(s, m);
  }
}
