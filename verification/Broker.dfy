/** The job broker: sessions with bounded queues, round-robin placement, and the list of pending messages. */
module Brokers {
  import opened Arithmetic
  import opened SortedKeys

  type Id = string

  /** A message is known by its message ID. */
  type Msg = int

  const CAPACITY: nat := 10

  /** A session's channel: what it buffers, what pollers received from it, and whether it was closed. */
  datatype Chan = Chan(buf: seq<Msg>, got: seq<Msg>, closed: bool)

  /** The fields of the store and the server that mu guards. Channels outlive their sessions: a poll that looked one
      up before the session was deleted still holds it. */
  datatype Store = Store(
    sessions: set<Id>,
    chans: map<Id, Chan>,
    pending: seq<Msg>,
    cursor: nat)

  /** No session's channel is closed: a send cannot panic, and no channel is closed twice. */
  ghost predicate StoreInv(s: Store) {
    && s.sessions <= s.chans.Keys
    && (forall id <- s.sessions :: !s.chans[id].closed)
    && (forall id <- s.chans :: |s.chans[id].buf| <= CAPACITY)
  }

  predicate HasRoom(chans: map<Id, Chan>, id: Id) {
    id in chans && |chans[id].buf| < CAPACITY
  }

  // ---------- Round robin, as a specification ----------

  ghost function Order(s: Store): seq<Id> {
    SortingOf(s.sessions)
  }

  /** The session at a distance from the cursor. */
  ghost function At(s: Store, i: nat): Id
    requires s.sessions != {}
  {
    OrderNonEmpty(s);
    Order(s)[(s.cursor + i) % |Order(s)|]
  }

  lemma OrderNonEmpty(s: Store)
    ensures |Order(s)| == |s.sessions| && Elements(Order(s)) == s.sessions
    ensures s.sessions != {} ==> Order(s) != []
  {
    SortingLength(Order(s), s.sessions);
  }

  /** The distance of the first session with room, counted from i; |sessions| when there is none. */
  ghost function FirstRoom(s: Store, i: nat): (k: nat)
    requires s.sessions != {} && i <= |s.sessions|
    ensures i <= k <= |s.sessions|
    ensures forall j :: i <= j < k ==> !HasRoom(s.chans, At(s, j))
    ensures k < |s.sessions| ==> HasRoom(s.chans, At(s, k))
    decreases |s.sessions| - i
  {
    if i == |s.sessions| || HasRoom(s.chans, At(s, i)) then i else FirstRoom(s, i + 1)
  }

  function Push(chans: map<Id, Chan>, id: Id, m: Msg): map<Id, Chan>
    requires id in chans
  {
    chans[id := chans[id].(buf := chans[id].buf + [m])]
  }

  /** The session a send goes to, if it succeeds. */
  ghost predicate Sends(s: Store) {
    s.sessions != {} && FirstRoom(s, 0) < |s.sessions|
  }

  ghost function Target(s: Store): Id
    requires Sends(s)
  {
    At(s, FirstRoom(s, 0))
  }

  ghost function AfterSend(s: Store, m: Msg): Store {
    if !Sends(s) then s
    else
      OrderNonEmpty(s);
      var n := |s.sessions|;
      var idx := (s.cursor + FirstRoom(s, 0)) % n;
      s.(chans := Push(s.chans, Target(s), m), cursor := (idx + 1) % n)
  }

  lemma AtIsSession(s: Store, i: nat)
    requires s.sessions != {}
    ensures At(s, i) in s.sessions
  {
    OrderNonEmpty(s);
    assert At(s, i) in Elements(Order(s));
  }

  /** Every session is at some distance below n. */
  lemma AtCovers(s: Store, id: Id) returns (i: nat)
    requires id in s.sessions
    ensures i < |s.sessions| && At(s, i) == id
  {
    OrderNonEmpty(s);
    assert id in Elements(Order(s));
    var n := |s.sessions|;
    var j :| 0 <= j < n && Order(s)[j] == id;
    var c := s.cursor % n;
    i := if j >= c then j - c else j - c + n;
    ModAdd(s.cursor, i, n, j);
  }

  /** Going i places on from the cursor, modulo n. */
  lemma ModAdd(c: nat, i: nat, n: nat, j: nat)
    requires n > 0 && i < n && j < n && (c % n + i == j || c % n + i == j + n)
    ensures (c + i) % n == j
  {
    var q := c / n;
    assert c == q * n + c % n;
    if c % n + i == j {
      assert c + i == q * n + j;
      DivModUnique(c + i, q, j, n);
    } else {
      assert (q + 1) * n == q * n + n;
      assert c + i == (q + 1) * n + j;
      DivModUnique(c + i, q + 1, j, n);
    }
  }

  /** A send fails exactly when there is no session or every queue is full. Otherwise the message goes to the first
      session with room in cyclic order from the cursor, to the end of its queue; no other queue changes. */
  lemma SendIsFirstFree(s: Store, m: Msg)
    requires StoreInv(s)
    ensures Sends(s) <==> exists id <- s.sessions :: |s.chans[id].buf| < 10
    ensures Sends(s) ==> && Target(s) in s.sessions && !s.chans[Target(s)].closed && HasRoom(s.chans, Target(s))
                         && (forall j :: 0 <= j < FirstRoom(s, 0) ==> At(s, j) in s.sessions && |s.chans[At(s, j)].buf| == 10)
                         && AfterSend(s, m).chans == s.chans[Target(s) := s.chans[Target(s)].(buf := s.chans[Target(s)].buf + [m])]
    ensures StoreInv(AfterSend(s, m)) && AfterSend(s, m).sessions == s.sessions && AfterSend(s, m).pending == s.pending
  {
    if id :| id in s.sessions && |s.chans[id].buf| < CAPACITY {
      var i := AtCovers(s, id);
      assert HasRoom(s.chans, At(s, i));
    }
    if Sends(s) {
      AtIsSession(s, FirstRoom(s, 0));
      forall j | 0 <= j < FirstRoom(s, 0)
        ensures At(s, j) in s.sessions && |s.chans[At(s, j)].buf| == CAPACITY
      {
        AtIsSession(s, j);
        assert !HasRoom(s.chans, At(s, j));
      }
    }
  }

  /** What a send does to the store, without saying which session it is. */
  lemma SendEffect(s: Store, m: Msg)
    requires StoreInv(s)
    ensures var t := AfterSend(s, m);
            && StoreInv(t) && t.sessions == s.sessions && t.pending == s.pending
            && if Sends(s) then
                 Target(s) in s.chans && t.chans == s.chans[Target(s) := s.chans[Target(s)].(buf := s.chans[Target(s)].buf + [m])]
               else t == s
  {
    hide StoreInv, FirstRoom, At;
    SendIsFirstFree(s, m);
    TargetKnown(s);
  }

  lemma TargetKnown(s: Store)
    requires StoreInv(s) && Sends(s) ==> Target(s) in s.sessions
    ensures StoreInv(s) && Sends(s) ==> Target(s) in s.chans
  {
    hide FirstRoom, At;
  }

  lemma FirstRoomStep(s: Store, i: nat)
    requires s.sessions != {} && i <= |s.sessions|
    ensures FirstRoom(s, i) == if i == |s.sessions| || HasRoom(s.chans, At(s, i)) then i else FirstRoom(s, i + 1)
  {
  }

  lemma RoomKnown(s: Store)
    requires StoreInv(s)
    ensures forall id <- s.sessions :: id in s.chans && (HasRoom(s.chans, id) <==> |s.chans[id].buf| < CAPACITY)
  {
  }

  // ---------- Balance ----------

  datatype Op = Send(m: Msg) | Poll(id: Id)

  function AfterPoll(s: Store, id: Id): Store {
    if id in s.chans && s.chans[id].buf != [] then
      var c := s.chans[id];
      s.(chans := s.chans[id := c.(buf := c.buf[1..], got := c.got + [c.buf[0]])])
    else s
  }

  ghost function AfterOps(s: Store, ops: seq<Op>): Store
    decreases |ops|
  {
    if ops == [] then s
    else AfterOps(if ops[0].Send? then AfterSend(s, ops[0].m) else AfterPoll(s, ops[0].id), ops[1..])
  }

  /** At no send is the queue of the session whose turn it is full. */
  ghost predicate NeverFull(s: Store, ops: seq<Op>)
    decreases |ops|
  {
    ops != [] ==>
      && (ops[0].Send? ==> s.sessions != {} && HasRoom(s.chans, At(s, 0)))
      && NeverFull(if ops[0].Send? then AfterSend(s, ops[0].m) else AfterPoll(s, ops[0].id), ops[1..])
  }

  function SendCount(ops: seq<Op>): nat {
    if ops == [] then 0 else (if ops[0].Send? then 1 else 0) + SendCount(ops[1..])
  }

  /** How many messages were ever placed in a channel. */
  function Placed(c: Chan): nat {
    |c.got| + |c.buf|
  }

  /** The distance of position j from a cursor. */
  function Distance(cursor: nat, j: nat, n: nat): nat
    requires j < n
  {
    if j >= cursor % n then j - cursor % n else j - cursor % n + n
  }

  /** A full round gives everyone a message; the first k % n after the cursor get one more. */
  function Share(k: nat, d: nat, n: nat): nat
    requires n > 0
  {
    k / n + if d < k % n then 1 else 0
  }

  lemma ShareStep(k: nat, d: nat, n: nat)
    requires k > 0 && d < n
    ensures Share(k, d, n) == if d == 0 then 1 + Share(k - 1, n - 1, n) else Share(k - 1, d - 1, n)
  {
    var q, r := (k - 1) / n, (k - 1) % n;
    assert k - 1 == q * n + r;
    if r == n - 1 {
      assert (q + 1) * n == q * n + n;
      DivModUnique(k, q + 1, 0, n);
    } else {
      DivModUnique(k, q, r + 1, n);
    }
  }

  /** The number of messages a session got over some operations. */
  ghost function Gained(s: Store, ops: seq<Op>, id: Id): int
    requires id in s.chans && id in AfterOps(s, ops).chans
  {
    Placed(AfterOps(s, ops).chans[id]) - Placed(s.chans[id])
  }

  /** With a fixed set of n sessions whose queues never fill, polls in between or not, after k sends the session at
      distance d from the starting cursor got exactly its share of them: k / n, or one more. */
  lemma {:induction false} Balance(s: Store, ops: seq<Op>, j: nat)
    requires StoreInv(s) && NeverFull(s, ops) && j < |s.sessions|
    ensures |Order(s)| == |s.sessions| && Order(s)[j] in s.chans
    ensures AfterOps(s, ops).sessions == s.sessions && Order(s)[j] in AfterOps(s, ops).chans
    ensures Gained(s, ops, Order(s)[j]) == Share(SendCount(ops), Distance(s.cursor, j, |s.sessions|), |s.sessions|)
    decreases |ops|
  {
    OrderNonEmpty(s);
    var id := Order(s)[j];
    assert id in Elements(Order(s));
    var n := |s.sessions|;
    if ops != [] {
      hide FirstRoom, Share;
      if ops[0].Send? {
        var t := AfterSend(s, ops[0].m);
        SendAtCursor(s, ops[0].m, j);
        SendIsFirstFree(s, ops[0].m);
        Balance(t, ops[1..], j);
        ShareStep(SendCount(ops), Distance(s.cursor, j, n), n);
      } else {
        PollKeeps(s, ops[0].id, id);
        Balance(AfterPoll(s, ops[0].id), ops[1..], j);
      }
    } else {
      DivModUnique(0, 0, 0, n);
    }
  }

  lemma PollKeeps(s: Store, x: Id, id: Id)
    requires StoreInv(s) && id in s.chans
    ensures var t := AfterPoll(s, x);
            && StoreInv(t) && t.sessions == s.sessions && t.cursor == s.cursor && t.pending == s.pending
            && id in t.chans && Placed(t.chans[id]) == Placed(s.chans[id])
  {
  }

  /** A send whose turn has room: that session gets the message and the cursor moves to the next one. */
  lemma SendAtCursor(s: Store, m: Msg, j: nat)
    requires StoreInv(s) && s.sessions != {} && HasRoom(s.chans, At(s, 0)) && j < |s.sessions|
    ensures |Order(s)| == |s.sessions| && Order(s)[j] in s.chans
    ensures var t := AfterSend(s, m);
            var id := Order(s)[j];
            var n := |s.sessions|;
            var d := Distance(s.cursor, j, n);
            && t.sessions == s.sessions && id in t.chans
            && Placed(t.chans[id]) == Placed(s.chans[id]) + (if d == 0 then 1 else 0)
            && Distance(t.cursor, j, n) == if d == 0 then n - 1 else d - 1
  {
    OrderNonEmpty(s);
    var n := |s.sessions|;
    var id := Order(s)[j];
    assert id in Elements(Order(s));
    assert FirstRoom(s, 0) == 0;
    var c := s.cursor % n;
    assert (s.cursor + 0) % n == c;
    assert Target(s) == Order(s)[c];
    AscendingDistinct(Order(s), c, j);
    var t := AfterSend(s, m);
    if c + 1 == n {
      DivModUnique(n, 1, 0, n);
      assert t.cursor == 0;
      DivModUnique(0, 0, 0, n);
    } else {
      DivModUnique(c + 1, 0, c + 1, n);
      assert t.cursor == c + 1;
    }
  }

  lemma AscendingDistinct(ids: seq<Id>, i: nat, j: nat)
    requires Ascending(ids) && i < |ids| && j < |ids|
    ensures ids[i] == ids[j] <==> i == j
  {
    LessTotal(ids[i], ids[j]);
  }

  // ---------- A drain that nothing interrupts ----------

  /** The loop of drainPendingMessages over the messages it took, and what it could not send. */
  ghost function AfterDrain(s: Store, todo: seq<Msg>): (r: (Store, seq<Msg>))
    decreases |todo|
  {
    if todo == [] then (s, [])
    else
      var (t, left) := AfterDrain(AfterSend(s, todo[0]), todo[1..]);
      (t, if Sends(s) then left else [todo[0]] + left)
  }

  /** It sends the oldest messages and keeps the newest: once one does not fit, none does. */
  lemma {:induction false} DrainSendsPrefix(s: Store, todo: seq<Msg>) returns (k: nat)
    requires StoreInv(s)
    ensures k <= |todo| && AfterDrain(s, todo).1 == todo[k..]
    ensures k < |todo| ==> !Sends(AfterDrain(s, todo).0)
    ensures StoreInv(AfterDrain(s, todo).0) && AfterDrain(s, todo).0.pending == s.pending
    decreases |todo|
  {
    if todo == [] {
      k := 0;
    } else {
      SendIsFirstFree(s, todo[0]);
      var j := DrainSendsPrefix(AfterSend(s, todo[0]), todo[1..]);
      if Sends(s) {
        k := j + 1;
      } else {
        NoRoomNoDrain(s, todo[1..]);
        k := 0;
      }
    }
  }

  lemma {:induction false} NoRoomNoDrain(s: Store, todo: seq<Msg>)
    requires !Sends(s)
    ensures AfterDrain(s, todo) == (s, todo)
  {
    if todo != [] {
      NoRoomNoDrain(s, todo[1..]);
      assert [todo[0]] + todo[1..] == todo;
    }
  }

  // ---------- The critical sections, as code ----------

  class Broker {
    var sessions: set<Id>
    var chans: map<Id, Chan>
    var pending: seq<Msg>
    var lastSessionIdx: nat

    ghost function View(): Store
      reads this
    {
      Store(sessions, chans, pending, lastSessionIdx)
    }

    constructor ()
      ensures View() == Store({}, map[], [], 0) && StoreInv(View())
    {
      sessions, chans, pending, lastSessionIdx := {}, map[], [], 0;
    }

    method SendMessageToAgent(m: Msg) returns (sent: bool)
      requires StoreInv(View())
      modifies this
      ensures sent == Sends(old(View())) && View() == AfterSend(old(View()), m) && StoreInv(View())
      ensures sent ==> exists p :: && 0 <= p < |Order(old(View()))| && Order(old(View()))[p] == Target(old(View()))
                                   && lastSessionIdx == (p + 1) % |Order(old(View()))|
    {
      hide FirstRoom, StoreInv;
      RoomKnown(View());
      if |sessions| == 0 {
        return false;
      }
      var ids := Sorted(sessions);
      var n := |ids|;
      ghost var s := View();
      OrderNonEmpty(s);
      SortingUnique(ids, Order(s));
      SendIsFirstFree(s, m);
      var i := 0;
      while i < n
        invariant 0 <= i <= n && View() == s
        invariant FirstRoom(s, 0) == FirstRoom(s, i)
      {
        FirstRoomStep(s, i);
        var idx := (lastSessionIdx + i) % n;
        var id := ids[idx];
        assert id == At(s, i);
        AtIsSession(s, i);
        if |chans[id].buf| < CAPACITY {
          chans := chans[id := chans[id].(buf := chans[id].buf + [m])];
          lastSessionIdx := (idx + 1) % n;
          return true;
        }
        i := i + 1;
      }
      FirstRoomStep(s, n);
      return false;
    }

    method RequeuePendingMessage(m: Msg)
      modifies this`pending
      ensures pending == old(pending) + [m]
    {
      pending := pending + [m];
    }

    method CreateSession(id: Id)
      requires StoreInv(View()) && id !in chans
      modifies this`sessions, this`chans
      ensures StoreInv(View())
      ensures sessions == old(sessions) + {id} && chans == old(chans)[id := Chan([], [], false)]
    {
      chans := chans[id := Chan([], [], false)];
      sessions := sessions + {id};
    }

    /** The channel of a known session is closed, once, and the session forgotten; what it buffers stays readable. */
    method DeleteSession(id: Id) returns (found: bool)
      requires StoreInv(View())
      modifies this`sessions, this`chans
      ensures StoreInv(View()) && found == (id in old(sessions)) && sessions == old(sessions) - {id}
      ensures chans == if found then old(chans)[id := old(chans)[id].(closed := true)] else old(chans)
    {
      found := id in sessions;
      if found {
        assert !chans[id].closed;
        chans := chans[id := chans[id].(closed := true)];
        sessions := sessions - {id};
      }
    }

    /** The receive of a poll that holds the channel of a session, open or closed meanwhile. */
    method Receive(id: Id) returns (ok: bool, m: Msg)
      requires StoreInv(View()) && id in chans
      modifies this`chans
      ensures StoreInv(View()) && View() == AfterPoll(old(View()), id)
      ensures ok == (old(chans)[id].buf != []) && (ok ==> m == old(chans)[id].buf[0])
    {
      var c := chans[id];
      ok, m := c.buf != [], 0;
      if ok {
        m := c.buf[0];
        chans := chans[id := c.(buf := c.buf[1..], got := c.got + [m])];
      }
    }

    /** drainPendingMessages when no other goroutine runs in between. */
    method DrainPendingMessages()
      requires StoreInv(View())
      modifies this
      ensures StoreInv(View())
      ensures var (t, left) := AfterDrain(old(View()).(pending := []), old(pending));
              View() == t.(pending := left)
    {
      var todo := pending;
      pending := [];
      var remaining := [];
      ghost var goal := AfterDrain(View(), todo);
      var i := 0;
      while i < |todo|
        invariant 0 <= i <= |todo| && StoreInv(View()) && pending == []
        invariant AfterDrain(View(), todo[i..]).0 == goal.0
        invariant remaining + AfterDrain(View(), todo[i..]).1 == goal.1
      {
        ghost var s := View();
        assert todo[i..][1..] == todo[i + 1..];
        SendIsFirstFree(s, todo[i]);
        var sent := SendMessageToAgent(todo[i]);
        if !sent {
          remaining := remaining + [todo[i]];
        }
        i := i + 1;
      }
      if |remaining| > 0 {
        pending := remaining + pending;
      }
    }
  }
}
