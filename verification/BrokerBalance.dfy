/** Round robin with full queues: where the cursor goes, and who gets how many messages. */
module BrokerBalances {
  import opened Arithmetic
  import opened SortedKeys
  import opened Brokers

  // ---------- Positions relative to the cursor ----------

  lemma ModPlus(x: nat, i: nat, n: nat)
    requires n > 0
    ensures (x % n + i) % n == (x + i) % n && (x + n) % n == x % n
  {
    Euclid(x, n);
    Euclid(x % n + i, n);
    Carry(x / n, (x % n + i) / n, n);
    DivModUnique(x + i, x / n + (x % n + i) / n, (x % n + i) % n, n);
    Carry(x / n, 1, n);
    DivModUnique(x + n, x / n + 1, x % n, n);
  }

  lemma Carry(a: nat, b: nat, n: nat)
    ensures (a + b) * n == a * n + b * n
  {
  }

  lemma CursorIs(s: Store, m: Msg)
    requires Sends(s)
    ensures var t := AfterSend(s, m);
            t.sessions == s.sessions != {} && t.cursor == ((s.cursor + FirstRoom(s, 0)) % |s.sessions| + 1) % |s.sessions|
  {
    hide FirstRoom, At;
  }

  /** After a send the turn is with the session right behind the one that got the message, wherever the search for room
      began: the session at distance i is the one i + 1 places on in the sorted order, which wraps. */
  lemma CursorMoves(s: Store, m: Msg, p: nat, i: nat)
    requires StoreInv(s) && Sends(s) && p < |Order(s)| && Order(s)[p] == Target(s)
    ensures var t := AfterSend(s, m);
            && t.sessions == s.sessions != {} && |Order(s)| == |s.sessions|
            && At(t, i) == Order(s)[(p + 1 + i) % |s.sessions|]
  {
    hide FirstRoom, AfterSend, At, Order, Target;
    CursorIs(s, m);
    TargetPlace(s, p);
    var t := AfterSend(s, m);
    SameOrder(s, t);
    assert t.cursor == (p + 1) % |s.sessions|;
    AtIs(t, i);
    ModPlus(p + 1, i, |s.sessions|);
  }

  lemma TargetPlace(s: Store, p: nat)
    requires Sends(s) && p < |Order(s)| && Order(s)[p] == Target(s)
    ensures (s.cursor + FirstRoom(s, 0)) % |s.sessions| == p
  {
    hide FirstRoom;
    OrderNonEmpty(s);
    AscendingDistinct(Order(s), (s.cursor + FirstRoom(s, 0)) % |s.sessions|, p);
  }

  lemma SameOrder(s: Store, t: Store)
    requires s.sessions == t.sessions
    ensures Order(s) == Order(t)
  {
  }

  lemma AtIs(s: Store, i: nat)
    requires s.sessions != {}
    ensures |Order(s)| == |s.sessions| && At(s, i) == Order(s)[(s.cursor + i) % |s.sessions|]
  {
    OrderNonEmpty(s);
  }

  lemma AtRound(s: Store, i: nat)
    requires s.sessions != {}
    ensures At(s, i + |s.sessions|) == At(s, i)
  {
    OrderNonEmpty(s);
    ModPlus(s.cursor + i, 0, |s.sessions|);
  }

  lemma AtInjective(s: Store, i: nat, j: nat)
    requires s.sessions != {} && i < |s.sessions| && j < |s.sessions| && At(s, i) == At(s, j)
    ensures i == j
  {
    OrderNonEmpty(s);
    var n := |s.sessions|;
    AscendingDistinct(Order(s), (s.cursor + i) % n, (s.cursor + j) % n);
    SameTurn(s.cursor, i, j, n);
  }

  lemma SameTurn(c: nat, i: nat, j: nat, n: nat)
    requires i < n && j < n && (c + i) % n == (c + j) % n
    ensures i == j
  {
    var a, b := (c + i) / n, (c + j) / n;
    assert c + i == a * n + (c + i) % n && c + j == b * n + (c + i) % n;
    assert i - j == (a - b) * n;
    if a > b {
      MulMonotone(1, a - b, n);
    } else if a < b {
      MulMonotone(1, b - a, n);
    }
  }

  lemma AtSome(s: Store, id: Id)
    requires id in s.sessions
    ensures exists i :: 0 <= i < |s.sessions| && At(s, i) == id
  {
    var i := AtCovers(s, id);
  }

  /** How many places behind the cursor a session is. */
  ghost function Dist(s: Store, id: Id): (i: nat)
    requires id in s.sessions
    ensures i < |s.sessions| && At(s, i) == id
  {
    AtSome(s, id);
    var i: nat :| i < |s.sessions| && At(s, i) == id;
    i
  }

  lemma DistIs(s: Store, id: Id, i: nat)
    requires id in s.sessions && i < |s.sessions| && At(s, i) == id
    ensures Dist(s, id) == i
  {
    hide At;
    AtInjective(s, i, Dist(s, id));
  }

  /** Everyone moves up by the place of the session served and one more; it and those before it go to the end. */
  lemma DistMoves(s: Store, m: Msg, id: Id)
    requires StoreInv(s) && Sends(s) && id in s.sessions
    ensures var t := AfterSend(s, m);
            var (n, f) := (|s.sessions|, FirstRoom(s, 0));
            && t.sessions == s.sessions
            && Dist(t, id) == if Dist(s, id) > f then Dist(s, id) - f - 1 else Dist(s, id) + n - f - 1
  {
    hide FirstRoom;
    var t := AfterSend(s, m);
    var (n, f) := (|s.sessions|, FirstRoom(s, 0));
    var i := if Dist(s, id) > f then Dist(s, id) - f - 1 else Dist(s, id) + n - f - 1;
    MovedAt(s, m, i);
    if Dist(s, id) <= f {
      AtRound(s, Dist(s, id));
    }
    assert At(t, i) == id;
    DistIs(t, id, i);
  }

  lemma MovedAt(s: Store, m: Msg, i: nat)
    requires StoreInv(s) && Sends(s)
    ensures AfterSend(s, m).sessions == s.sessions != {}
    ensures At(AfterSend(s, m), i) == At(s, FirstRoom(s, 0) + 1 + i)
  {
    hide FirstRoom;
    OrderNonEmpty(s);
    var n := |s.sessions|;
    var x := s.cursor + FirstRoom(s, 0);
    CursorMoves(s, m, x % n, i);
    ModPlus(x, 1 + i, n);
  }

  // ---------- Taking turns among the sessions with room ----------

  /** At every send, exactly these sessions have room: they never fill up, and the others stay full. */
  ghost predicate RoomFor(s: Store, ops: seq<Op>, open: set<Id>)
    decreases |ops|
  {
    ops != [] ==>
      && (ops[0].Send? ==> forall id <- s.sessions :: HasRoom(s.chans, id) <==> id in open)
      && RoomFor(if ops[0].Send? then AfterSend(s, ops[0].m) else AfterPoll(s, ops[0].id), ops[1..], open)
  }

  /** The sessions with room that come before this one. */
  ghost function Ahead(s: Store, open: set<Id>, id: Id): set<Id>
    requires open <= s.sessions && id in s.sessions
  {
    set x | x in open && Dist(s, x) < Dist(s, id)
  }

  lemma FirstOpen(s: Store, open: set<Id>)
    requires StoreInv(s) && open <= s.sessions && forall id <- s.sessions :: HasRoom(s.chans, id) <==> id in open
    ensures Sends(s) <==> open != {}
    ensures Sends(s) ==> && Target(s) in open && Dist(s, Target(s)) == FirstRoom(s, 0)
                         && forall x <- open :: x != Target(s) ==> FirstRoom(s, 0) < Dist(s, x)
  {
    hide At;
    SendIsFirstFree(s, 0);
    RoomKnown(s);
    if x :| x in open {
      assert HasRoom(s.chans, x);
    }
    if Sends(s) {
      DistIs(s, Target(s), FirstRoom(s, 0));
      forall x <- open | x != Target(s)
        ensures FirstRoom(s, 0) < Dist(s, x)
      {
        assert HasRoom(s.chans, At(s, Dist(s, x)));
      }
    }
  }

  /** The first in line gets the message and goes to the end; everyone else moves up by one. */
  lemma SendTurn(s: Store, m: Msg, open: set<Id>, id: Id)
    requires StoreInv(s) && open <= s.sessions && id in s.sessions
    requires Sends(s) && forall x <- s.sessions :: HasRoom(s.chans, x) <==> x in open
    ensures var t := AfterSend(s, m);
            && t.sessions == s.sessions
            && (id in open ==>
                  if id == Target(s) then Ahead(s, open, id) == {} && Ahead(t, open, id) == open - {id}
                  else Target(s) in Ahead(s, open, id) && Ahead(t, open, id) == Ahead(s, open, id) - {Target(s)})
  {
    hide FirstRoom, Dist, AfterSend, Sends, Target;
    FirstOpen(s, open);
    var t := AfterSend(s, m);
    forall x <- s.sessions
      ensures t.sessions == s.sessions
      ensures var (n, f) := (|s.sessions|, FirstRoom(s, 0));
              Dist(t, x) == if Dist(s, x) > f then Dist(s, x) - f - 1 else Dist(s, x) + n - f - 1
    {
      DistMoves(s, m, x);
    }
  }

  lemma SendGives(s: Store, m: Msg, id: Id)
    requires StoreInv(s) && id in s.sessions
    ensures var t := AfterSend(s, m);
            && id in t.chans
            && Placed(t.chans[id]) == Placed(s.chans[id]) + (if Sends(s) && id == Target(s) then 1 else 0)
  {
    hide FirstRoom, At;
    SendIsFirstFree(s, m);
  }

  /** Polls do not move the cursor. */
  lemma PollTurn(s: Store, x: Id, open: set<Id>, id: Id)
    requires StoreInv(s) && open <= s.sessions && id in s.sessions
    ensures var t := AfterPoll(s, x);
            StoreInv(t) && t.sessions == s.sessions && Ahead(t, open, id) == Ahead(s, open, id)
  {
    hide Dist;
    var t := AfterPoll(s, x);
    PollKeeps(s, x, id);
    forall y <- s.sessions
      ensures t.sessions == s.sessions && Dist(t, y) == Dist(s, y)
    {
      SameDist(s, t, y);
    }
  }

  lemma SameDist(s: Store, t: Store, y: Id)
    requires t.sessions == s.sessions && t.cursor == s.cursor && y in s.sessions
    ensures Dist(t, y) == Dist(s, y)
  {
    DistIs(t, y, Dist(s, y));
  }

  /** With some queues full throughout, polls in between or not, the sessions with room share the messages evenly: after k
      sends each got k / n of them, n being the number of sessions with room, or one more if fewer than k % n of these
      come before it. The others got none. */
  lemma {:induction false} BalanceAmong(s: Store, ops: seq<Op>, open: set<Id>, id: Id)
    requires StoreInv(s) && open <= s.sessions && id in s.sessions && RoomFor(s, ops, open)
    ensures AfterOps(s, ops).sessions == s.sessions && id in AfterOps(s, ops).chans
    ensures Gained(s, ops, id) ==
            if id in open then SendCount(ops) / |open| + if |Ahead(s, open, id)| < SendCount(ops) % |open| then 1 else 0
            else 0
    decreases |ops|
  {
    if ops == [] {
      if id in open {
        DivModUnique(0, 0, 0, |open|);
      }
    } else {
      hide FirstRoom, Dist, Ahead, HasRoom, AfterSend, AfterPoll, Sends, Target, Placed, StoreInv;
      var t := if ops[0].Send? then AfterSend(s, ops[0].m) else AfterPoll(s, ops[0].id);
      FirstOp(s, ops, open, id);
      BalanceAmong(t, ops[1..], open, id);
    }
  }

  /** What the first operation does to the account of a session. */
  lemma FirstOp(s: Store, ops: seq<Op>, open: set<Id>, id: Id)
    requires StoreInv(s) && open <= s.sessions && id in s.sessions && RoomFor(s, ops, open) && ops != []
    ensures var t := if ops[0].Send? then AfterSend(s, ops[0].m) else AfterPoll(s, ops[0].id);
            && StoreInv(t) && t.sessions == s.sessions && RoomFor(t, ops[1..], open)
            && id in s.chans && id in t.chans
            && SendCount(ops) == SendCount(ops[1..]) + (if ops[0].Send? then 1 else 0)
            && Placed(t.chans[id]) - Placed(s.chans[id]) +
               (if id in open then Share(SendCount(ops[1..]), |Ahead(t, open, id)|, |open|) else 0) ==
               (if id in open then Share(SendCount(ops), |Ahead(s, open, id)|, |open|) else 0)
  {
    hide FirstRoom, Dist, Ahead, HasRoom, AfterSend, AfterPoll, Sends, Target, Placed, Share, StoreInv;
    if ops[0].Send? {
      SendShare(s, ops[0].m, open, id, SendCount(ops));
    } else {
      PollTurn(s, ops[0].id, open, id);
      IdKnown(s, id);
      PollKeeps(s, ops[0].id, id);
    }
  }

  lemma IdKnown(s: Store, id: Id)
    requires StoreInv(s) && id in s.sessions
    ensures id in s.chans
  {
  }

  lemma SendKeeps(s: Store, m: Msg)
    requires StoreInv(s)
    ensures StoreInv(AfterSend(s, m)) && AfterSend(s, m).sessions == s.sessions
  {
    hide AfterSend, StoreInv, FirstRoom;
    SendIsFirstFree(s, m);
  }

  lemma SendShare(s: Store, m: Msg, open: set<Id>, id: Id, k: nat)
    requires StoreInv(s) && open <= s.sessions && id in s.sessions && k > 0
    requires forall x <- s.sessions :: HasRoom(s.chans, x) <==> x in open
    ensures var t := AfterSend(s, m);
            && StoreInv(t) && t.sessions == s.sessions && id in s.chans && id in t.chans
            && Placed(t.chans[id]) - Placed(s.chans[id]) +
               (if id in open then Share(k - 1, |Ahead(t, open, id)|, |open|) else 0) ==
               (if id in open then Share(k, |Ahead(s, open, id)|, |open|) else 0)
  {
    hide FirstRoom, Dist, Ahead, HasRoom, AfterSend, Sends, Target, Placed, Share, StoreInv;
    IdKnown(s, id);
    SendKeeps(s, m);
    SendGives(s, m, id);
    FirstOpen(s, open);
    if id in open {
      SendTurn(s, m, open, id);
      AheadFewer(s, open, id);
      ShareStep(k, |Ahead(s, open, id)|, |open|);
    }
  }

  lemma AheadFewer(s: Store, open: set<Id>, id: Id)
    requires open <= s.sessions && id in open
    ensures |Ahead(s, open, id)| < |open|
  {
    hide Dist;
    assert Ahead(s, open, id) <= open - {id};
    Fewer(Ahead(s, open, id), open - {id});
  }

  lemma Fewer(a: set<Id>, b: set<Id>)
    requires a <= b
    ensures |a| <= |b|
  {
    assert b == a + (b - a);
  }
}
