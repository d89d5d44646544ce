/** The agent's sessions and the connections they came over (agent/session.go). CleanupConn takes the lock once for the
    list of a connection and once for each session, so other operations may come in between. */
module SessionRegistries {
  import opened Options

  type Id = string
  type Conn = int

  /** The serial number tells sessions apart that were given the same id. */
  datatype Session = Session(id: Id, serial: int)

  /** closed lists the sessions whose Close was called, in order. */
  datatype Registry = Registry(sessions: map<Id, Session>, connSessions: map<Conn, seq<Id>>, closed: seq<Session>)

  const EMPTY := Registry(map[], map[], [])

  function Listed(r: Registry, conn: Conn): seq<Id> {
    if conn in r.connSessions then r.connSessions[conn] else []
  }

  function Lookup(r: Registry, id: Id): Option<Session> {
    if id in r.sessions then Some(r.sessions[id]) else None
  }

  function Registered(r: Registry, x: Session, conn: Conn): Registry {
    r.(sessions := r.sessions[x.id := x], connSessions := r.connSessions[conn := Listed(r, conn) + [x.id]])
  }

  function Removed(r: Registry, id: Id): Registry {
    if id in r.sessions then r.(sessions := r.sessions - {id}, closed := r.closed + [r.sessions[id]]) else r
  }

  function Unlisted(r: Registry, conn: Conn): Registry {
    r.(connSessions := r.connSessions - {conn})
  }

  function RemovedAll(r: Registry, ids: seq<Id>): Registry {
    if ids == [] then r else Removed(RemovedAll(r, ids[..|ids| - 1]), ids[|ids| - 1])
  }

  /** Removing a list of ids removes exactly the sessions with these ids, whatever repeats. */
  lemma {:induction false} RemovedAllExact(r: Registry, ids: seq<Id>)
    ensures RemovedAll(r, ids).sessions == map k | k in r.sessions && k !in ids :: r.sessions[k]
  {
    if ids != [] {
      var n := |ids| - 1;
      RemovedAllExact(r, ids[..n]);
      assert ids == ids[..n] + [ids[n]];
    }
  }

  /** And each of them is closed once. */
  lemma {:induction false} RemovedAllCloses(r: Registry, ids: seq<Id>, x: Session)
    requires forall k <- r.sessions :: r.sessions[k].id == k
    ensures multiset(RemovedAll(r, ids).closed)[x] ==
            multiset(r.closed)[x] + if x.id in ids && x.id in r.sessions && r.sessions[x.id] == x then 1 else 0
  {
    if ids != [] {
      var front, last := ids[..|ids| - 1], ids[|ids| - 1];
      assert ids == front + [last];
      RemovedAllCloses(r, front, x);
      RemovedAllExact(r, front);
      var t := RemovedAll(r, front);
      assert last in t.sessions <==> last in r.sessions && last !in front;
      assert last in t.sessions ==> t.sessions[last] == r.sessions[last];
    }
  }

  class SessionRegistry {
    var sessions: map<Id, Session>
    var connSessions: map<Conn, seq<Id>>
    var closed: seq<Session>

    ghost function Contents(): Registry
      reads this
    {
      Registry(sessions, connSessions, closed)
    }

    constructor ()
      ensures Contents() == EMPTY
    {
      sessions, connSessions, closed := map[], map[], [];
    }

    method Register(x: Session, conn: Conn)
      modifies this
      ensures Contents() == Registered(old(Contents()), x, conn)
      ensures sessions == old(sessions)[x.id := x] && closed == old(closed)
      ensures conn in connSessions && connSessions[conn] == Listed(old(Contents()), conn) + [x.id]
      ensures connSessions - {conn} == old(connSessions) - {conn}
    {
      sessions := sessions[x.id := x];
      connSessions := connSessions[conn := (if conn in connSessions then connSessions[conn] else []) + [x.id]];
    }

    method Get(id: Id) returns (r: Option<Session>)
      ensures r == Lookup(Contents(), id)
    {
      if id in sessions {
        return Some(sessions[id]);
      }
      return None;
    }

    method Remove(id: Id)
      modifies this
      ensures Contents() == Removed(old(Contents()), id)
      ensures sessions == old(sessions) - {id} && connSessions == old(connSessions)
      ensures closed == old(closed) + if id in old(sessions) then [old(sessions)[id]] else []
    {
      if id in sessions {
        closed := closed + [sessions[id]];
        sessions := sessions - {id};
      }
    }

    /** As it runs when nothing comes in between. */
    method CleanupConn(conn: Conn)
      modifies this
      ensures Contents() == RemovedAll(Unlisted(old(Contents()), conn), Listed(old(Contents()), conn))
      ensures connSessions == old(connSessions) - {conn}
      ensures sessions == old(sessions) - (set id | id in Listed(old(Contents()), conn))
    {
      var ids := if conn in connSessions then connSessions[conn] else [];
      connSessions := connSessions - {conn};
      var i := 0;
      while i < |ids|
        invariant 0 <= i <= |ids|
        invariant Contents() == RemovedAll(Unlisted(old(Contents()), conn), ids[..i])
        invariant connSessions == old(connSessions) - {conn}
      {
        assert ids[..i + 1][..i] == ids[..i];
        Remove(ids[i]);
        i := i + 1;
      }
      assert ids[..i] == ids;
      RemovedAllExact(Unlisted(old(Contents()), conn), ids);
    }
  }

  // ---------- Every interleaving ----------

  /** A cleanup under way: the connection, and the ids still to remove. */
  datatype Cleanup = Cleanup(conn: Conn, ids: seq<Id>)

  /** owner and hidden are logs: the connection that each session was registered for, and the sessions that were live
      when another was registered under their id. */
  datatype State = State(reg: Registry, cleanups: seq<Cleanup>, owner: map<Session, Conn>, hidden: set<Session>)

  datatype Step =
    | Register(x: Session, conn: Conn)
    | Remove(id: Id)
    | StartCleanup(conn: Conn)
    | CleanupNext(k: nat)

  /** A session is registered once, when it is new; its id may be anything. */
  predicate Enabled(s: State, a: Step) {
    match a
    case Register(x, _) => x !in s.owner
    case CleanupNext(k) => k < |s.cleanups| && s.cleanups[k].ids != []
    case _ => true
  }

  function Next(s: State, a: Step): State
    requires Enabled(s, a)
  {
    match a
    case Register(x, conn) =>
      s.(reg := Registered(s.reg, x, conn), owner := s.owner[x := conn],
         hidden := s.hidden + if x.id in s.reg.sessions then {s.reg.sessions[x.id]} else {})
    case Remove(id) => s.(reg := Removed(s.reg, id))
    case StartCleanup(conn) =>
      s.(reg := Unlisted(s.reg, conn), cleanups := s.cleanups + [Cleanup(conn, Listed(s.reg, conn))])
    case CleanupNext(k) =>
      var c := s.cleanups[k];
      s.(reg := Removed(s.reg, c.ids[0]), cleanups := s.cleanups[k := c.(ids := c.ids[1..])])
  }

  function After(steps: seq<Step>): Option<State> {
    if steps == [] then Some(State(EMPTY, [], map[], {}))
    else
      var s, a := After(steps[..|steps| - 1]), steps[|steps| - 1];
      if s.Some? && Enabled(s.value, a) then Some(Next(s.value, a)) else None
  }

  predicate Live(s: State, x: Session) {
    x.id in s.reg.sessions && s.reg.sessions[x.id] == x
  }

  function Closes(s: State, x: Session): nat {
    multiset(s.reg.closed)[x]
  }

  /** Some cleanup of the connection has yet to remove the session. */
  ghost predicate Doomed(s: State, id: Id, conn: Conn) {
    exists k :: 0 <= k < |s.cleanups| && s.cleanups[k].conn == conn && id in s.cleanups[k].ids
  }

  /** A session is live and a cleanup of its connection will find it, or it was hidden and is beyond reach, or it was
      closed exactly once. */
  ghost predicate Accounted(s: State, x: Session)
    requires x in s.owner
  {
    && Closes(s, x) == (if Live(s, x) || x in s.hidden then 0 else 1)
    && (Live(s, x) ==> x !in s.hidden && (x.id in Listed(s.reg, s.owner[x]) || Doomed(s, x.id, s.owner[x])))
  }

  ghost predicate Logged(s: State) {
    && (forall k <- s.reg.sessions :: s.reg.sessions[k].id == k && s.reg.sessions[k] in s.owner)
    && (forall x <- s.reg.closed :: x in s.owner)
    && (forall x <- s.hidden :: x in s.owner)
  }

  ghost predicate Inv(s: State) {
    Logged(s) && forall x <- s.owner :: Accounted(s, x)
  }

  lemma RegisterAccounted(s: State, x: Session, conn: Conn, y: Session)
    requires Inv(s) && Enabled(s, Register(x, conn)) && (y in s.owner || y == x)
    ensures Accounted(Next(s, Register(x, conn)), y)
  {
    var t := Next(s, Register(x, conn));
    if y != x {
      assert Accounted(s, y);
      if Doomed(s, y.id, s.owner[y]) {
        var k :| 0 <= k < |s.cleanups| && s.cleanups[k].conn == s.owner[y] && y.id in s.cleanups[k].ids;
        assert t.cleanups[k] == s.cleanups[k];
      }
    }
  }

  lemma RemoveAccounted(s: State, id: Id, y: Session)
    requires Logged(s) && y in s.owner && Accounted(s, y)
    ensures Accounted(Next(s, Remove(id)), y)
  {
    var t := Next(s, Remove(id));
    if Live(t, y) && Doomed(s, y.id, s.owner[y]) {
      var k :| 0 <= k < |s.cleanups| && s.cleanups[k].conn == s.owner[y] && y.id in s.cleanups[k].ids;
      assert t.cleanups[k] == s.cleanups[k];
    }
  }

  lemma StartAccounted(s: State, conn: Conn, y: Session)
    requires y in s.owner && Accounted(s, y)
    ensures Accounted(Next(s, StartCleanup(conn)), y)
  {
    var t := Next(s, StartCleanup(conn));
    if Live(s, y) {
      if Doomed(s, y.id, s.owner[y]) {
        var k :| 0 <= k < |s.cleanups| && s.cleanups[k].conn == s.owner[y] && y.id in s.cleanups[k].ids;
        assert t.cleanups[k] == s.cleanups[k];
      } else if s.owner[y] == conn {
        assert t.cleanups[|s.cleanups|] == Cleanup(conn, Listed(s.reg, conn));
      }
    }
  }

  /** The id is struck from the list, but by then the session is no longer live. */
  lemma CleanupAccounted(s: State, k: nat, y: Session)
    requires Enabled(s, CleanupNext(k)) && Logged(s) && y in s.owner && Accounted(s, y)
    ensures Accounted(Next(s, CleanupNext(k)), y)
  {
    var t := Next(s, CleanupNext(k));
    var ids := s.cleanups[k].ids;
    RemoveAccounted(s, ids[0], y);
    if Live(t, y) && Doomed(s, y.id, s.owner[y]) {
      var j :| 0 <= j < |s.cleanups| && s.cleanups[j].conn == s.owner[y] && y.id in s.cleanups[j].ids;
      assert ids == [ids[0]] + ids[1..];
      assert t.cleanups[j].conn == s.owner[y] && y.id in t.cleanups[j].ids;
    }
  }

  lemma StepKeeps(s: State, a: Step)
    requires Inv(s) && Enabled(s, a)
    ensures Inv(Next(s, a))
  {
    hide Accounted;
    var t := Next(s, a);
    forall y <- t.owner
      ensures Accounted(t, y)
    {
      match a
      case Register(x, conn) => RegisterAccounted(s, x, conn, y);
      case Remove(id) => RemoveAccounted(s, id, y);
      case StartCleanup(conn) => StartAccounted(s, conn, y);
      case CleanupNext(k) => CleanupAccounted(s, k, y);
    }
  }

  lemma {:induction false} RunKeeps(steps: seq<Step>)
    requires After(steps).Some?
    ensures Inv(After(steps).value)
  {
    if steps != [] {
      hide Inv, Next, Enabled;
      RunKeeps(steps[..|steps| - 1]);
      StepKeeps(After(steps[..|steps| - 1]).value, steps[|steps| - 1]);
    }
  }

  // ---------- What Get finds ----------

  /** The step registers a session under the id, or removes the id. */
  predicate Touches(s: State, a: Step, id: Id)
    requires Enabled(s, a)
  {
    match a
    case Register(x, _) => x.id == id
    case Remove(i) => i == id
    case StartCleanup(_) => false
    case CleanupNext(k) => s.cleanups[k].ids[0] == id
  }

  ghost predicate TouchedAt(steps: seq<Step>, j: nat, id: Id)
    requires j < |steps|
  {
    After(steps[..j]).Some? && Enabled(After(steps[..j]).value, steps[j]) && Touches(After(steps[..j]).value, steps[j], id)
  }

  /** The step at i registered this session, and no later step touched its id. */
  ghost predicate LastAt(steps: seq<Step>, i: nat, x: Session) {
    && i < |steps| && steps[i].Register? && steps[i].x == x
    && forall j :: i < j < |steps| ==> !TouchedAt(steps, j, x.id)
  }

  lemma LookupStep(s: State, a: Step, x: Session)
    requires Enabled(s, a)
    ensures Lookup(Next(s, a).reg, x.id) == Some(x) <==>
            if Touches(s, a, x.id) then a.Register? && a.x == x else Lookup(s.reg, x.id) == Some(x)
  {
  }

  lemma LastStep(front: seq<Step>, a: Step, i: nat, x: Session)
    requires i < |front| && After(front).Some? && Enabled(After(front).value, a)
    ensures LastAt(front + [a], i, x) <==> LastAt(front, i, x) && !Touches(After(front).value, a, x.id)
  {
    hide After, Touches, Enabled;
    var steps := front + [a];
    assert steps[..|front|] == front;
    forall j | 0 <= j < |front|
      ensures TouchedAt(steps, j, x.id) <==> TouchedAt(front, j, x.id)
    {
      assert steps[..j] == front[..j];
    }
    assert TouchedAt(steps, |front|, x.id) <==> Touches(After(front).value, a, x.id);
  }

  /** In every run, Get finds a session if and only if it was registered and its id neither registered again nor removed
      since. */
  lemma {:induction false} LookupIsLast(steps: seq<Step>, x: Session)
    requires After(steps).Some?
    ensures Lookup(After(steps).value.reg, x.id) == Some(x) <==> exists i: nat :: LastAt(steps, i, x)
  {
    hide LastAt, Touches, Enabled, Next, Lookup;
    if steps == [] {
      NothingLast(x);
    } else {
      var front, a := steps[..|steps| - 1], steps[|steps| - 1];
      assert steps == front + [a];
      LookupIsLast(front, x);
      LookupStep(After(front).value, a, x);
      forall i: nat | i < |front|
        ensures LastAt(steps, i, x) <==> LastAt(front, i, x) && !Touches(After(front).value, a, x.id)
      {
        LastStep(front, a, i, x);
      }
      LastIsNew(front, a, x);
      LastTouches(a, After(front).value, x);
    }
  }

  lemma NothingLast(x: Session)
    ensures !exists i: nat :: LastAt([], i, x)
    ensures Lookup(After([]).value.reg, x.id) == None
  {
  }

  lemma LastIsNew(front: seq<Step>, a: Step, x: Session)
    ensures LastAt(front + [a], |front|, x) <==> a.Register? && a.x == x
    ensures forall i: nat :: LastAt(front + [a], i, x) ==> i <= |front|
    ensures forall i: nat :: LastAt(front, i, x) ==> i < |front|
  {
  }

  lemma LastTouches(a: Step, s: State, x: Session)
    requires Enabled(s, a)
    ensures a.Register? && a.x == x ==> Touches(s, a, x.id)
  {
  }

  // ---------- Closed exactly once, and when not ----------

  /** In every run, whatever ids are used: a session was closed once if it is neither live nor was ever hidden, and
      otherwise not at all; and a hidden session is not live. */
  lemma ClosesExact(steps: seq<Step>, x: Session)
    requires After(steps).Some? && x in After(steps).value.owner
    ensures var s := After(steps).value;
            && Closes(s, x) == (if Live(s, x) || x in s.hidden then 0 else 1)
            && !(Live(s, x) && x in s.hidden)
  {
    hide After;
    RunKeeps(steps);
    assert Accounted(After(steps).value, x);
  }

  /** Some session of the run was registered under the id of a live one. */
  predicate MetLive(steps: seq<Step>) {
    steps != [] &&
    var front, a := steps[..|steps| - 1], steps[|steps| - 1];
    MetLive(front) || (a.Register? && After(front).Some? && a.x.id in After(front).value.reg.sessions)
  }

  lemma {:induction false} HiddenIff(steps: seq<Step>)
    requires After(steps).Some?
    ensures After(steps).value.hidden != {} <==> MetLive(steps)
  {
    if steps != [] {
      var front, a := steps[..|steps| - 1], steps[|steps| - 1];
      HiddenIff(front);
      if a.Register? && a.x.id in After(front).value.reg.sessions {
        assert After(front).value.reg.sessions[a.x.id] in After(steps).value.hidden;
      }
    }
  }

  ghost predicate LiveOrClosedOnce(s: State, x: Session) {
    Closes(s, x) == if Live(s, x) then 0 else 1
  }

  /** In every run each session is live and was never closed, or was closed exactly once, if and only if no session was
      registered under the id of a live one. An id may come again once its session is gone. */
  lemma ClosedOnce(steps: seq<Step>)
    requires After(steps).Some?
    ensures var s := After(steps).value;
            (forall x <- s.owner :: LiveOrClosedOnce(s, x)) <==> !MetLive(steps)
  {
    hide After, Next, Enabled, MetLive;
    HiddenIff(steps);
    RunKeeps(steps);
    var s := After(steps).value;
    forall x <- s.owner
      ensures LiveOrClosedOnce(s, x) <==> x !in s.hidden
    {
      ClosesExact(steps, x);
    }
    if x :| x in s.hidden {
      assert x in s.owner && !LiveOrClosedOnce(s, x);
    }
  }

  ghost predicate CleanedUp(s: State, conn: Conn) {
    conn !in s.reg.connSessions && forall c <- s.cleanups :: c.conn == conn ==> c.ids == []
  }

  /** In every run, whatever ids are used: when the cleanups of a connection are through, none of its sessions is live,
      and each was closed exactly once unless it was hidden. */
  lemma CleanedUpCloses(steps: seq<Step>, x: Session)
    requires After(steps).Some? && x in After(steps).value.owner
    requires CleanedUp(After(steps).value, After(steps).value.owner[x])
    ensures !Live(After(steps).value, x)
    ensures Closes(After(steps).value, x) == 1 <==> x !in After(steps).value.hidden
  {
    hide After;
    RunKeeps(steps);
    assert Accounted(After(steps).value, x);
  }

  /** What was hidden stays hidden. */
  lemma {:induction false} HiddenStays(steps: seq<Step>, more: seq<Step>, x: Session)
    requires After(steps).Some? && x in After(steps).value.hidden && After(steps + more).Some?
    ensures x in After(steps + more).value.hidden
    decreases |more|
  {
    hide Enabled;
    if more == [] {
      assert steps + more == steps;
    } else {
      var front := more[..|more| - 1];
      assert (steps + more)[..|steps + more| - 1] == steps + front;
      HiddenStays(steps, front, x);
    }
  }

  /** A session that was hidden is never closed, however the run goes on. */
  lemma NeverClosed(steps: seq<Step>, more: seq<Step>, x: Session)
    requires After(steps).Some? && x in After(steps).value.hidden && After(steps + more).Some?
    ensures !Live(After(steps + more).value, x) && Closes(After(steps + more).value, x) == 0
  {
    hide After, Next, Enabled;
    HiddenStays(steps, more, x);
    RunKeeps(steps + more);
    ClosesExact(steps + more, x);
  }

  /** What an id used twice leads to: the second session hides the first, the cleanup of the first connection closes
      the second connection's session, and in no continuation is the first session ever closed. */
  lemma ReusedId(id: Id, first: Conn, second: Conn, more: seq<Step>)
    requires first != second
    ensures var x, y := Session(id, 1), Session(id, 2);
            var steps := [Register(x, first), Register(y, second), StartCleanup(first), CleanupNext(0)];
            && After(steps).Some?
            && After(steps).value.reg.sessions == map[] && After(steps).value.reg.closed == [y]
            && (After(steps + more).Some? ==> Closes(After(steps + more).value, x) == 0)
  {
    hide Enabled, Next, After;
    var x, y := Session(id, 1), Session(id, 2);
    var steps := [] + [Register(x, first)] + [Register(y, second)] + [StartCleanup(first)] + [CleanupNext(0)];
    assert steps == [Register(x, first), Register(y, second), StartCleanup(first), CleanupNext(0)];
    AfterNothing();
    AfterLast([], Register(x, first));
    AfterLast([] + [Register(x, first)], Register(y, second));
    AfterLast([] + [Register(x, first)] + [Register(y, second)], StartCleanup(first));
    AfterLast([] + [Register(x, first)] + [Register(y, second)] + [StartCleanup(first)], CleanupNext(0));
    ReusedSteps(id, first, second);
    if After(steps + more).Some? {
      NeverClosed(steps, more, x);
    }
  }

  lemma AfterNothing()
    ensures After([]) == Some(State(EMPTY, [], map[], {}))
  {
  }

  lemma AfterLast(front: seq<Step>, a: Step)
    ensures After(front + [a]) ==
            if After(front).Some? && Enabled(After(front).value, a) then Some(Next(After(front).value, a)) else None
  {
    assert (front + [a])[..|front|] == front;
  }

  lemma ReusedSteps(id: Id, first: Conn, second: Conn)
    requires first != second
    ensures var x, y := Session(id, 1), Session(id, 2);
            var s0 := State(EMPTY, [], map[], {});
            && Enabled(s0, Register(x, first))
            && var s1 := Next(s0, Register(x, first));
               && Enabled(s1, Register(y, second))
               && var s2 := Next(s1, Register(y, second));
                  && Enabled(s2, StartCleanup(first))
                  && var s3 := Next(s2, StartCleanup(first));
                     && Enabled(s3, CleanupNext(0))
                     && var s4 := Next(s3, CleanupNext(0));
                        s4.reg.sessions == map[] && s4.reg.closed == [y] && x in s4.hidden
  {
    var x, y := Session(id, 1), Session(id, 2);
    var s0 := State(EMPTY, [], map[], {});
    var s1 := Next(s0, Register(x, first));
    var s2 := Next(s1, Register(y, second));
    assert Listed(s2.reg, first) == [id];
  }
}
