/** Exactly when a remote-exec call can still end with the message that the agent ended its session with. */
module ExecEndings {
  import opened Bytes
  import opened Options
  import opened Replies
  import opened ExecProtocols

  /** The outcome that a message which ends a session gives a call. */
  predicate EndsBy(p: Phase, e: Reply) {
    p.Returned? && match e
                   case ExitCode(code) => p.outcome.Ok? && p.outcome.code == code
                   case Failed => p.outcome == AgentError
                   case Output(_, _) => false
  }

  ghost predicate CanEnd(s: State, id: Id, e: Reply) {
    exists steps :: && Run(s, steps).Some?
                    && var t := Run(s, steps).value; id in t.sessions && EndsBy(t.sessions[id].call.phase, e)
  }

  /** The message waits in the call's queue, or is on a wire that still delivers. */
  predicate OnItsWay(s: State, id: Id, e: Reply)
    requires id in s.sessions
  {
    var c := s.sessions[id].call;
    (c.queue.Some? && e in c.queue.value) || (!s.broken && e in For(s.up, id))
  }

  predicate Waits(p: Phase) {
    p.Feeding? || p.Collecting?
  }

  // ---------- What the agent sent last ----------

  /** The agent sends nothing more for the session. */
  predicate Through(x: Session) {
    x.routed != [] && (x.remote.None? || x.remote.value.waiter.Notified?)
  }

  lemma EndingIsLast(x: Session, e: Reply)
    requires AgentInv(x) && e in x.sent && !e.Output?
    ensures Through(x)
    ensures forall m <- x.sent :: m.Output? || m == e
  {
    hide Payload, StdinInv;
    var i :| 0 <= i < |x.sent| && x.sent[i] == e;
    forall m <- x.sent
      ensures m.Output? || m == e
    {
      var k :| 0 <= k < |x.sent| && x.sent[k] == m;
    }
  }

  lemma QueueFromSent(s: State, id: Id)
    requires Inv(s) && id in s.sessions && !s.sessions[id].call.phase.Returned?
    ensures var x := s.sessions[id];
            && x.call.queue.Some? && AllOutputs(x.call.consumed)
            && (forall m <- x.call.queue.value :: m in x.sent)
            && (forall m <- For(s.up, id) :: m in x.sent)
  {
    hide AgentInv, IssueInv, ReturnInv, DoneInv, Subsequence, Weight, For;
    var x := s.sessions[id];
    assert LocalInv(x) && WireInv(s, id, x);
    var c := x.call;
    forall m <- c.queue.value
      ensures m in x.sent
    {
      assert m in Accepted(c);
      SubsequenceMember(Accepted(c), c.arrived, m);
    }
  }

  // ---------- A message that is not on its way ----------

  /** The call waits for nothing, or ended without a message. */
  ghost predicate InVain(s: State, id: Id) {
    && id in s.sessions && Through(s.sessions[id])
    && var c := s.sessions[id].call;
       && (Waits(c.phase) || c.phase == Returned(ConnectionClosed) || c.phase == Returned(SendError))
       && (c.queue.Some? ==> AllOutputs(c.queue.value))
       && (s.broken || AllOutputs(For(s.up, id)))
  }

  lemma InVainCall(s: State, id: Id, c: CallStep)
    requires Inv(s) && InVain(s, id) && Enabled(s, OnCall(id, c))
    ensures InVain(Next(s, OnCall(id, c)), id)
  {
    hide LocalInv, WireInv, For, Payload;
    if c == Receive {
      assert s.sessions[id].call.queue.value[0] in s.sessions[id].call.queue.value;
    }
  }

  lemma ThroughSends(s: State, id: Id, a: AgentStep)
    requires Inv(s) && InVain(s, id) && Enabled(s, OnAgent(id, a))
    ensures AgentSends(s.sessions[id].remote.value, a) == []
    ensures AgentNext(s.sessions[id].remote.value, a).waiter.Notified?
  {
    hide IssueInv, QueueInv, ReturnInv, DoneInv, WireInv, Payload, SentInv, StdinInv, For;
    assert LocalInv(s.sessions[id]);
  }

  lemma InVainAgent(s: State, id: Id, a: AgentStep)
    requires Inv(s) && InVain(s, id) && Enabled(s, OnAgent(id, a))
    ensures InVain(Next(s, OnAgent(id, a)), id)
  {
    hide Inv, For, AgentSends, AgentNext, AgentEnabled;
    ThroughSends(s, id, a);
    assert s.up + [] == s.up;
  }

  /** The only command the router refuses is a session's first. */
  lemma NoSecondExec(s: State)
    requires Inv(s) && s.down != [] && s.down[0].id in s.sessions
    ensures s.down[0].body.Exec? ==> s.sessions[s.down[0].id].routed == []
  {
    hide QueueInv, ReturnInv, DoneInv, AgentInv, Script, For;
    var m := s.down[0];
    var x := s.sessions[m.id];
    assert LocalInv(x) && WireInv(s, m.id, x);
    ForHead(s.down, m.id);
    IssuedIsPrefix(x.call);
    var i := |x.routed|;
    var rest := For(s.down[1..], m.id);
    assert x.call.issued == x.routed + ([m.body] + rest);
    assert x.call.issued[i] == m.body == Script(x.call.cmd, x.call.stdin)[i];
    if m.body.Exec? {
      ExecIsFirst(x.call.cmd, x.call.stdin, i);
    }
  }

  lemma InVainRoute(s: State, id: Id, started: bool, accepted: nat)
    requires Inv(s) && InVain(s, id) && Enabled(s, Route(started, accepted))
    ensures InVain(Next(s, Route(started, accepted)), id)
  {
    hide Inv, For;
    NoSecondExec(s);
    var m := s.down[0];
    ForTag(s.up, m.id, Refusal(m.body, started), id);
    assert s.up + [] == s.up && For(s.up, id) + [] == For(s.up, id);
  }

  lemma InVainDispatch(s: State, id: Id)
    requires InVain(s, id) && Enabled(s, Dispatch)
    ensures InVain(Next(s, Dispatch), id)
  {
    hide For;
    ForHead(s.up, id);
    var m := s.up[0];
    if m.id == id {
      assert For(s.up, id)[0] == m.body;
      assert m.body in For(s.up, id);
      assert m.body.Output?;
    }
  }

  lemma InVainOther(s: State, id: Id, a: Step)
    requires Inv(s) && InVain(s, id) && Enabled(s, a)
    requires a.Start? || a.SystemMessage? || a.Break? || a.Close?
             || (a.OnCall? && a.id != id) || (a.OnAgent? && a.id != id)
    ensures InVain(Next(s, a), id)
  {
    hide For, LocalInv, WireInv, AgentSends, AgentNext, AgentEnabled, CallSends, CallNext;
    if a.SystemMessage? {
      ForAppend(s.up, Tagged("", a.m), id);
      assert For(s.up, id) + [] == For(s.up, id);
    } else if a.OnAgent? {
      ForTag(s.up, a.id, AgentSends(s.sessions[a.id].remote.value, a.a), id);
      assert For(s.up, id) + [] == For(s.up, id);
    }
  }

  lemma InVainStep(s: State, id: Id, a: Step)
    requires Inv(s) && InVain(s, id) && Enabled(s, a)
    ensures InVain(Next(s, a), id)
  {
    hide Inv, InVain, Enabled, Next;
    match a
    case Route(started, accepted) => InVainRoute(s, id, started, accepted);
    case Dispatch => InVainDispatch(s, id);
    case OnCall(x, c) =>
      if x == id {
        InVainCall(s, id, c);
      } else {
        InVainOther(s, id, a);
      }
    case OnAgent(x, p) =>
      if x == id {
        InVainAgent(s, id, p);
      } else {
        InVainOther(s, id, a);
      }
    case _ => InVainOther(s, id, a);
  }

  lemma {:induction false} InVainRun(s: State, id: Id, steps: seq<Step>)
    requires Inv(s) && InVain(s, id) && Run(s, steps).Some?
    ensures InVain(Run(s, steps).value, id)
    decreases |steps|
  {
    hide Inv, InVain, Enabled, Next;
    if steps != [] {
      StepKeeps(s, steps[0]);
      InVainStep(s, id, steps[0]);
      InVainRun(Next(s, steps[0]), id, steps[1..]);
    }
  }

  // ---------- A message that is on its way ----------

  lemma OneMore(s: State, a: Step, id: Id, e: Reply)
    requires Enabled(s, a) && CanEnd(Next(s, a), id, e)
    ensures CanEnd(s, id, e)
  {
    hide Next, Enabled, EndsBy;
    var t := Next(s, a);
    var steps :| Run(t, steps).Some? && id in Run(t, steps).value.sessions
                 && EndsBy(Run(t, steps).value.sessions[id].call.phase, e);
    assert ([a] + steps)[1..] == steps;
    assert Run(s, [a] + steps) == Run(t, steps);
  }

  /** The caller writes what is left of its input. */
  lemma FeedOne(s: State, id: Id, e: Reply) returns (a: Step)
    requires Inv(s) && id in s.sessions && s.sessions[id].call.phase.Feeding? && OnItsWay(s, id, e)
    ensures Enabled(s, a)
    ensures var t := Next(s, a);
            && id in t.sessions && t.up == s.up && OnItsWay(t, id, e) && t.sessions[id].sent == s.sessions[id].sent
            && var c, d := s.sessions[id].call, t.sessions[id].call;
               && c.stdin.Some? && d.stdin == c.stdin && Waits(d.phase)
               && (d.phase.Feeding? ==> c.phase.off < |c.stdin.value| && d.phase.off == c.phase.off + CHUNK)
  {
    hide QueueInv, ReturnInv, DoneInv, AgentInv, WireInv, For, Script, Feed;
    assert LocalInv(s.sessions[id]);
    var c := s.sessions[id].call;
    a := OnCall(id, if c.phase.off < |c.stdin.value| then SendChunk else SendClose);
  }

  lemma {:induction false} FeedAll(s: State, id: Id, e: Reply)
    requires Inv(s) && id in s.sessions && Waits(s.sessions[id].call.phase) && OnItsWay(s, id, e)
    requires e in s.sessions[id].sent && !e.Output?
    ensures CanEnd(s, id, e)
    decreases var c := s.sessions[id].call;
              if c.phase.Feeding? && c.stdin.Some? && c.phase.off < |c.stdin.value| then |c.stdin.value| - c.phase.off
              else 0,
              s.sessions[id].call.phase.Feeding?
  {
    hide Inv, Next, Enabled, OnItsWay;
    if s.sessions[id].call.phase.Feeding? {
      var a := FeedOne(s, id, e);
      StepKeeps(s, a);
      FeedAll(Next(s, a), id, e);
      OneMore(s, a, id, e);
    } else {
      CollectAll(s, id, e);
    }
  }

  /** The collector receives the next message. */
  lemma ReceiveOne(s: State, id: Id, e: Reply)
    requires Inv(s) && id in s.sessions && s.sessions[id].call.phase == Collecting
    requires e in s.sessions[id].sent && !e.Output?
    requires s.sessions[id].call.queue.Some? && s.sessions[id].call.queue.value != [] && OnItsWay(s, id, e)
    ensures Enabled(s, OnCall(id, Receive))
    ensures var t := Next(s, OnCall(id, Receive));
            && id in t.sessions && t.up == s.up && t.sessions[id].sent == s.sessions[id].sent
            && var c, d := s.sessions[id].call, t.sessions[id].call;
               if c.queue.value[0] == e then EndsBy(d.phase, e)
               else d.phase == Collecting && d.queue == Some(c.queue.value[1..]) && OnItsWay(t, id, e)
  {
    hide Inv, For, Payload;
    var c := s.sessions[id].call;
    QueueFromSent(s, id);
    assert c.queue.value[0] in c.queue.value;
    assert LocalInv(s.sessions[id]) by {
      InvLocal(s, id);
    }
    EndingIsLast(s.sessions[id], e);
  }

  lemma InvLocal(s: State, id: Id)
    requires Inv(s) && id in s.sessions
    ensures LocalInv(s.sessions[id]) && AgentInv(s.sessions[id])
  {
    hide IssueInv, QueueInv, DoneInv, AgentInv, ReturnInv;
  }

  /** With an empty queue the dispatcher hands on the next message. */
  lemma DispatchOne(s: State, id: Id, e: Reply)
    requires Inv(s) && id in s.sessions && s.sessions[id].call.phase == Collecting
    requires s.sessions[id].call.queue == Some([]) && OnItsWay(s, id, e)
    ensures Enabled(s, Dispatch)
    ensures var t := Next(s, Dispatch);
            && id in t.sessions && t.sessions[id].call.phase == Collecting && t.sessions[id].call.queue.Some?
            && |t.up| < |s.up| && OnItsWay(t, id, e) && t.sessions[id].sent == s.sessions[id].sent
  {
    hide Inv, For;
    NothingFor<Reply>(id);
    ForHead(s.up, id);
  }

  lemma NothingFor<T>(id: Id)
    ensures For<T>([], id) == []
  {
  }

  lemma {:induction false} CollectAll(s: State, id: Id, e: Reply)
    requires Inv(s) && id in s.sessions && s.sessions[id].call.phase == Collecting && OnItsWay(s, id, e)
    requires e in s.sessions[id].sent && !e.Output?
    ensures CanEnd(s, id, e)
    decreases |s.up|, if s.sessions[id].call.queue.Some? then |s.sessions[id].call.queue.value| else 0
  {
    hide Inv, Next, Enabled, OnItsWay, EndsBy;
    QueueFromSent(s, id);
    if s.sessions[id].call.queue.value == [] {
      DispatchOne(s, id, e);
      StepKeeps(s, Dispatch);
      CollectAll(Next(s, Dispatch), id, e);
      OneMore(s, Dispatch, id, e);
    } else {
      var a := OnCall(id, Receive);
      ReceiveOne(s, id, e);
      StepKeeps(s, a);
      if s.sessions[id].call.queue.value[0] == e {
        assert Run(Next(s, a), []) == Some(Next(s, a));
      } else {
        CollectAll(Next(s, a), id, e);
      }
      OneMore(s, a, id, e);
    }
  }

  // ---------- Both ----------

  lemma NotOnItsWay(s: State, id: Id, e: Reply)
    requires Inv(s) && id in s.sessions && Waits(s.sessions[id].call.phase) && !OnItsWay(s, id, e)
    requires e in s.sessions[id].sent && !e.Output?
    ensures InVain(s, id)
  {
    hide Inv, AgentInv, For;
    InvLocal(s, id);
    QueueFromSent(s, id);
    EndingIsLast(s.sessions[id], e);
  }

  /** A message that arrived and is not in the queue was dropped. */
  lemma EndingDropped(s: State, id: Id, e: Reply)
    requires Inv(s) && id in s.sessions && Waits(s.sessions[id].call.phase)
    requires e in s.sessions[id].sent && !e.Output? && !OnItsWay(s, id, e) && !(s.broken && e in For(s.up, id))
    ensures s.sessions[id].call.dropped > 0
  {
    hide AgentInv, IssueInv, ReturnInv, DoneInv, Subsequence, Weight, For;
    var x := s.sessions[id];
    assert LocalInv(x) && WireInv(s, id, x);
    var c := x.call;
    assert e in c.arrived;
    assert e !in Accepted(c);
  }

  /** In every reachable state in which the agent has ended a session and the call still waits: the call can end with
      that message if and only if it is on its way. Otherwise it was dropped on a full queue, or is lost with the
      connection, and the call can only end when the connection closes or a write to it fails. */
  lemma EndsIff(before: seq<Step>, s: State, id: Id, e: Reply)
    requires Run(Init(), before) == Some(s) && id in s.sessions && Waits(s.sessions[id].call.phase)
    requires e in s.sessions[id].sent && !e.Output?
    ensures CanEnd(s, id, e) <==> OnItsWay(s, id, e)
    ensures !OnItsWay(s, id, e) ==> s.sessions[id].call.dropped > 0 || (s.broken && e in For(s.up, id))
    ensures !OnItsWay(s, id, e) ==>
              forall steps :: Run(s, steps).Some? ==>
                && id in Run(s, steps).value.sessions
                && var p := Run(s, steps).value.sessions[id].call.phase;
                   Waits(p) || p == Returned(ConnectionClosed) || p == Returned(SendError)
  {
    hide Run, Inv, OnItsWay, For;
    InitInv();
    RunKeeps(Init(), before);
    if OnItsWay(s, id, e) {
      FeedAll(s, id, e);
    } else {
      NotOnItsWay(s, id, e);
      if !(s.broken && e in For(s.up, id)) {
        EndingDropped(s, id, e);
      }
      forall steps | Run(s, steps).Some?
        ensures InVain(Run(s, steps).value, id)
      {
        InVainRun(s, id, steps);
      }
    }
  }
}
