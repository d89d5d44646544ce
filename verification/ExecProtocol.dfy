/** The remote-exec protocol as a state machine: callers and the dispatcher of ReverseAgentConn on one side, the
    router, the stream readers and the waiter of the agent on the other, and between them two FIFO wires that all
    sessions share. One step is one critical section, one channel operation or one loop iteration. */
module ExecProtocols {
  import opened Bytes
  import opened Replies
  import opened Options

  const QUEUE_CAPACITY: nat := 64

  // ---------- The agent's side of one session ----------

  datatype PipeStep = Write(data: seq<Byte>) | End | Take(n: nat) | Forward | ReadEnds

  /** One output pipe of the child and the goroutine that reads it. */
  datatype Pipe = Pipe(
    written: seq<Byte>,  // by the child
    ended: bool,         // all write ends closed
    taken: seq<Byte>,    // read so far
    held: seq<Byte>,     // read last and not yet sent
    finished: bool)      // readStream has returned

  predicate PipeEnabled(p: Pipe, a: PipeStep) {
    match a
    case Write(_) => !p.ended
    case End => true
    case Take(n) => !p.finished && p.held == [] && 0 < n <= CHUNK && |p.taken| + n <= |p.written|
    case Forward => p.held != []
    case ReadEnds => !p.finished && p.held == [] && p.ended && |p.taken| == |p.written|
  }

  function PipeNext(p: Pipe, a: PipeStep): Pipe
    requires PipeEnabled(p, a)
  {
    match a
    case Write(data) => p.(written := p.written + data)
    case End => p.(ended := true)
    case Take(n) =>
      var c := p.written[|p.taken|..|p.taken| + n];
      p.(taken := p.taken + c, held := c)
    case Forward => p.(held := [])
    case ReadEnds => p.(finished := true)
  }

  /** How cmd.Wait ended: without error, with an exit status, or with another error. */
  datatype WaitResult = Clean | Status(code: int) | OtherError

  function CodeOf(w: WaitResult): int {
    match w
    case Clean => 0
    case Status(code) => code
    case OtherError => 1
  }

  datatype Waiter = Waiting | Reaped(code: int) | Notified(code: int)

  datatype Remote = Remote(
    out: Pipe,
    err: Pipe,
    exit: Option<WaitResult>,
    waiter: Waiter,
    stdin: seq<Byte>,      // bytes that reached the child's standard input
    stdinClosed: bool,
    stdinBroken: bool)     // a write to it failed

  datatype AgentStep = OnPipe(st: Stream, a: PipeStep) | ChildExits(w: WaitResult) | Reap | Notify

  function PipeOf(r: Remote, st: Stream): Pipe {
    if st == Stdout then r.out else r.err
  }

  function WithPipe(r: Remote, st: Stream, p: Pipe): Remote {
    if st == Stdout then r.(out := p) else r.(err := p)
  }

  /** waitAndNotify: first both readers, then cmd.Wait, then the exit message. */
  predicate AgentEnabled(r: Remote, a: AgentStep) {
    match a
    case OnPipe(st, p) => PipeEnabled(PipeOf(r, st), p)
    case ChildExits(_) => r.exit.None?
    case Reap => r.waiter.Waiting? && r.out.finished && r.err.finished && r.exit.Some?
    case Notify => r.waiter.Reaped?
  }

  function AgentNext(r: Remote, a: AgentStep): Remote
    requires AgentEnabled(r, a)
  {
    match a
    case OnPipe(st, p) => WithPipe(r, st, PipeNext(PipeOf(r, st), p))
    case ChildExits(w) => r.(exit := Some(w))
    case Reap => r.(waiter := Reaped(CodeOf(r.exit.value)))
    case Notify => r.(waiter := Notified(r.waiter.code))
  }

  /** What a step of the agent writes to the connection. */
  function AgentSends(r: Remote, a: AgentStep): (ms: seq<Reply>)
    requires AgentEnabled(r, a)
    ensures |ms| <= 1
  {
    match a
    case OnPipe(st, p) => if p == Forward then [Output(st, PipeOf(r, st).held)] else []
    case Notify => [ExitCode(r.waiter.code)]
    case _ => []
  }

  function NewRemote(): Remote {
    var p := Pipe([], false, [], [], false);
    Remote(p, p, None, Waiting, [], false, false)
  }

  // ---------- The caller's side of one session ----------

  datatype Outcome =
    | Ok(out: seq<Byte>, err: seq<Byte>, code: int)
    | AgentError
    | ConnectionClosed
    | SendError

  datatype Phase = Registered | Feeding(off: nat) | Collecting | Returned(outcome: Outcome)

  /** A CollectExec call, or with an input a CollectExecWithStdin call. The last five fields are logs. */
  datatype Call = Call(
    cmd: seq<string>,
    stdin: Option<seq<Byte>>,
    phase: Phase,
    queue: Option<seq<Reply>>,  // the channel in rc.sessions; None once deleted
    consumed: seq<Reply>,       // received from the channel
    issued: seq<Command>,       // written to the connection
    arrived: seq<Reply>,        // read by the dispatcher while the channel was registered
    late: seq<Reply>,           // read by the dispatcher afterwards
    dropped: nat)               // not accepted by the channel because it was full

  datatype CallStep = SendExec | SendChunk | SendClose | SendFails | Receive | SeeClosed

  predicate CallEnabled(c: Call, a: CallStep, broken: bool, closed: bool) {
    match a
    case SendExec => c.phase == Registered
    case SendChunk => c.phase.Feeding? && c.stdin.Some? && c.phase.off < |c.stdin.value|
    case SendClose => c.phase.Feeding? && c.stdin.Some? && c.phase.off >= |c.stdin.value|
    case SendFails => (broken || closed) && (c.phase == Registered || c.phase.Feeding?)
    case Receive => c.phase == Collecting && c.queue.Some? && c.queue.value != []
    case SeeClosed => closed && c.phase == Collecting
  }

  /** The command a step of the caller writes to the connection. */
  function CallSends(c: Call, a: CallStep): (ms: seq<Command>)
    requires CallEnabled(c, a, true, true)
    ensures |ms| <= 1
  {
    match a
    case SendExec => [Exec(c.cmd)]
    case SendChunk =>
      var off := c.phase.off;
      [Stdin(c.stdin.value[off..if off + CHUNK > |c.stdin.value| then |c.stdin.value| else off + CHUNK])]
    case SendClose => [CloseStdin]
    case _ => []
  }

  function Return(c: Call, o: Outcome): Call {
    c.(phase := Returned(o), queue := None)
  }

  /** The switch of the collecting loop on one received message. */
  function Collect(c: Call, m: Reply): Call {
    var d := c.(consumed := c.consumed + [m]);
    match m
    case Output(_, _) => d
    case ExitCode(code) => Return(d, Ok(Payload(d.consumed, Stdout), Payload(d.consumed, Stderr), code))
    case Failed => Return(d, AgentError)
  }

  function CallNext(c: Call, a: CallStep): Call
    requires CallEnabled(c, a, true, true)
  {
    var d := c.(issued := c.issued + CallSends(c, a));
    match a
    case SendExec => d.(phase := if c.stdin.None? then Collecting else Feeding(0))
    case SendChunk => d.(phase := Feeding(c.phase.off + CHUNK))
    case SendClose => d.(phase := Collecting)
    case SendFails => Return(d, SendError)
    case Receive => Collect(d.(queue := Some(c.queue.value[1..])), c.queue.value[0])
    case SeeClosed => Return(d, ConnectionClosed)
  }

  /** readLoop hands a message to the session's channel, without blocking. */
  function Deliver(c: Call, m: Reply): Call {
    if c.queue.None? then c.(late := c.late + [m])
    else
      var d := c.(arrived := c.arrived + [m]);
      if |c.queue.value| < QUEUE_CAPACITY then d.(queue := Some(c.queue.value + [m]))
      else d.(dropped := c.dropped + 1)
  }

  // ---------- The whole system ----------

  datatype Session = Session(
    call: Call,
    remote: Option<Remote>,  // in the agent's registry
    routed: seq<Command>,    // handled by the agent's router
    sent: seq<Reply>)        // written by the agent for this session

  datatype State = State(
    sessions: map<Id, Session>,
    down: seq<Tagged<Command>>,
    up: seq<Tagged<Reply>>,
    broken: bool,            // the connection delivers nothing more
    closed: bool)            // rc.done is closed

  function Init(): State {
    State(map[], [], [], false, false)
  }

  datatype Step =
    | Start(id: Id, cmd: seq<string>, stdin: Option<seq<Byte>>)
    | OnCall(id: Id, c: CallStep)
    | OnAgent(id: Id, a: AgentStep)
    | Route(started: bool, accepted: nat)
    | Dispatch
    | SystemMessage(m: Reply)
    | Break
    | Close

  /** The caller registers its channel first; session IDs are not empty and not used twice. */
  predicate Enabled(s: State, a: Step) {
    match a
    case Start(id, _, _) => id != "" && id !in s.sessions
    case OnCall(id, c) => id in s.sessions && CallEnabled(s.sessions[id].call, c, s.broken, s.closed)
    case OnAgent(id, p) => id in s.sessions && s.sessions[id].remote.Some? && AgentEnabled(s.sessions[id].remote.value, p)
    case Route(started, _) =>
      && !s.broken && s.down != [] && s.down[0].id in s.sessions
      && (s.down[0].body.Exec? && s.down[0].body.cmd == [] ==> !started)
    case Dispatch => !s.broken && s.up != []
    case _ => true
  }

  function Tag<T>(id: Id, ms: seq<T>): (w: seq<Tagged<T>>)
    requires |ms| <= 1
  {
    if ms == [] then [] else [Tagged(id, ms[0])]
  }

  /** The router's effect on one session: the remote part afterwards. */
  function Handle(r: Option<Remote>, c: Command, started: bool, accepted: nat): Option<Remote> {
    match c
    case Exec(_) => if started then Some(NewRemote()) else r
    case Stdin(data) =>
      if r.None? || r.value.stdinBroken || r.value.stdinClosed then r
      else
        var n := if accepted < |data| then accepted else |data|;
        Some(r.value.(stdin := r.value.stdin + data[..n], stdinBroken := n < |data|))
    case CloseStdin => if r.None? then r else Some(r.value.(stdinClosed := true))
  }

  /** NewExecSession failed: the router answers with an error message. */
  function Refusal(c: Command, started: bool): (ms: seq<Reply>)
    ensures |ms| <= 1
  {
    if c.Exec? && !started then [Failed] else []
  }

  function Next(s: State, a: Step): State
    requires Enabled(s, a)
  {
    match a
    case Start(id, cmd, stdin) =>
      var call := Call(cmd, stdin, Registered, Some([]), [], [], [], [], 0);
      s.(sessions := s.sessions[id := Session(call, None, [], [])])
    case OnCall(id, c) =>
      var x := s.sessions[id];
      s.(sessions := s.sessions[id := x.(call := CallNext(x.call, c))],
         down := s.down + Tag(id, CallSends(x.call, c)))
    case OnAgent(id, p) =>
      var x := s.sessions[id];
      var r := x.remote.value;
      s.(sessions := s.sessions[id := x.(remote := Some(AgentNext(r, p)), sent := x.sent + AgentSends(r, p))],
         up := s.up + Tag(id, AgentSends(r, p)))
    case Route(started, accepted) =>
      var m := s.down[0];
      var x := s.sessions[m.id];
      var y := x.(remote := Handle(x.remote, m.body, started, accepted), routed := x.routed + [m.body],
                  sent := x.sent + Refusal(m.body, started));
      s.(sessions := s.sessions[m.id := y], down := s.down[1..], up := s.up + Tag(m.id, Refusal(m.body, started)))
    case Dispatch =>
      var m := s.up[0];
      var t := s.(up := s.up[1..]);
      if m.id in s.sessions then
        var x := s.sessions[m.id];
        t.(sessions := s.sessions[m.id := x.(call := Deliver(x.call, m.body))])
      else t
    case SystemMessage(m) => s.(up := s.up + [Tagged("", m)])
    case Break => s.(broken := true)
    case Close => s.(closed := true)
  }

  /** The state after the steps, if each of them can be taken. */
  function Run(s: State, steps: seq<Step>): Option<State>
    decreases |steps|
  {
    if steps == [] then Some(s)
    else if Enabled(s, steps[0]) then Run(Next(s, steps[0]), steps[1..])
    else None
  }

  // ---------- Invariant ----------

  ghost predicate PipeInv(p: Pipe) {
    && |p.taken| <= |p.written| && p.taken == p.written[..|p.taken|]
    && |p.held| <= CHUNK
    && (p.finished ==> p.ended && p.held == [] && p.taken == p.written)
  }

  /** The messages are outputs of at most CHUNK bytes, never empty; the exit message, if sent, is the last one. */
  ghost predicate SentInv(sent: seq<Reply>, notified: bool) {
    && (notified ==> sent != [] && sent[|sent| - 1].ExitCode?)
    && forall i :: 0 <= i < |sent| - (if notified then 1 else 0) ==> sent[i].Output? && 0 < |sent[i].data| <= CHUNK
  }

  /** What was read from each pipe is what was sent plus what its reader still holds. */
  ghost predicate RemoteInv(r: Remote, sent: seq<Reply>) {
    && PipeInv(r.out) && PipeInv(r.err)
    && Payload(sent, Stdout) + r.out.held == r.out.taken
    && Payload(sent, Stderr) + r.err.held == r.err.taken
    && (!r.waiter.Waiting? ==> r.out.finished && r.err.finished && r.exit.Some? && r.waiter.code == CodeOf(r.exit.value))
    && SentInv(sent, r.waiter.Notified?)
    && (r.waiter.Notified? ==> sent[|sent| - 1] == ExitCode(r.waiter.code))
  }

  ghost predicate StdinInv(r: Remote, routed: seq<Command>) {
    && r.stdin <= StdinBytes(routed)
    && (!r.stdinBroken ==> r.stdin == StdinBytes(routed))
    && (r.stdinClosed <==> CloseStdin in routed)
  }

  ghost predicate AgentInv(x: Session) {
    if x.remote.Some? then
      && x.routed != [] && RemoteInv(x.remote.value, x.sent) && StdinInv(x.remote.value, x.routed)
    else x.sent == if x.routed == [] then [] else [Failed]
  }

  /** What was issued and what the phase says is still to come make up the script. */
  ghost predicate IssueInv(c: Call) {
    match c.phase
    case Registered => c.issued == []
    case Feeding(off) => c.stdin.Some? && c.issued + Feed(c.stdin, off) == Script(c.cmd, c.stdin)
    case Collecting => c.issued == Script(c.cmd, c.stdin)
    case Returned(_) => c.issued <= Script(c.cmd, c.stdin)
  }

  function Accepted(c: Call): seq<Reply> {
    c.consumed + if c.queue.Some? then c.queue.value else []
  }

  /** The channel against the wire: an in-order subsequence, the whole of it when nothing was dropped. */
  ghost predicate QueueInv(c: Call) {
    && (c.queue.None? <==> c.phase.Returned?)
    && (c.queue.Some? ==> |c.queue.value| <= QUEUE_CAPACITY && c.late == [])
    && Subsequence(Accepted(c), c.arrived)
    && (c.dropped == 0 ==> Accepted(c) <= c.arrived)
    && (c.queue.Some? ==> |Accepted(c)| + c.dropped == |c.arrived|)
    && (c.queue.Some? ==> Weight(Accepted(c)) + c.dropped <= Weight(c.arrived))
    && (!c.phase.Returned? ==> AllOutputs(c.consumed))
    && (!c.phase.Collecting? && !c.phase.Returned? ==> c.consumed == [])
  }

  /** The promise of a call that returned without error. */
  ghost predicate ReturnInv(x: Session) {
    x.call.phase.Returned? && x.call.phase.outcome.Ok? ==>
      var o := x.call.phase.outcome;
      && x.remote.Some? && x.remote.value.waiter == Notified(o.code)
      && (x.call.dropped == 0 <==> o.out == x.remote.value.out.written && o.err == x.remote.value.err.written)
  }

  /** A call that returned without error received outputs and then the exit message, and returned their payloads. */
  ghost predicate DoneInv(c: Call) {
    c.phase.Returned? && c.phase.outcome.Ok? ==>
      var o := c.phase.outcome;
      && c.consumed != []
      && var n := |c.consumed| - 1;
         && AllOutputs(c.consumed[..n]) && c.consumed[n] == ExitCode(o.code)
         && o.out == Payload(c.consumed, Stdout) && o.err == Payload(c.consumed, Stderr)
  }

  ghost predicate WireInv(s: State, id: Id, x: Session) {
    && x.call.arrived + x.call.late + For(s.up, id) == x.sent
    && x.routed + For(s.down, id) == x.call.issued
  }

  ghost predicate LocalInv(x: Session) {
    IssueInv(x.call) && QueueInv(x.call) && DoneInv(x.call) && AgentInv(x) && ReturnInv(x)
  }

  ghost predicate Inv(s: State) {
    && "" !in s.sessions
    && (forall id <- s.sessions :: LocalInv(s.sessions[id]) && WireInv(s, id, s.sessions[id]))
    && (forall id | id !in s.sessions :: For(s.down, id) == [] && (id != "" ==> For(s.up, id) == []))
  }

  // ---------- The caller's steps ----------

  lemma IssueKeeps(c: Call, a: CallStep)
    requires IssueInv(c) && CallEnabled(c, a, true, true)
    ensures IssueInv(CallNext(c, a))
  {
    hide Script, ChunksFrom;
    var d := CallNext(c, a);
    assert c.issued + [] == c.issued;
    match a
    case SendExec =>
      assert d.issued == [Exec(c.cmd)];
      ScriptIs(c.cmd, c.stdin);
    case SendChunk =>
      var off := c.phase.off;
      ChunksStep(c.stdin.value, off);
      assert d.issued + Feed(c.stdin, off + CHUNK) == c.issued + Feed(c.stdin, off);
    case SendClose =>
      ChunksStep(c.stdin.value, c.phase.off);
      assert Feed(c.stdin, c.phase.off) == [CloseStdin];
    case SendFails =>
      ScriptIs(c.cmd, c.stdin);
      assert c.issued <= Script(c.cmd, c.stdin);
    case _ =>
  }

  lemma ScriptIs(cmd: seq<string>, stdin: Option<seq<Byte>>)
    ensures Script(cmd, stdin) == [Exec(cmd)] + Feed(stdin, 0)
    ensures stdin.None? ==> Script(cmd, stdin) == [Exec(cmd)]
  {
  }

  lemma ChunksStep(data: seq<Byte>, off: nat)
    ensures off >= |data| ==> Stdins(ChunksFrom(data, off)) == []
    ensures off < |data| ==>
              Stdins(ChunksFrom(data, off)) ==
              [Stdin(data[off..if off + CHUNK > |data| then |data| else off + CHUNK])]
              + Stdins(ChunksFrom(data, off + CHUNK))
  {
    if off < |data| {
      assert ChunksFrom(data, off)[1..] == ChunksFrom(data, off + CHUNK);
    }
  }

  lemma QueueKeeps(c: Call, a: CallStep)
    requires QueueInv(c) && CallEnabled(c, a, true, true)
    ensures QueueInv(CallNext(c, a)) || a == Receive
    ensures a != Receive ==> CallNext(c, a).consumed == c.consumed
    ensures CallNext(c, a).arrived == c.arrived && CallNext(c, a).late == c.late && CallNext(c, a).dropped == c.dropped
    ensures CallNext(c, a).issued == c.issued + CallSends(c, a)
  {
    hide Subsequence, Weight;
    var d := CallNext(c, a);
    if a == SendFails || a == SeeClosed {
      PrefixSubsequence(c.consumed, c.queue.value, c.arrived);
      assert Accepted(d) == c.consumed;
    } else if a != Receive {
      assert Accepted(d) == Accepted(c);
    }
  }

  lemma {:induction false} PrefixSubsequence<T>(a: seq<T>, b: seq<T>, all: seq<T>)
    requires Subsequence(a + b, all)
    ensures Subsequence(a, all)
    decreases |b|, |all|
  {
    if b == [] {
      assert a + b == a;
    } else if a != [] {
      var n := |b| - 1;
      assert (a + b)[..|a + b| - 1] == a + b[..n];
      var rest := all[..|all| - 1];
      if Subsequence(a + b, rest) {
        PrefixSubsequence(a, b, rest);
      } else {
        PrefixSubsequence(a, b[..n], rest);
      }
      SubsequenceSkip(a, rest, all[|all| - 1]);
      assert rest + [all[|all| - 1]] == all;
    }
  }

  lemma ReceiveKeeps(c: Call)
    requires QueueInv(c) && CallEnabled(c, Receive, true, true)
    ensures QueueInv(CallNext(c, Receive)) && DoneInv(CallNext(c, Receive))
    ensures CallNext(c, Receive).consumed == c.consumed + [c.queue.value[0]]
  {
    hide Subsequence, Weight, Payload;
    var d := CallNext(c, Receive);
    var m := c.queue.value[0];
    assert c.consumed + [m] + c.queue.value[1..] == Accepted(c);
    if m.Output? {
      assert Accepted(d) == Accepted(c);
    } else {
      PrefixSubsequence(c.consumed + [m], c.queue.value[1..], c.arrived);
      assert Accepted(d) == c.consumed + [m];
      assert d.consumed[..|c.consumed|] == c.consumed;
    }
  }

  lemma DeliverKeeps(c: Call, m: Reply)
    requires QueueInv(c) && (m.Output? ==> m.data != [])
    ensures QueueInv(Deliver(c, m))
  {
    hide Subsequence, Weight;
    var d := Deliver(c, m);
    if c.queue.Some? {
      WeightAppend(c.arrived, m);
      if |c.queue.value| < QUEUE_CAPACITY {
        assert Accepted(d) == Accepted(c) + [m];
        SubsequenceKeep(Accepted(c), c.arrived, m);
        WeightAppend(Accepted(c), m);
      } else {
        assert Accepted(d) == Accepted(c);
        SubsequenceSkip(Accepted(c), c.arrived, m);
      }
    } else {
      assert Accepted(d) == Accepted(c);
    }
  }

  // ---------- The agent's steps ----------

  lemma PipeKeeps(p: Pipe, a: PipeStep)
    requires PipeInv(p) && PipeEnabled(p, a)
    ensures PipeInv(PipeNext(p, a))
    ensures p.finished ==> PipeNext(p, a) == p || (a == End && PipeNext(p, a) == p.(ended := true))
  {
  }

  lemma ForwardKeeps(r: Remote, st: Stream, sent: seq<Reply>)
    requires RemoteInv(r, sent) && PipeOf(r, st).held != []
    ensures var a := OnPipe(st, Forward); RemoteInv(AgentNext(r, a), sent + AgentSends(r, a))
  {
    hide Payload;
    var m := Output(st, PipeOf(r, st).held);
    PayloadAppend(sent, m, Stdout);
    PayloadAppend(sent, m, Stderr);
    assert !PipeOf(r, st).finished && r.waiter.Waiting?;
  }

  lemma PipeStepKeeps(r: Remote, st: Stream, p: PipeStep, sent: seq<Reply>)
    requires RemoteInv(r, sent) && PipeEnabled(PipeOf(r, st), p) && p != Forward
    ensures RemoteInv(AgentNext(r, OnPipe(st, p)), sent)
  {
    hide Payload, SentInv, PipeNext, PipeEnabled, PipeInv;
    PipeKeeps(PipeOf(r, st), p);
    PipeReads(PipeOf(r, st), p, Payload(sent, st));
  }

  lemma PipeReads(p: Pipe, a: PipeStep, sent: seq<Byte>)
    requires PipeEnabled(p, a) && a != Forward && sent + p.held == p.taken
    ensures sent + PipeNext(p, a).held == PipeNext(p, a).taken
    ensures p.finished ==> PipeNext(p, a).finished
  {
    if a.Take? {
      assert sent == p.taken;
    }
  }

  lemma NotifyKeeps(r: Remote, sent: seq<Reply>)
    requires RemoteInv(r, sent) && r.waiter.Reaped?
    ensures RemoteInv(AgentNext(r, Notify), sent + [ExitCode(r.waiter.code)])
  {
    hide Payload;
    PayloadAppend(sent, ExitCode(r.waiter.code), Stdout);
    PayloadAppend(sent, ExitCode(r.waiter.code), Stderr);
  }

  lemma AgentKeeps(r: Remote, a: AgentStep, sent: seq<Reply>)
    requires RemoteInv(r, sent) && AgentEnabled(r, a)
    ensures RemoteInv(AgentNext(r, a), sent + AgentSends(r, a))
  {
    hide Payload, SentInv, PipeInv, PipeNext;
    assert sent + [] == sent;
    match a
    case OnPipe(st, p) =>
      if p == Forward {
        ForwardKeeps(r, st, sent);
      } else {
        PipeStepKeeps(r, st, p, sent);
      }
    case Notify => NotifyKeeps(r, sent);
    case _ =>
  }

  /** The agent's own steps do not touch the child's standard input. */
  lemma StdinKept(r: Remote, a: AgentStep, routed: seq<Command>)
    requires StdinInv(r, routed) && AgentEnabled(r, a)
    ensures StdinInv(AgentNext(r, a), routed)
  {
  }

  lemma ExecIsFirst(cmd: seq<string>, stdin: Option<seq<Byte>>, i: nat)
    requires i < |Script(cmd, stdin)| && Script(cmd, stdin)[i].Exec?
    ensures i == 0
  {
    if stdin.Some? {
      var body := Stdins(ChunksFrom(stdin.value, 0));
      StdinsMembers(ChunksFrom(stdin.value, 0));
      assert forall k :: 0 <= k < |body| ==> body[k] in Stdins(ChunksFrom(stdin.value, 0));
      assert forall k :: 0 < k < |Script(cmd, stdin)| - 1 ==> Script(cmd, stdin)[k] == body[k - 1];
    }
  }

  /** Routing one more command of the script. */
  lemma HandleKeeps(x: Session, m: Command, started: bool, accepted: nat, cmd: seq<string>, stdin: Option<seq<Byte>>)
    requires AgentInv(x) && x.routed + [m] <= Script(cmd, stdin)
    ensures AgentInv(x.(remote := Handle(x.remote, m, started, accepted), routed := x.routed + [m],
                        sent := x.sent + Refusal(m, started)))
  {
    hide Script, StdinBytes, Payload, RemoteInv;
    var i := |x.routed|;
    assert Script(cmd, stdin)[i] == (x.routed + [m])[i] == m;
    assert x.sent + [] == x.sent;
    StdinAppend(x.routed, m);
    ScriptIs(cmd, stdin);
    match m
    case Exec(_) =>
      ExecIsFirst(cmd, stdin, i);
      assert x.routed == [] && x.remote.None?;
      if started {
        NewRemoteInv(m);
      }
    case Stdin(data) =>
      if x.remote.Some? {
        NotYetClosed(x.routed, m, cmd, stdin);
        RemoteStdin(x.remote.value, Handle(x.remote, m, started, accepted).value, x.sent);
      }
    case CloseStdin =>
      if x.remote.Some? {
        RemoteStdin(x.remote.value, Handle(x.remote, m, started, accepted).value, x.sent);
      }
  }

  lemma NewRemoteInv(m: Command)
    requires m.Exec?
    ensures RemoteInv(NewRemote(), []) && StdinInv(NewRemote(), [] + [m])
  {
    assert [] + [m] == [m] && [m][..0] == [];
  }

  lemma NotYetClosed(routed: seq<Command>, m: Command, cmd: seq<string>, stdin: Option<seq<Byte>>)
    requires routed + [m] <= Script(cmd, stdin)
    ensures CloseStdin !in routed
  {
    hide Script;
    if CloseStdin in routed {
      var k :| 0 <= k < |routed| && routed[k] == CloseStdin;
      assert (routed + [m])[k] == Script(cmd, stdin)[k];
      CloseIsLast(cmd, stdin, k);
    }
  }

  lemma RemoteStdin(r: Remote, q: Remote, sent: seq<Reply>)
    requires RemoteInv(r, sent) && q == r.(stdin := q.stdin, stdinClosed := q.stdinClosed, stdinBroken := q.stdinBroken)
    ensures RemoteInv(q, sent)
  {
  }

  // ---------- Returning without error ----------

  lemma {:induction false} WeightConcat(a: seq<Reply>, b: seq<Reply>)
    ensures Weight(a + b) == Weight(a) + Weight(b)
  {
    if b == [] {
      assert a + b == a;
    } else {
      var n := |b| - 1;
      assert a + b == (a + b[..n]) + [b[n]] && b == b[..n] + [b[n]];
      WeightAppend(a + b[..n], b[n]);
      WeightAppend(b[..n], b[n]);
      WeightConcat(a, b[..n]);
    }
  }

  /** The exit message can only be the last message sent, so when it was received everything had arrived. */
  lemma ExitIsLast(x: Session, code: int, rest: seq<Reply>)
    requires AgentInv(x) && x.call.arrived + rest == x.sent && ExitCode(code) in x.call.arrived
    ensures rest == [] && x.call.arrived == x.sent
    ensures x.remote.Some? && x.remote.value.waiter == Notified(code)
    ensures forall k :: 0 <= k < |x.sent| && x.sent[k] == ExitCode(code) ==> k == |x.sent| - 1
  {
    hide Payload, StdinInv;
    var i :| 0 <= i < |x.call.arrived| && x.call.arrived[i] == ExitCode(code);
    assert x.sent[i] == ExitCode(code);
  }

  /** Complete outputs weigh what the child wrote, and one more for the exit message. */
  lemma CompleteWeight(r: Remote, sent: seq<Reply>, code: int)
    requires RemoteInv(r, sent) && r.waiter == Notified(code)
    ensures Payload(sent, Stdout) == r.out.written && Payload(sent, Stderr) == r.err.written
    ensures Weight(sent) == |r.out.written| + |r.err.written| + 1
  {
    var n := |sent| - 1;
    assert sent == sent[..n] + [ExitCode(code)];
    PayloadAppend(sent[..n], ExitCode(code), Stdout);
    PayloadAppend(sent[..n], ExitCode(code), Stderr);
    WeightAppend(sent[..n], ExitCode(code));
    forall m <- sent[..n]
      ensures m.Output?
    {
      var k :| 0 <= k < n && sent[k] == m;
    }
    WeightOfOutputs(sent[..n]);
  }

  lemma ReturnHolds(x: Session, rest: seq<Reply>)
    requires QueueInv(x.call) && AgentInv(x) && x.call.arrived + rest == x.sent
    requires CallEnabled(x.call, Receive, true, true)
    ensures ReturnInv(x.(call := CallNext(x.call, Receive)))
  {
    hide Payload, Weight, Subsequence, SentInv;
    var c := x.call;
    var m := c.queue.value[0];
    if m.ExitCode? {
      var r := x.remote;
      var mine := c.consumed + [m];
      assert Accepted(c) == mine + c.queue.value[1..];
      assert m in Accepted(c);
      SubsequenceMember(Accepted(c), c.arrived, m);
      ExitIsLast(x, m.code, rest);
      CompleteWeight(r.value, x.sent, m.code);
      WeightConcat(mine, c.queue.value[1..]);
      WeightAppend(c.consumed, m);
      WeightOfOutputs(c.consumed);
      PayloadAppend(c.consumed, m, Stdout);
      PayloadAppend(c.consumed, m, Stderr);
      if c.dropped == 0 {
        assert Accepted(c) == c.arrived;
        assert x.sent[|c.consumed|] == m;
        assert mine == x.sent;
      }
    }
  }

  // ---------- Every step keeps the invariant ----------

  lemma ForTag<T>(w: seq<Tagged<T>>, id: Id, ms: seq<T>, x: Id)
    requires |ms| <= 1
    ensures For(w + Tag(id, ms), x) == For(w, x) + if x == id then ms else []
  {
    if ms == [] {
      assert w + [] == w && For(w, x) + [] == For(w, x);
    } else {
      ForAppend(w, Tagged(id, ms[0]), x);
      assert [ms[0]] == ms;
    }
  }

  /** One session changed, and the wires changed for that session only. */
  lemma Lift(s: State, t: State, id: Id)
    requires Inv(s) && id != "" && id in t.sessions && t.sessions == s.sessions[id := t.sessions[id]]
    requires LocalInv(t.sessions[id]) && WireInv(t, id, t.sessions[id])
    requires forall x :: x != id ==> For(t.down, x) == For(s.down, x)
    requires forall x :: x != id && x != "" ==> For(t.up, x) == For(s.up, x)
    ensures Inv(t)
  {
    hide LocalInv;
    forall x <- t.sessions
      ensures LocalInv(t.sessions[x]) && WireInv(t, x, t.sessions[x])
    {
      if x != id {
        assert WireInv(s, x, s.sessions[x]);
        assert For(t.down, x) == For(s.down, x) && For(t.up, x) == For(s.up, x);
      }
    }
    forall x | x !in t.sessions
      ensures For(t.down, x) == [] && (x != "" ==> For(t.up, x) == [])
    {
      assert x !in s.sessions;
      assert For(t.down, x) == For(s.down, x);
    }
  }

  lemma StartKeeps(s: State, id: Id, cmd: seq<string>, stdin: Option<seq<Byte>>)
    requires Inv(s) && Enabled(s, Start(id, cmd, stdin))
    ensures Inv(Next(s, Start(id, cmd, stdin)))
  {
    hide Script, For;
    var t := Next(s, Start(id, cmd, stdin));
    var x := t.sessions[id];
    assert Accepted(x.call) == [];
    assert LocalInv(x);
    assert WireInv(t, id, x);
    Lift(s, t, id);
  }

  lemma CallLocal(x: Session, a: CallStep, rest: seq<Reply>)
    requires LocalInv(x) && CallEnabled(x.call, a, true, true) && x.call.arrived + rest == x.sent
    ensures LocalInv(x.(call := CallNext(x.call, a)))
  {
    hide IssueInv, AgentInv, QueueInv;
    IssueKeeps(x.call, a);
    AgentSame(x, x.(call := CallNext(x.call, a)));
    if a == Receive {
      ReceiveKeeps(x.call);
      ReturnHolds(x, rest);
    } else {
      QueueKeeps(x.call, a);
    }
  }

  lemma AgentSame(x: Session, y: Session)
    requires AgentInv(x) && y == x.(call := y.call)
    ensures AgentInv(y)
  {
  }

  lemma CallKeeps(s: State, id: Id, a: CallStep)
    requires Inv(s) && Enabled(s, OnCall(id, a))
    ensures Inv(Next(s, OnCall(id, a)))
  {
    hide LocalInv, For, CallEnabled, CallNext, CallSends;
    var t := Next(s, OnCall(id, a));
    var x, y := s.sessions[id], t.sessions[id];
    assert LocalInv(x) && WireInv(s, id, x);
    CallLogs(x, a, s.broken, s.closed);
    CallLocal(x, a, x.call.late + For(s.up, id));
    forall z
      ensures For(t.down, z) == For(s.down, z) + if z == id then CallSends(x.call, a) else []
    {
      ForTag(s.down, id, CallSends(x.call, a), z);
    }
    assert x.routed + For(s.down, id) + CallSends(x.call, a) == x.routed + For(t.down, id);
    Lift(s, t, id);
  }

  /** A step of the caller adds to the log of issued commands what it sends and leaves the dispatcher's logs alone. */
  lemma CallLogs(x: Session, a: CallStep, broken: bool, closed: bool)
    requires LocalInv(x) && CallEnabled(x.call, a, broken, closed)
    ensures CallEnabled(x.call, a, true, true)
    ensures var d := CallNext(x.call, a);
            && d.arrived == x.call.arrived && d.late == x.call.late
            && d.issued == x.call.issued + CallSends(x.call, a)
    ensures x.call.arrived + (x.call.late + []) == x.call.arrived + x.call.late
  {
    hide IssueInv, AgentInv, Subsequence, Weight, Payload;
  }

  lemma ReturnKept(x: Session, y: Session)
    requires ReturnInv(x) && x.call.phase == y.call.phase && x.call.dropped == y.call.dropped
    requires x.remote.Some? ==> && y.remote.Some?
                                && (x.remote.value.waiter.Notified? ==>
                                      && y.remote.value.waiter == x.remote.value.waiter
                                      && y.remote.value.out.written == x.remote.value.out.written
                                      && y.remote.value.err.written == x.remote.value.err.written)
    ensures ReturnInv(y)
  {
  }

  lemma AgentLocal(x: Session, a: AgentStep)
    requires LocalInv(x) && x.remote.Some? && AgentEnabled(x.remote.value, a)
    ensures LocalInv(x.(remote := Some(AgentNext(x.remote.value, a)), sent := x.sent + AgentSends(x.remote.value, a)))
  {
    hide IssueInv, QueueInv, Payload, SentInv, StdinInv;
    var r := x.remote.value;
    AgentKeeps(r, a, x.sent);
    StdinKept(r, a, x.routed);
    var y := x.(remote := Some(AgentNext(r, a)), sent := x.sent + AgentSends(r, a));
    if r.waiter.Notified? && a.OnPipe? {
      PipeKeeps(PipeOf(r, a.st), a.a);
    }
    ReturnKept(x, y);
  }

  lemma AgentStepKeeps(s: State, id: Id, a: AgentStep)
    requires Inv(s) && Enabled(s, OnAgent(id, a))
    ensures Inv(Next(s, OnAgent(id, a)))
  {
    hide LocalInv, For, AgentEnabled, AgentNext, AgentSends;
    var t := Next(s, OnAgent(id, a));
    var x, y := s.sessions[id], t.sessions[id];
    var ms := AgentSends(x.remote.value, a);
    assert LocalInv(x) && WireInv(s, id, x);
    AgentLocal(x, a);
    forall z
      ensures For(t.up, z) == For(s.up, z) + if z == id then ms else []
    {
      ForTag(s.up, id, ms, z);
    }
    assert x.call.arrived + x.call.late + For(s.up, id) + ms == x.call.arrived + x.call.late + For(t.up, id);
    Lift(s, t, id);
  }

  lemma RouteLocal(x: Session, m: Command, started: bool, accepted: nat, rest: seq<Command>)
    requires LocalInv(x) && x.routed + ([m] + rest) == x.call.issued
    ensures LocalInv(x.(remote := Handle(x.remote, m, started, accepted), routed := x.routed + [m],
                        sent := x.sent + Refusal(m, started)))
  {
    hide QueueInv, AgentInv, Script;
    var c := x.call;
    assert c.issued <= Script(c.cmd, c.stdin);
    assert x.routed + [m] <= c.issued;
    assert x.routed + [m] <= Script(c.cmd, c.stdin);
    HandleKeeps(x, m, started, accepted, c.cmd, c.stdin);
    RoutedExec(x, m, c.cmd, c.stdin);
    ReturnKept(x, x.(remote := Handle(x.remote, m, started, accepted), routed := x.routed + [m],
                     sent := x.sent + Refusal(m, started)));
  }

  /** The exec of a session is handled before anything else of it, so it never replaces a running child. */
  lemma RoutedExec(x: Session, m: Command, cmd: seq<string>, stdin: Option<seq<Byte>>)
    requires AgentInv(x) && x.routed + [m] <= Script(cmd, stdin)
    ensures m.Exec? ==> x.remote.None?
  {
    hide Script, RemoteInv, StdinInv;
    assert Script(cmd, stdin)[|x.routed|] == (x.routed + [m])[|x.routed|] == m;
    if m.Exec? {
      ExecIsFirst(cmd, stdin, |x.routed|);
    }
  }

  lemma ForHead<T>(w: seq<Tagged<T>>, x: Id)
    requires w != []
    ensures For(w, x) == (if w[0].id == x then [w[0].body] else []) + For(w[1..], x)
  {
  }

  lemma RouteKeeps(s: State, started: bool, accepted: nat)
    requires Inv(s) && Enabled(s, Route(started, accepted))
    ensures Inv(Next(s, Route(started, accepted)))
  {
    hide LocalInv, Handle, Refusal, For;
    var t := Next(s, Route(started, accepted));
    var m := s.down[0];
    var x := s.sessions[m.id];
    var ms := Refusal(m.body, started);
    assert LocalInv(x) && WireInv(s, m.id, x);
    forall z
      ensures For(s.down, z) == (if z == m.id then [m.body] else []) + For(t.down, z)
      ensures z != m.id ==> For(s.down, z) == For(t.down, z)
    {
      ForHead(s.down, z);
    }
    RouteLocal(x, m.body, started, accepted, For(t.down, m.id));
    forall z
      ensures For(t.up, z) == For(s.up, z) + if z == m.id then ms else []
    {
      ForTag(s.up, m.id, ms, z);
    }
    RouteWires(s, t, x, ms);
    Lift(s, t, m.id);
  }

  lemma RouteWires(s: State, t: State, x: Session, ms: seq<Reply>)
    requires s.down != [] && s.down[0].id in t.sessions && WireInv(s, s.down[0].id, x)
    requires var id := s.down[0].id;
             var y := t.sessions[id];
             && y.call == x.call && y.sent == x.sent + ms && y.routed == x.routed + [s.down[0].body]
             && For(s.down, id) == [s.down[0].body] + For(t.down, id)
             && For(t.up, id) == For(s.up, id) + ms
    ensures WireInv(t, s.down[0].id, t.sessions[s.down[0].id])
  {
    hide For;
    var id := s.down[0].id;
    var m := s.down[0].body;
    assert x.routed + ([m] + For(t.down, id)) == x.routed + [m] + For(t.down, id);
    assert x.call.arrived + x.call.late + For(s.up, id) + ms == x.call.arrived + x.call.late + For(t.up, id);
  }

  lemma DispatchLocal(x: Session, m: Reply, rest: seq<Reply>)
    requires LocalInv(x) && x.call.arrived + x.call.late + ([m] + rest) == x.sent
    ensures var y := x.(call := Deliver(x.call, m));
            LocalInv(y) && y.call.arrived + y.call.late + rest == x.sent
  {
    hide AgentInv, QueueInv, Script;
    var c := x.call;
    var y := x.(call := Deliver(c, m));
    assert x.sent[|c.arrived| + |c.late|] == m;
    SentNonEmpty(x, |c.arrived| + |c.late|);
    DeliverKeeps(c, m);
    AgentSame(x, y);
    assert IssueInv(y.call);
    if c.queue.Some? {
      QueueUntilReturn(c);
      assert c.arrived + [m] + rest == c.arrived + [] + ([m] + rest);
    } else {
      assert c.arrived + (c.late + [m]) + rest == c.arrived + c.late + ([m] + rest);
    }
    QueueUntilReturn(c);
    ReturnDelivered(x, y);
  }

  lemma SentNonEmpty(x: Session, i: nat)
    requires AgentInv(x) && i < |x.sent|
    ensures x.sent[i].Output? ==> x.sent[i].data != []
  {
    hide Payload, StdinInv;
  }

  lemma QueueUntilReturn(c: Call)
    requires QueueInv(c)
    ensures c.queue.None? <==> c.phase.Returned?
    ensures c.queue.Some? ==> c.late == []
  {
  }

  lemma ReturnDelivered(x: Session, y: Session)
    requires ReturnInv(x) && y == x.(call := y.call) && y.call.phase == x.call.phase
    requires x.call.phase.Returned? ==> y.call.dropped == x.call.dropped
    ensures ReturnInv(y)
  {
  }

  lemma DispatchKeeps(s: State)
    requires Inv(s) && Enabled(s, Dispatch)
    ensures Inv(Next(s, Dispatch))
  {
    hide LocalInv, Deliver, For;
    var t := Next(s, Dispatch);
    var m := s.up[0];
    ForHeads(s.up);
    if m.id in s.sessions {
      var x := s.sessions[m.id];
      assert LocalInv(x) && WireInv(s, m.id, x);
      DispatchLocal(x, m.body, For(t.up, m.id));
      DeliverLogs(x.call, m.body);
      Lift(s, t, m.id);
    } else {
      forall z <- t.sessions
        ensures WireInv(t, z, t.sessions[z])
      {
        assert WireInv(s, z, s.sessions[z]);
      }
    }
  }

  lemma ForHeads<T>(w: seq<Tagged<T>>)
    requires w != []
    ensures forall z :: For(w, z) == if w[0].id == z then [w[0].body] + For(w[1..], z) else For(w[1..], z)
  {
  }

  lemma DeliverLogs(c: Call, m: Reply)
    ensures Deliver(c, m).issued == c.issued
  {
  }

  lemma SystemKeeps(s: State, m: Reply)
    requires Inv(s)
    ensures Inv(Next(s, SystemMessage(m)))
  {
    hide LocalInv, For;
    var t := Next(s, SystemMessage(m));
    forall z
      ensures z != "" ==> For(t.up, z) == For(s.up, z)
    {
      ForAppend(s.up, Tagged("", m), z);
      assert For(s.up, z) + [] == For(s.up, z);
    }
    forall z <- t.sessions
      ensures WireInv(t, z, t.sessions[z])
    {
      assert WireInv(s, z, s.sessions[z]);
    }
  }

  lemma FlagKeeps(s: State, a: Step)
    requires Inv(s) && (a == Break || a == Close)
    ensures Inv(Next(s, a))
  {
    hide LocalInv, For;
    forall z <- s.sessions
      ensures WireInv(Next(s, a), z, s.sessions[z])
    {
      assert WireInv(s, z, s.sessions[z]);
    }
  }

  /** One step of any goroutine on either side, of a child or of the connection keeps the invariant. */
  lemma StepKeeps(s: State, a: Step)
    requires Inv(s) && Enabled(s, a)
    ensures Inv(Next(s, a))
  {
    hide Inv, Enabled, Next;
    match a
    case Start(id, cmd, stdin) => StartKeeps(s, id, cmd, stdin);
    case OnCall(id, c) => CallKeeps(s, id, c);
    case OnAgent(id, p) => AgentStepKeeps(s, id, p);
    case Route(started, accepted) => RouteKeeps(s, started, accepted);
    case Dispatch => DispatchKeeps(s);
    case SystemMessage(m) => SystemKeeps(s, m);
    case _ => FlagKeeps(s, a);
  }

  lemma {:induction false} RunKeeps(s: State, steps: seq<Step>)
    requires Inv(s) && Run(s, steps).Some?
    ensures Inv(Run(s, steps).value)
    decreases |steps|
  {
    hide Inv, Next, Enabled;
    if steps != [] {
      StepKeeps(s, steps[0]);
      RunKeeps(Next(s, steps[0]), steps[1..]);
    }
  }

  lemma InitInv()
    ensures Inv(Init())
  {
  }

  // ---------- What every run guarantees ----------

  /** A call that returns without error has the child's exit code, 0 after a clean exit and 1 when waiting failed in
      another way; and both output streams are closed and complete exactly when the dispatcher dropped nothing on its
      full channel. */
  lemma CollectExact(steps: seq<Step>, s: State, id: Id, out: seq<Byte>, err: seq<Byte>, code: int)
    requires Run(Init(), steps) == Some(s)
    requires id in s.sessions && s.sessions[id].call.phase == Returned(Ok(out, err, code))
    ensures var x := s.sessions[id];
            && x.remote.Some?
            && var r := x.remote.value;
               && r.exit.Some?
               && (r.exit == Some(Clean) ==> code == 0)
               && (forall n: int :: r.exit == Some(Status(n)) ==> code == n)
               && (r.exit == Some(OtherError) ==> code == 1)
               && r.out.ended && r.err.ended
               && (out == r.out.written && err == r.err.written <==> x.call.dropped == 0)
  {
    hide Run, Payload, SentInv, StdinInv, QueueInv, IssueInv;
    InitInv();
    RunKeeps(Init(), steps);
    assert LocalInv(s.sessions[id]);
  }

  /** However many sessions share the connection, what a session received and what still waits in its channel is, in
      order, taken from the messages that the agent sent for its ID; nothing of it is missed before the call returns
      except what a full channel refused, so without such a drop it is all that was read off the wire. */
  lemma Isolation(steps: seq<Step>, s: State, id: Id)
    requires Run(Init(), steps) == Some(s) && id in s.sessions
    ensures var x := s.sessions[id];
            var c := x.call;
            && Subsequence(Accepted(c), c.arrived)
            && c.arrived + c.late + For(s.up, id) == x.sent
            && (c.dropped == 0 ==> Accepted(c) <= c.arrived)
            && (!c.phase.Returned? ==> c.late == [] && |Accepted(c)| + c.dropped == |c.arrived|)
            && (!c.phase.Returned? && c.dropped == 0 ==> Accepted(c) + For(s.up, id) == x.sent)
  {
    hide Run, Subsequence, For, AgentInv, IssueInv, ReturnInv;
    InitInv();
    RunKeeps(Init(), steps);
    var x := s.sessions[id];
    assert LocalInv(x) && WireInv(s, id, x);
    var c := x.call;
    if !c.phase.Returned? && c.dropped == 0 {
      assert Accepted(c) == c.arrived;
      assert c.arrived + c.late == c.arrived;
    }
  }

  /** The child of a CollectExecWithStdin call has at every moment been fed a prefix of the input, and its input is
      closed only after all of it was written; once the router has handled all that was sent, it is closed. The only
      way to lose input is that a write to the child fails. */
  lemma StdinExact(steps: seq<Step>, s: State, id: Id)
    requires Run(Init(), steps) == Some(s) && id in s.sessions && s.sessions[id].remote.Some?
    ensures var c := s.sessions[id].call;
            var r := s.sessions[id].remote.value;
            var input := if c.stdin.Some? then c.stdin.value else [];
            && r.stdin <= input
            && (r.stdinClosed ==> c.stdin.Some?)
            && (r.stdinClosed && !r.stdinBroken ==> r.stdin == input)
            && (c.phase == Collecting && For(s.down, id) == [] && c.stdin.Some? ==> r.stdinClosed)
  {
    hide Run, For, ReturnInv, QueueInv, Script;
    InitInv();
    RunKeeps(Init(), steps);
    var x := s.sessions[id];
    assert LocalInv(x) && WireInv(s, id, x);
    IssuedIsPrefix(x.call);
    RoutedStdin(x, For(s.down, id));
  }

  lemma IssuedIsPrefix(c: Call)
    requires IssueInv(c)
    ensures c.issued <= Script(c.cmd, c.stdin)
    ensures c.phase == Collecting ==> c.issued == Script(c.cmd, c.stdin)
  {
    hide Script, Feed;
    if c.phase.Feeding? {
      assert c.issued <= c.issued + Feed(c.stdin, c.phase.off);
    }
    ScriptIs(c.cmd, c.stdin);
  }

  lemma RoutedStdin(x: Session, rest: seq<Command>)
    requires AgentInv(x) && x.remote.Some? && x.routed + rest == x.call.issued
    requires x.call.issued <= Script(x.call.cmd, x.call.stdin)
    ensures var c := x.call;
            var r := x.remote.value;
            var input := if c.stdin.Some? then c.stdin.value else [];
            && r.stdin <= input
            && (r.stdinClosed ==> c.stdin.Some?)
            && (r.stdinClosed && !r.stdinBroken ==> r.stdin == input)
            && (rest == [] && c.issued == Script(c.cmd, c.stdin) && c.stdin.Some? ==> r.stdinClosed)
  {
    hide RemoteInv, StdinBytes, Script;
    var c := x.call;
    var r := x.remote.value;
    var all := Script(c.cmd, c.stdin);
    assert x.routed <= all;
    var later := all[|x.routed|..];
    assert x.routed + later == all;
    StdinConcat(x.routed, later);
    ScriptInput(c.cmd, c.stdin);
    if r.stdinClosed {
      var k :| 0 <= k < |x.routed| && x.routed[k] == CloseStdin;
      assert all[k] == CloseStdin;
      CloseIsLast(c.cmd, c.stdin, k);
      assert x.routed == all;
    }
    if rest == [] && c.issued == all && c.stdin.Some? {
      assert all[|all| - 1] == CloseStdin;
      assert x.routed[|all| - 1] == CloseStdin;
    }
  }

  lemma ScriptInput(cmd: seq<string>, stdin: Option<seq<Byte>>)
    ensures StdinBytes(Script(cmd, stdin)) == if stdin.Some? then stdin.value else []
    ensures |Script(cmd, stdin)| > 0
    ensures stdin.Some? ==> Script(cmd, stdin)[|Script(cmd, stdin)| - 1] == CloseStdin
  {
    if stdin.Some? {
      ScriptFeeds(cmd, stdin.value);
    } else {
      StdinAppend([], Exec(cmd));
      assert [] + [Exec(cmd)] == Script(cmd, stdin);
    }
  }
}
