/** The main process of the agent: two readers that copy its output into ring buffers and to every listener,
    attach sessions that subscribe while output flows, and the goroutine that waits for the exit. */
module MainProcesses {
  import opened Bytes
  import RingBuffers
  import opened Options

  type Id = string

  datatype Stream = Stdout | Stderr

  datatype Event = Event(stream: Stream, data: seq<Byte>)

  const LISTENER_CAPACITY: nat := 256
  const CHUNK: nat := 32 * 1024

  // ---------- State ----------

  /** Where one fanOut goroutine stands with the chunk it read last. */
  datatype Stage = Idle | Got(chunk: seq<Byte>) | Ringed(chunk: seq<Byte>)

  /** One output stream. Each of written, taken, ringed and published is a log that only grows. */
  datatype Fan = Fan(
    written: seq<Byte>,    // by the process into the pipe
    ended: bool,           // the last write end of the pipe is closed
    cut: bool,             // the read end was closed by cmd.Wait
    taken: seq<Byte>,      // read from the pipe
    ringed: seq<Byte>,     // written to the ring buffer
    published: seq<Byte>,  // offered to the listeners
    stage: Stage,
    finished: bool)

  /** One stream as one subscriber sees it: how much had been published when it registered, how much was in the
      ring buffer when Subscribe copied it, and that copy. */
  datatype View = Unread(start: nat) | Read(start: nat, upTo: nat, replay: seq<Byte>)

  /** An event that fanOut offered to a listener, and whether the channel had room for it. */
  datatype Offering = Offering(event: Event, kept: bool)

  datatype Phase = Locked | ReplayOut | ReplayErr | Live | Exited(code: int)

  datatype Sub = Sub(
    phase: Phase,
    out: View,
    err: View,
    listening: bool,       // in the listeners map
    closed: bool,          // its channel is closed
    queue: seq<Event>,     // the channel
    received: seq<Event>,  // taken from the channel so far
    sent: seq<Event>,      // output messages written to the connection
    offers: seq<Offering>) // everything fanOut tried to send to it, as a log

  datatype State = State(
    capacity: nat,
    out: Fan,
    err: Fan,
    childExit: Option<int>,
    waited: Option<int>,   // cmd.Wait has returned this code
    exitCode: Option<int>,
    lock: Option<Id>,      // the subscriber that holds mp.mu for writing
    subs: map<Id, Sub>)    // by attach session, not by the id it was given

  function EmptyFan(): Fan {
    Fan([], false, false, [], [], [], Idle, false)
  }

  function Init(capacity: nat): State {
    State(capacity, EmptyFan(), EmptyFan(), None, None, None, None, map[])
  }

  function FanOf(s: State, st: Stream): Fan {
    if st == Stdout then s.out else s.err
  }

  function WithFan(s: State, st: Stream, f: Fan): State {
    if st == Stdout then s.(out := f) else s.(err := f)
  }

  // ---------- Steps ----------

  /** Steps on one pipe: the process writes it or gives it up, fanOut reads it or fills the ring buffer from it. */
  datatype PipeStep = Write(data: seq<Byte>) | End | Take(n: nat) | ReadEnds | ToRing

  predicate PipeEnabled(f: Fan, a: PipeStep) {
    match a
    case Write(_) => !f.ended && !f.cut
    case End => true
    case Take(n) => f.stage.Idle? && !f.finished && !f.cut && 0 < n <= CHUNK && |f.taken| + n <= |f.written|
    case ReadEnds => f.stage.Idle? && !f.finished && (f.cut || (f.ended && |f.taken| == |f.written|))
    case ToRing => f.stage.Got?
  }

  function PipeNext(f: Fan, a: PipeStep): Fan
    requires PipeEnabled(f, a)
  {
    match a
    case Write(data) => f.(written := f.written + data)
    case End => f.(ended := true)
    case Take(n) =>
      var c := f.written[|f.taken|..|f.taken| + n];
      f.(taken := f.taken + c, stage := Got(c))
    case ReadEnds => f.(finished := true)
    case ToRing => f.(ringed := f.ringed + f.stage.chunk, stage := Ringed(f.stage.chunk))
  }

  datatype Step =
    | Pipe(st: Stream, a: PipeStep)
    | Exit(code: int)
    | WaitReturns
    | Publish(st: Stream)
    | Finish
    | Register(id: Id)
    | CopyOut(id: Id)
    | CopyErr(id: Id)
    | SendOut(id: Id)
    | SendErr(id: Id)
    | SendLive(id: Id)
    | SendExit(id: Id)
    | Unsubscribe(id: Id)

  predicate Enabled(s: State, a: Step) {
    match a
    case Pipe(st, p) => PipeEnabled(FanOf(s, st), p)
    case Exit(_) => s.childExit.None?
    case WaitReturns => s.childExit.Some? && s.waited.None?
    case Publish(st) => FanOf(s, st).stage.Ringed? && s.lock.None?
    case Finish => s.waited.Some? && s.out.finished && s.err.finished && s.exitCode.None? && s.lock.None?
    case Register(id) => id !in s.subs && s.lock.None?
    case CopyOut(id) => s.lock == Some(id) && id in s.subs && s.subs[id].out.Unread?
    case CopyErr(id) => s.lock == Some(id) && id in s.subs && s.subs[id].out.Read? && s.subs[id].err.Unread?
    case SendOut(id) => id in s.subs && s.subs[id].phase == ReplayOut && s.subs[id].out.Read?
    case SendErr(id) => id in s.subs && s.subs[id].phase == ReplayErr && s.subs[id].err.Read?
    case SendLive(id) => id in s.subs && s.subs[id].phase == Live && s.subs[id].queue != []
    case SendExit(id) =>
      id in s.subs && s.subs[id].phase == Live && s.subs[id].queue == [] && s.subs[id].closed && s.exitCode.Some?
    case Unsubscribe(id) => id in s.subs && s.lock.None?  // also when another session takes over its place in the map
  }

  /** The non-blocking send of fanOut. */
  function Offered(queue: seq<Event>, e: Event): seq<Event> {
    if |queue| < LISTENER_CAPACITY then queue + [e] else queue
  }

  function Offer(b: Sub, e: Event): Sub {
    if !b.listening then b
    else b.(queue := Offered(b.queue, e), offers := b.offers + [Offering(e, |b.queue| < LISTENER_CAPACITY)])
  }

  /** A replay message is sent only when there is something to replay. */
  function Replay(st: Stream, data: seq<Byte>): seq<Event> {
    if data == [] then [] else [Event(st, data)]
  }

  function Next(s: State, a: Step): State
    requires Enabled(s, a)
  {
    match a
    case Pipe(st, p) => WithFan(s, st, PipeNext(FanOf(s, st), p))
    case Exit(code) => s.(childExit := Some(code))
    case WaitReturns => s.(waited := s.childExit, out := s.out.(cut := true), err := s.err.(cut := true))
    case Publish(st) =>
      var f := FanOf(s, st);
      var c := f.stage.chunk;
      var t := WithFan(s, st, f.(published := f.published + c, stage := Idle));
      t.(subs := map id | id in s.subs :: Offer(s.subs[id], Event(st, c)))
    case Finish =>
      s.(exitCode := s.waited,
         subs := map id | id in s.subs :: var b := s.subs[id];
                                          if b.listening then b.(listening := false, closed := true) else b)
    case Register(id) =>
      var live := s.exitCode.None?;
      var b := Sub(Locked, Unread(|s.out.published|), Unread(|s.err.published|), live, !live, [], [], [], []);
      s.(lock := Some(id), subs := s.subs[id := b])
    case CopyOut(id) =>
      var b := s.subs[id];
      s.(subs := s.subs[id := b.(out := Read(b.out.start, |s.out.ringed|, Last(s.capacity, s.out.ringed)))])
    case CopyErr(id) =>
      var b := s.subs[id];
      var v := Read(b.err.start, |s.err.ringed|, Last(s.capacity, s.err.ringed));
      s.(lock := None, subs := s.subs[id := b.(err := v, phase := ReplayOut)])
    case SendOut(id) =>
      var b := s.subs[id];
      s.(subs := s.subs[id := b.(sent := b.sent + Replay(Stdout, b.out.replay), phase := ReplayErr)])
    case SendErr(id) =>
      var b := s.subs[id];
      s.(subs := s.subs[id := b.(sent := b.sent + Replay(Stderr, b.err.replay), phase := Live)])
    case SendLive(id) =>
      var b := s.subs[id];
      var e := b.queue[0];
      s.(subs := s.subs[id := b.(queue := b.queue[1..], received := b.received + [e], sent := b.sent + [e])])
    case SendExit(id) => s.(subs := s.subs[id := s.subs[id].(phase := Exited(s.exitCode.value))])
    case Unsubscribe(id) => s.(subs := s.subs[id := s.subs[id].(listening := false)])
  }

  /** The state after the steps, if each of them can be taken. */
  function Run(s: State, steps: seq<Step>): Option<State>
    decreases |steps|
  {
    if steps == [] then Some(s)
    else if Enabled(s, steps[0]) then Run(Next(s, steps[0]), steps[1..])
    else None
  }

  // ---------- Invariant ----------

  /** The bytes of one stream among some events. */
  function Payload(es: seq<Event>, st: Stream): seq<Byte> {
    if es == [] then []
    else Payload(es[..|es| - 1], st) + (if es[|es| - 1].stream == st then es[|es| - 1].data else [])
  }

  /** The size of the first event of a stream, 0 when there is none. */
  function FirstSize(es: seq<Event>, st: Stream): nat {
    if es == [] then 0
    else if es[0].stream == st then |es[0].data|
    else FirstSize(es[1..], st)
  }

  ghost predicate FanInv(f: Fan) {
    && |f.taken| <= |f.written| && f.taken == f.written[..|f.taken|]
    && (f.finished ==> f.stage.Idle? && (f.cut || (f.ended && f.taken == f.written)))
    && match f.stage
       case Idle => f.ringed == f.taken && f.published == f.taken
       case Got(c) => f.taken == f.ringed + c && f.published == f.ringed && 0 < |c| <= CHUNK
       case Ringed(c) => f.ringed == f.taken && f.ringed == f.published + c && 0 < |c| <= CHUNK
  }

  /** All events that reached the subscriber's channel. */
  function Arrived(b: Sub): seq<Event> {
    b.received + b.queue
  }

  function Events(os: seq<Offering>): (es: seq<Event>)
    ensures |es| == |os| && forall i :: 0 <= i < |os| ==> es[i] == os[i].event
  {
    seq(|os|, i requires 0 <= i < |os| => os[i].event)
  }

  function KeptEvents(os: seq<Offering>): seq<Event> {
    if os == [] then []
    else KeptEvents(os[..|os| - 1]) + if os[|os| - 1].kept then [os[|os| - 1].event] else []
  }

  /** What the ring copy repeats of the chunk that is live next. */
  function Seam(v: View): int
    requires v.Read?
  {
    v.upTo - v.start
  }

  /** One stream of one subscriber, and the events offered to it, whether or not its channel had room for them. */
  ghost predicate ViewInv(capacity: nat, f: Fan, v: View, live: seq<Event>, st: Stream, b: Sub) {
    var got := |Payload(live, st)|;
    && v.start + got <= |f.published|
    && Payload(live, st) == f.published[v.start..v.start + got]
    && (b.listening ==> v.start + got == |f.published|)
    && (b.closed ==> f.finished && v.start + got == |f.published|)
    && (v.Unread? ==> got == 0)
    && (v.Read? ==>
          && v.start <= v.upTo <= |f.ringed|
          && v.replay == Last(capacity, f.ringed[..v.upTo])
          && SeamInv(f, v, live, st, b))
  }

  /** The seam is empty, or it is the next chunk to be published, or it is the first live chunk. */
  ghost predicate SeamInv(f: Fan, v: View, live: seq<Event>, st: Stream, b: Sub)
    requires v.Read?
  {
    && Seam(v) <= CHUNK
    && (Payload(live, st) != [] ==> Seam(v) == 0 || Seam(v) == FirstSize(live, st))
    && (Payload(live, st) == [] && Seam(v) != 0 && b.listening ==> f.stage.Ringed? && |f.stage.chunk| == Seam(v))
    && (Payload(live, st) == [] && b.closed ==> Seam(v) == 0)
  }

  /** What was sent so far: the replay of stdout, the replay of stderr, then the live events. */
  ghost predicate SentInv(b: Sub) {
    match b.phase
    case Locked => b.sent == [] && b.received == []
    case ReplayOut => b.out.Read? && b.err.Read? && b.sent == [] && b.received == []
    case ReplayErr => b.out.Read? && b.err.Read? && b.sent == Replay(Stdout, b.out.replay) && b.received == []
    case _ =>
      && b.out.Read? && b.err.Read?
      && b.sent == Replay(Stdout, b.out.replay) + Replay(Stderr, b.err.replay) + b.received
  }

  ghost predicate SubInv(s: State, id: Id, b: Sub) {
    && SentInv(b)
    && !(b.listening && b.closed)
    && (b.listening ==> s.exitCode.None?)
    && (b.closed ==> s.exitCode.Some?)
    && (b.phase == Locked ==> s.lock == Some(id))
    && (b.phase == Locked ==> b.queue == [] && b.offers == [] && (!b.closed ==> b.listening))
    && (forall e <- Events(b.offers) :: 0 < |e.data| <= CHUNK)
    && Arrived(b) == KeptEvents(b.offers)
    && (b.phase.Exited? ==> b.closed && b.queue == [] && s.exitCode == Some(b.phase.code))
    && ViewInv(s.capacity, s.out, b.out, Events(b.offers), Stdout, b)
    && ViewInv(s.capacity, s.err, b.err, Events(b.offers), Stderr, b)
  }

  ghost predicate Inv(s: State) {
    && FanInv(s.out) && FanInv(s.err)
    && (s.exitCode.Some? ==> s.waited == s.exitCode && s.out.finished && s.err.finished)
    && (s.waited.Some? ==> s.waited == s.childExit && s.out.cut && s.err.cut)
    && (s.lock.Some? ==> s.lock.value in s.subs && s.subs[s.lock.value].phase == Locked)
    && (forall id <- s.subs :: SubInv(s, id, s.subs[id]))
  }

  // ---------- Every step keeps the invariant ----------

  lemma PayloadAppend(es: seq<Event>, e: Event, st: Stream)
    ensures Payload(es + [e], st) == Payload(es, st) + (if e.stream == st then e.data else [])
  {
    assert (es + [e])[..|es|] == es;
  }

  lemma {:induction false} FirstSizeAppend(es: seq<Event>, e: Event, st: Stream)
    requires forall x <- es :: x.data != []
    ensures Payload(es, st) != [] ==> FirstSize(es + [e], st) == FirstSize(es, st)
    ensures Payload(es, st) == [] && e.stream == st ==> FirstSize(es + [e], st) == |e.data|
  {
    if es == [] {
      assert es + [e] == [e];
    } else {
      assert (es + [e])[1..] == es[1..] + [e];
      PayloadHead(es, st);
      FirstSizeAppend(es[1..], e, st);
    }
  }

  lemma {:induction false} PayloadHead(es: seq<Event>, st: Stream)
    requires es != []
    ensures Payload(es, st) == (if es[0].stream == st then es[0].data else []) + Payload(es[1..], st)
  {
    hide Payload;
    var n := |es| - 1;
    var front, last := es[..n], es[n];
    assert front + [last] == es;
    PayloadAppend(front, last, st);
    if n > 0 {
      PayloadHead(front, st);
      assert es[1..] == front[1..] + [last];
      PayloadAppend(front[1..], last, st);
    } else {
      NoPayload(st);
      assert front == [] && es[1..] == [];
    }
  }

  lemma NoPayload(st: Stream)
    ensures Payload([], st) == []
  {
  }

  /** A step of the reader that publishes nothing leaves every view as it was. */
  lemma ViewKept(capacity: nat, f: Fan, g: Fan, v: View, live: seq<Event>, st: Stream, b: Sub)
    requires ViewInv(capacity, f, v, live, st, b)
    requires g.published == f.published && |f.ringed| <= |g.ringed| && g.ringed[..|f.ringed|] == f.ringed
    requires f.stage.Ringed? ==> g.stage == f.stage
    requires f.finished ==> g.finished
    ensures ViewInv(capacity, g, v, live, st, b)
  {
    if v.Read? {
      assert g.ringed[..v.upTo] == f.ringed[..v.upTo];
    }
  }

  /** Steps of the process and of the readers that touch no subscriber. */
  lemma FanStepKeeps(s: State, t: State)
    requires Inv(s) && t == s.(out := t.out, err := t.err, childExit := t.childExit, waited := t.waited)
    requires FanInv(t.out) && FanInv(t.err)
    requires t.out.published == s.out.published && t.err.published == s.err.published
    requires |s.out.ringed| <= |t.out.ringed| && t.out.ringed[..|s.out.ringed|] == s.out.ringed
    requires |s.err.ringed| <= |t.err.ringed| && t.err.ringed[..|s.err.ringed|] == s.err.ringed
    requires s.out.stage.Ringed? ==> t.out.stage == s.out.stage
    requires s.err.stage.Ringed? ==> t.err.stage == s.err.stage
    requires (s.out.finished ==> t.out.finished) && (s.err.finished ==> t.err.finished)
    requires s.exitCode.Some? ==> t.waited == s.waited
    requires t.waited.Some? ==> t.waited == t.childExit && t.out.cut && t.err.cut
    ensures Inv(t)
  {
    forall id <- t.subs
      ensures SubInv(t, id, t.subs[id])
    {
      var b := s.subs[id];
      ViewKept(s.capacity, s.out, t.out, b.out, Events(b.offers), Stdout, b);
      ViewKept(s.capacity, s.err, t.err, b.err, Events(b.offers), Stderr, b);
    }
  }

  lemma OfferAppends(b: Sub, e: Event)
    requires b.listening
    ensures Events(Offer(b, e).offers) == Events(b.offers) + [e]
    ensures Arrived(b) == KeptEvents(b.offers) ==> Arrived(Offer(b, e)) == KeptEvents(Offer(b, e).offers)
  {
    var os := Offer(b, e).offers;
    assert os[..|os| - 1] == b.offers;
  }

  /** Publishing a chunk, for the stream it belongs to. */
  lemma ViewPublished(capacity: nat, f: Fan, v: View, b: Sub, st: Stream)
    requires FanInv(f) && f.stage.Ringed? && v.Read?
    requires !(b.listening && b.closed) && (forall e <- Events(b.offers) :: e.data != [])
    requires ViewInv(capacity, f, v, Events(b.offers), st, b)
    ensures var c := f.stage.chunk;
            var b' := Offer(b, Event(st, c));
            ViewInv(capacity, f.(published := f.published + c, stage := Idle), v, Events(b'.offers), st, b')
  {
    hide Payload, FirstSize, Last, SeamInv;
    var c := f.stage.chunk;
    var b' := Offer(b, Event(st, c));
    var got := |Payload(Events(b.offers), st)|;
    SliceAppend(f.published, c, v.start, v.start + got);
    if b.listening {
      OfferAppends(b, Event(st, c));
      PayloadAppend(Events(b.offers), Event(st, c), st);
      SeamPublished(f, v, Events(b.offers), st, b, b');
    } else {
      SeamUnheard(f, v, Events(b.offers), st, b);
    }
  }

  /** A listener's seam, once the chunk at hand has reached it. */
  lemma SeamPublished(f: Fan, v: View, live: seq<Event>, st: Stream, b: Sub, b': Sub)
    requires FanInv(f) && f.stage.Ringed? && v.Read? && SeamInv(f, v, live, st, b)
    requires b.listening && !b.closed && !b'.closed && forall e <- live :: e.data != []
    ensures var c := f.stage.chunk;
            SeamInv(f.(published := f.published + c, stage := Idle), v, live + [Event(st, c)], st, b')
  {
    hide Payload, FirstSize;
    PayloadAppend(live, Event(st, f.stage.chunk), st);
    FirstSizeAppend(live, Event(st, f.stage.chunk), st);
  }

  lemma SeamUnheard(f: Fan, v: View, live: seq<Event>, st: Stream, b: Sub)
    requires FanInv(f) && f.stage.Ringed? && v.Read? && SeamInv(f, v, live, st, b) && !b.listening
    ensures SeamInv(f.(published := f.published + f.stage.chunk, stage := Idle), v, live, st, b)
  {
    hide Payload, FirstSize;
  }

  /** Publishing a chunk, for the other stream. */
  lemma ViewOther(capacity: nat, f: Fan, v: View, b: Sub, st: Stream, e: Event)
    requires e.stream != st && (forall x <- Events(b.offers) :: x.data != [])
    requires ViewInv(capacity, f, v, Events(b.offers), st, b)
    ensures ViewInv(capacity, f, v, Events(Offer(b, e).offers), st, Offer(b, e))
  {
    hide Payload, FirstSize, Last, Events;
    if b.listening {
      OfferAppends(b, e);
      PayloadAppend(Events(b.offers), e, st);
      FirstSizeAppend(Events(b.offers), e, st);
    }
  }

  lemma PublishSub(s: State, st: Stream, id: Id, t: State)
    requires Inv(s) && Enabled(s, Publish(st)) && t == Next(s, Publish(st)) && id in s.subs
    ensures SubInv(t, id, t.subs[id])
  {
    hide ViewInv, KeptEvents;
    var e := Event(st, FanOf(s, st).stage.chunk);
    var b := s.subs[id];
    var b' := Offer(b, e);
    assert SubInv(s, id, b) && t.subs[id] == b';
    if b.listening {
      OfferAppends(b, e);
    }
    if st == Stdout {
      ViewPublished(s.capacity, s.out, b.out, b, Stdout);
      ViewOther(s.capacity, s.err, b.err, b, Stderr, e);
    } else {
      ViewPublished(s.capacity, s.err, b.err, b, Stderr);
      ViewOther(s.capacity, s.out, b.out, b, Stdout, e);
    }
  }

  lemma PublishKeeps(s: State, st: Stream)
    requires Inv(s) && Enabled(s, Publish(st))
    ensures Inv(Next(s, Publish(st)))
  {
    var t := Next(s, Publish(st));
    forall id <- t.subs
      ensures SubInv(t, id, t.subs[id])
    {
      PublishSub(s, st, id, t);
    }
    hide SubInv, Offer;
  }

  lemma FinishKeeps(s: State)
    requires Inv(s) && Enabled(s, Finish)
    ensures Inv(Next(s, Finish))
  {
    var t := Next(s, Finish);
    forall id <- t.subs
      ensures SubInv(t, id, t.subs[id])
    {
      var b := s.subs[id];
      assert SubInv(s, id, b);
      assert Arrived(t.subs[id]) == Arrived(b);
    }
  }

  lemma RegisterKeeps(s: State, id: Id)
    requires Inv(s) && Enabled(s, Register(id))
    ensures Inv(Next(s, Register(id)))
  {
    var t := Next(s, Register(id));
    forall x <- t.subs
      ensures SubInv(t, x, t.subs[x])
    {
      if x != id {
        assert SubInv(s, x, s.subs[x]);
      }
    }
  }

  /** The copy that Subscribe takes while it keeps publishers out. */
  lemma ViewCopied(capacity: nat, f: Fan, v: View, st: Stream, b: Sub)
    requires FanInv(f) && v.Unread? && (b.listening || b.closed)
    requires ViewInv(capacity, f, v, [], st, b)
    ensures ViewInv(capacity, f, Read(v.start, |f.ringed|, Last(capacity, f.ringed)), [], st, b)
  {
    assert f.ringed[..|f.ringed|] == f.ringed;
  }

  lemma ViewSame(capacity: nat, f: Fan, v: View, live: seq<Event>, st: Stream, b: Sub, b': Sub)
    requires ViewInv(capacity, f, v, live, st, b)
    requires (b'.listening ==> b.listening) && b'.closed == b.closed
    ensures ViewInv(capacity, f, v, live, st, b')
  {
  }

  lemma CopyOutKeeps(s: State, id: Id)
    requires Inv(s) && Enabled(s, CopyOut(id))
    ensures Inv(Next(s, CopyOut(id)))
  {
    hide ViewInv, FanInv, KeptEvents, Payload, Last;
    var t := Next(s, CopyOut(id));
    forall x <- t.subs
      ensures SubInv(t, x, t.subs[x])
    {
      var b := s.subs[x];
      assert SubInv(s, x, b);
      if x == id {
        assert Events(b.offers) == [];
        ViewCopied(s.capacity, s.out, b.out, Stdout, b);
        ViewSame(s.capacity, s.out, t.subs[x].out, [], Stdout, b, t.subs[x]);
        ViewSame(s.capacity, s.err, b.err, [], Stderr, b, t.subs[x]);
      }
    }
  }

  lemma CopyErrKeeps(s: State, id: Id)
    requires Inv(s) && Enabled(s, CopyErr(id))
    ensures Inv(Next(s, CopyErr(id)))
  {
    hide ViewInv, FanInv, KeptEvents, Payload, Last;
    var t := Next(s, CopyErr(id));
    assert s.subs[id].phase == Locked;
    forall x <- t.subs
      ensures SubInv(t, x, t.subs[x])
    {
      var b := s.subs[x];
      assert SubInv(s, x, b);
      if x == id {
        assert Events(b.offers) == [];
        ViewCopied(s.capacity, s.err, b.err, Stderr, b);
        ViewSame(s.capacity, s.err, t.subs[x].err, [], Stderr, b, t.subs[x]);
        ViewSame(s.capacity, s.out, b.out, [], Stdout, b, t.subs[x]);
      }
    }
  }

  /** Steps of one attach session: only its own record changes, and its channel neither gains nor loses events. */
  lemma SessionKeeps(s: State, id: Id, t: State)
    requires Inv(s) && id in s.subs && id in t.subs && t == s.(subs := s.subs[id := t.subs[id]])
    requires var b, b' := s.subs[id], t.subs[id];
             && Arrived(b') == Arrived(b) && b'.out == b.out && b'.err == b.err && b'.offers == b.offers
             && (b'.listening ==> b.listening) && b'.closed == b.closed
             && b.phase != Locked && b'.phase != Locked && SentInv(b')
             && (b'.phase.Exited? ==> b'.closed && b'.queue == [] && s.exitCode == Some(b'.phase.code))
    ensures Inv(t)
  {
    hide ViewInv, SentInv, FanInv, KeptEvents, Payload;
    forall x <- t.subs
      ensures SubInv(t, x, t.subs[x])
    {
      var b := s.subs[x];
      assert SubInv(s, x, b);
      if x == id {
        ViewSame(s.capacity, s.out, b.out, Events(b.offers), Stdout, b, t.subs[x]);
        ViewSame(s.capacity, s.err, b.err, Events(b.offers), Stderr, b, t.subs[x]);
      }
    }
  }

  lemma SendOutKeeps(s: State, id: Id)
    requires Inv(s) && Enabled(s, SendOut(id))
    ensures Inv(Next(s, SendOut(id)))
  {
    hide ViewInv, FanInv, Payload;
    var t := Next(s, SendOut(id));
    assert SubInv(s, id, s.subs[id]);
    assert Arrived(t.subs[id]) == Arrived(s.subs[id]);
    SessionKeeps(s, id, t);
  }

  lemma SendErrKeeps(s: State, id: Id)
    requires Inv(s) && Enabled(s, SendErr(id))
    ensures Inv(Next(s, SendErr(id)))
  {
    hide ViewInv, FanInv, Payload;
    var t := Next(s, SendErr(id));
    assert SubInv(s, id, s.subs[id]);
    assert Arrived(t.subs[id]) == Arrived(s.subs[id]);
    SessionKeeps(s, id, t);
  }

  lemma SendLiveKeeps(s: State, id: Id)
    requires Inv(s) && Enabled(s, SendLive(id))
    ensures Inv(Next(s, SendLive(id)))
  {
    hide ViewInv, FanInv, Payload;
    var t := Next(s, SendLive(id));
    assert SubInv(s, id, s.subs[id]);
    assert Arrived(t.subs[id]) == Arrived(s.subs[id]);
    SessionKeeps(s, id, t);
  }

  lemma SendExitKeeps(s: State, id: Id)
    requires Inv(s) && Enabled(s, SendExit(id))
    ensures Inv(Next(s, SendExit(id)))
  {
    hide ViewInv, FanInv, Payload;
    var t := Next(s, SendExit(id));
    assert SubInv(s, id, s.subs[id]);
    assert Arrived(t.subs[id]) == Arrived(s.subs[id]);
    SessionKeeps(s, id, t);
  }

  lemma UnsubscribeKeeps(s: State, id: Id)
    requires Inv(s) && Enabled(s, Unsubscribe(id))
    ensures Inv(Next(s, Unsubscribe(id)))
  {
    hide ViewInv, FanInv, Payload;
    var t := Next(s, Unsubscribe(id));
    assert SubInv(s, id, s.subs[id]);
    assert Arrived(t.subs[id]) == Arrived(s.subs[id]);
    SessionKeeps(s, id, t);
  }

  lemma PipeKeeps(f: Fan, a: PipeStep)
    requires FanInv(f) && PipeEnabled(f, a)
    ensures var g := PipeNext(f, a);
            && FanInv(g) && g.published == f.published && g.cut == f.cut
            && |f.ringed| <= |g.ringed| && g.ringed[..|f.ringed|] == f.ringed
            && (f.stage.Ringed? ==> g.stage == f.stage) && (f.finished ==> g.finished)
  {
  }

  lemma PipeStepKeeps(s: State, st: Stream, p: PipeStep)
    requires Inv(s) && Enabled(s, Pipe(st, p))
    ensures Inv(Next(s, Pipe(st, p)))
  {
    hide SubInv, FanInv, PipeNext;
    PipeKeeps(FanOf(s, st), p);
    assert s.out.ringed[..|s.out.ringed|] == s.out.ringed;
    assert s.err.ringed[..|s.err.ringed|] == s.err.ringed;
    FanStepKeeps(s, Next(s, Pipe(st, p)));
  }

  lemma WaiterStepKeeps(s: State, a: Step)
    requires Inv(s) && Enabled(s, a) && (a.Exit? || a.WaitReturns?)
    ensures Inv(Next(s, a))
  {
    hide SubInv;
    assert s.out.ringed[..|s.out.ringed|] == s.out.ringed;
    assert s.err.ringed[..|s.err.ringed|] == s.err.ringed;
    FanStepKeeps(s, Next(s, a));
  }

  /** One step of any goroutine, or of the process, keeps the invariant. */
  lemma StepKeeps(s: State, a: Step)
    requires Inv(s) && Enabled(s, a)
    ensures Inv(Next(s, a))
  {
    hide Inv, Next, Enabled;
    match a
    case Publish(st) => PublishKeeps(s, st);
    case Finish => FinishKeeps(s);
    case Register(id) => RegisterKeeps(s, id);
    case CopyOut(id) => CopyOutKeeps(s, id);
    case CopyErr(id) => CopyErrKeeps(s, id);
    case SendOut(id) => SendOutKeeps(s, id);
    case SendErr(id) => SendErrKeeps(s, id);
    case SendLive(id) => SendLiveKeeps(s, id);
    case SendExit(id) => SendExitKeeps(s, id);
    case Unsubscribe(id) => UnsubscribeKeeps(s, id);
    case Pipe(st, p) => PipeStepKeeps(s, st, p);
    case _ => WaiterStepKeeps(s, a);
  }

  lemma {:induction false} RunKeeps(s: State, steps: seq<Step>)
    requires Inv(s) && Run(s, steps).Some?
    ensures Inv(Run(s, steps).value)
    decreases |steps|
  {
    if steps != [] {
      StepKeeps(s, steps[0]);
      RunKeeps(Next(s, steps[0]), steps[1..]);
    }
  }

  function ViewOf(b: Sub, st: Stream): View {
    if st == Stdout then b.out else b.err
  }

  lemma InitInv(capacity: nat)
    ensures Inv(Init(capacity))
  {
  }

  lemma RunInv(capacity: nat, steps: seq<Step>, s: State)
    requires Run(Init(capacity), steps) == Some(s)
    ensures Inv(s)
  {
    hide Inv, Run;
    InitInv(capacity);
    RunKeeps(Init(capacity), steps);
  }

  // ---------- The critical sections of mp.mu, as code ----------

  datatype Channel = Channel(queue: seq<Event>, closed: bool)

  /** A channel is known by its number. */
  type Handle = nat

  /** The channels that some listeners have. */
  function Handles(listeners: map<Id, Handle>, ids: set<Id>): set<Handle> {
    set id | id in ids && id in listeners :: listeners[id]
  }

  class MainProcess {
    const stdoutBuf: RingBuffers.RingBuffer
    const stderrBuf: RingBuffers.RingBuffer
    /** None when the map is nil, after the exit. */
    var listeners: Option<map<Id, Handle>>
    /** Every channel Subscribe ever made: an attach session keeps its own after it left the map. */
    var channels: seq<Channel>
    var exitCode: Option<int>

    /** No listener's channel is closed, so fanOut never sends on a closed channel and wait never closes one twice;
        the map is nil only once the exit code is known, so Subscribe never writes to a nil map. */
    ghost predicate Valid()
      reads this, stdoutBuf, stderrBuf, stdoutBuf.buf, stderrBuf.buf
    {
      && stdoutBuf.Valid() && stderrBuf.Valid()
      && (listeners.None? <==> exitCode.Some?)
      && (listeners.Some? ==> Open(listeners.value, channels))
    }

    static ghost predicate Open(l: map<Id, Handle>, channels: seq<Channel>) {
      && (forall id <- l :: l[id] < |channels| && !channels[l[id]].closed)
      && (forall a, b | a in l && b in l && l[a] == l[b] :: a == b)
    }

    /** The channels that are in the listeners map. */
    ghost function Listening(): set<Handle>
      reads this
    {
      if listeners.Some? then Handles(listeners.value, listeners.value.Keys) else {}
    }

    constructor (size: nat)
      requires size > 0
      ensures Valid() && fresh(stdoutBuf) && fresh(stderrBuf) && fresh(stdoutBuf.buf) && fresh(stderrBuf.buf)
      ensures listeners == Some(map[]) && channels == [] && exitCode == None
      ensures stdoutBuf.history == [] && stderrBuf.history == []
    {
      stdoutBuf := new RingBuffers.RingBuffer(size);
      stderrBuf := new RingBuffers.RingBuffer(size);
      listeners, channels, exitCode := Some(map[]), [], None;
    }

    /** The loop of fanOut over the listeners, with its non-blocking send. */
    method Publish(e: Event)
      requires Valid()
      modifies this`channels
      ensures Valid() && |channels| == |old(channels)|
      ensures forall h :: 0 <= h < |channels| ==>
                var c := old(channels)[h];
                channels[h] == if h in Listening() && |c.queue| < 256 then c.(queue := c.queue + [e]) else c
    {
      if listeners.None? {
        return;
      }
      var l := listeners.value;
      var todo := l.Keys;
      ghost var before := channels;
      while todo != {}
        invariant todo <= l.Keys && |channels| == |before|
        invariant forall h :: 0 <= h < |before| ==>
                    channels[h] == if h in Handles(l, l.Keys - todo) then before[h].(queue := Offered(before[h].queue, e))
                                   else before[h]
        decreases todo
      {
        var id :| id in todo;
        OneMoreHandle(l, todo, id);
        var c := channels[l[id]];
        if |c.queue| < LISTENER_CAPACITY {
          channels := channels[l[id] := c.(queue := c.queue + [e])];
        }
        todo := todo - {id};
      }
      assert l.Keys - todo == l.Keys;
    }

    /** Registers a new channel, or hands out a closed one after the exit, and copies both ring buffers. A listener that
        was registered under the same id loses its place, and its channel stays open for ever. */
    method Subscribe(id: Id) returns (replayOut: seq<Byte>, replayErr: seq<Byte>, ch: Handle)
      requires Valid()
      modifies this`channels, this`listeners
      ensures Valid()
      ensures ch == |old(channels)| && channels == old(channels) + [Channel([], exitCode.Some?)]
      ensures listeners == if exitCode.Some? then None else Some(old(listeners.value)[id := ch])
      ensures replayOut == Last(stdoutBuf.buf.Length, stdoutBuf.history)
      ensures replayErr == Last(stderrBuf.buf.Length, stderrBuf.history)
    {
      ch := |channels|;
      if exitCode.Some? {
        channels := channels + [Channel([], true)];
      } else {
        channels := channels + [Channel([], false)];
        listeners := Some(listeners.value[id := ch]);
      }
      replayOut := stdoutBuf.Bytes();
      replayErr := stderrBuf.Bytes();
    }

    method Unsubscribe(id: Id)
      requires Valid()
      modifies this`listeners
      ensures Valid()
      ensures listeners == if old(listeners).None? then None else Some(old(listeners).value - {id})
    {
      if listeners.Some? {
        listeners := Some(listeners.value - {id});
      }
    }

    /** The critical section of wait: the code is recorded, every listener's channel closed, the map dropped. */
    method Close(code: int)
      requires Valid() && exitCode.None?
      modifies this`channels, this`listeners, this`exitCode
      ensures Valid() && exitCode == Some(code) && listeners == None && |channels| == |old(channels)|
      ensures forall h :: 0 <= h < |channels| ==>
                var c := old(channels)[h];
                channels[h] == if h in old(Listening()) then c.(closed := true) else c
    {
      exitCode := Some(code);
      var l := listeners.value;
      var todo := l.Keys;
      ghost var before := channels;
      while todo != {}
        invariant todo <= l.Keys && |channels| == |before| && listeners == Some(l) && exitCode == Some(code)
        invariant forall h :: 0 <= h < |before| ==>
                    channels[h] == if h in Handles(l, l.Keys - todo) then before[h].(closed := true) else before[h]
        decreases todo
      {
        var id :| id in todo;
        OneMoreHandle(l, todo, id);
        assert !channels[l[id]].closed;
        channels := channels[l[id] := channels[l[id]].(closed := true)];
        todo := todo - {id};
      }
      assert l.Keys - todo == l.Keys;
      listeners := None;
    }
  }

  /** The next listener of a loop has a channel that none before it had. */
  lemma OneMoreHandle(l: map<Id, Handle>, todo: set<Id>, id: Id)
    requires todo <= l.Keys && id in todo && forall a, b | a in l && b in l && l[a] == l[b] :: a == b
    ensures l[id] !in Handles(l, l.Keys - todo)
    ensures Handles(l, l.Keys - (todo - {id})) == Handles(l, l.Keys - todo) + {l[id]}
  {
  }
}
