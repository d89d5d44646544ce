/** What a client that attaches to the main process is shown, in every run (agent/attach.go, agent/process.go). */
module AttachOutputs {
  import opened Bytes
  import opened MainProcesses
  import opened Options

  // ---------- Payloads of event lists ----------

  lemma {:induction false} PayloadConcat(a: seq<Event>, b: seq<Event>, st: Stream)
    ensures Payload(a + b, st) == Payload(a, st) + Payload(b, st)
  {
    if b == [] {
      assert a + b == a;
    } else {
      var n := |b| - 1;
      assert (a + b)[..|a + b| - 1] == a + b[..n];
      PayloadConcat(a, b[..n], st);
    }
  }

  lemma {:induction false} FirstSizeConcat(a: seq<Event>, b: seq<Event>, st: Stream)
    requires Payload(a, st) != [] && forall e <- a :: e.data != []
    ensures FirstSize(a + b, st) == FirstSize(a, st) <= |Payload(a, st)|
  {
    PayloadHead(a, st);
    assert (a + b)[1..] == a[1..] + b;
    if a[0].stream != st {
      FirstSizeConcat(a[1..], b, st);
    }
  }

  lemma {:induction false} FirstSizeSkips(a: seq<Event>, e: Event, b: seq<Event>, st: Stream)
    requires e.stream == st && forall x <- a :: x.stream != st
    ensures FirstSize(a + [e] + b, st) == |e.data|
  {
    if a != [] {
      assert (a + [e] + b)[1..] == a[1..] + [e] + b && (a + [e] + b)[0] == a[0];
      FirstSizeSkips(a[1..], e, b, st);
    }
  }

  // ---------- What was offered, and what was kept of it ----------

  lemma {:induction false} KeptConcat(a: seq<Offering>, b: seq<Offering>)
    ensures KeptEvents(a + b) == KeptEvents(a) + KeptEvents(b)
  {
    if b == [] {
      assert a + b == a;
    } else {
      var n := |b| - 1;
      assert (a + b)[..|a + b| - 1] == a + b[..n];
      KeptConcat(a, b[..n]);
    }
  }

  lemma {:induction false} KeptMembers(os: seq<Offering>)
    ensures forall e <- KeptEvents(os) :: exists o :: o in os && o.kept && o.event == e
  {
    if os != [] {
      var n := |os| - 1;
      KeptMembers(os[..n]);
      assert os == os[..n] + [os[n]];
      assert os[n] in os;
    }
  }

  lemma OfferingsLast(os: seq<Offering>, o: Offering, st: Stream)
    ensures Payload(Events(os + [o]), st) ==
            Payload(Events(os), st) + if o.event.stream == st then o.event.data else []
    ensures Payload(KeptEvents(os + [o]), st) ==
            Payload(KeptEvents(os), st) + if o.kept && o.event.stream == st then o.event.data else []
  {
    hide Payload;
    assert Events(os + [o]) == Events(os) + [o.event];
    assert (os + [o])[..|os|] == os;
    assert KeptEvents(os) + [] == KeptEvents(os);
    PayloadAppend(Events(os), o.event, st);
    PayloadAppend(KeptEvents(os), o.event, st);
  }

  lemma NothingOffered(st: Stream)
    ensures Payload(Events([]), st) == [] && Payload(KeptEvents([]), st) == []
  {
  }

  /** What was kept is never more than what was offered; it is all of it if nothing of the stream was dropped. */
  lemma {:induction false} KeptAtMost(os: seq<Offering>, st: Stream)
    ensures |Payload(KeptEvents(os), st)| <= |Payload(Events(os), st)|
    ensures (forall o <- os :: o.event.stream == st ==> o.kept) ==>
              Payload(KeptEvents(os), st) == Payload(Events(os), st)
    ensures (forall o <- os :: o.event.stream != st) ==> Payload(Events(os), st) == []
  {
    hide Payload, Events, KeptEvents;
    if os == [] {
      NothingOffered(st);
    } else {
      var front, last := os[..|os| - 1], os[|os| - 1];
      assert os == front + [last];
      KeptAtMost(front, st);
      OfferingsLast(front, last, st);
    }
  }

  /** It is less if anything was. */
  lemma {:induction false} KeptFewer(os: seq<Offering>, st: Stream, i: nat)
    requires i < |os| && Missed(os, st, i) && forall o <- os :: o.event.data != []
    ensures |Payload(KeptEvents(os), st)| < |Payload(Events(os), st)|
  {
    hide Payload, Events, KeptEvents;
    var front, last := os[..|os| - 1], os[|os| - 1];
    assert os == front + [last];
    OfferingsLast(front, last, st);
    KeptAtMost(front, st);
    if i < |front| {
      KeptFewer(front, st, i);
    }
  }

  predicate Missed(os: seq<Offering>, st: Stream, i: nat)
    requires i < |os|
  {
    os[i].event.stream == st && !os[i].kept
  }

  /** The first event of a stream that was offered. */
  predicate IsFirst(os: seq<Offering>, st: Stream, i: nat)
    requires i < |os|
  {
    os[i].event.stream == st && forall j :: 0 <= j < i ==> os[j].event.stream != st
  }

  lemma {:induction false} HasFirst(os: seq<Offering>, st: Stream, n: nat) returns (i: nat)
    requires n < |os| && os[n].event.stream == st
    ensures i <= n && IsFirst(os, st, i)
    decreases n
  {
    if m :| 0 <= m < n && os[m].event.stream == st {
      i := HasFirst(os, st, m);
    } else {
      i := n;
    }
  }

  /** The first offering of a stream and the rest. */
  lemma FirstSplits(os: seq<Offering>, st: Stream, i: nat)
    requires i < |os| && IsFirst(os, st, i)
    ensures var (c, rest) := (os[i].event.data, os[i + 1..]);
            && Payload(Events(os), st) == c + Payload(Events(rest), st)
            && Payload(KeptEvents(os), st) == (if os[i].kept then c else []) + Payload(KeptEvents(rest), st)
            && FirstSize(Events(os), st) == |c|
            && (os[i].kept ==> FirstSize(KeptEvents(os), st) == |c|)
  {
    hide *;
    AllSplits(os, st, i);
    KeptSplits(os, st, i);
  }

  lemma AllSplits(os: seq<Offering>, st: Stream, i: nat)
    requires i < |os| && IsFirst(os, st, i)
    ensures Payload(Events(os), st) == os[i].event.data + Payload(Events(os[i + 1..]), st)
    ensures FirstSize(Events(os), st) == |os[i].event.data|
  {
    hide Payload, FirstSize, KeptEvents, Events;
    var a, o, rest := os[..i], os[i], os[i + 1..];
    assert os == a + [o] + rest;
    EventsConcat(a + [o], rest);
    EventsConcat(a, [o]);
    EventsOfOne(o);
    PayloadConcat(Events(a + [o]), Events(rest), st);
    OfferingsLast(a, o, st);
    KeptAtMost(a, st);
    FirstSizeSkips(Events(a), o.event, Events(rest), st);
  }

  lemma EventsConcat(a: seq<Offering>, b: seq<Offering>)
    ensures Events(a + b) == Events(a) + Events(b)
    ensures forall e <- Events(a) :: exists o :: o in a && o.event == e
  {
  }

  lemma EventsOfOne(o: Offering)
    ensures Events([o]) == [o.event]
  {
  }

  lemma KeptSplits(os: seq<Offering>, st: Stream, i: nat)
    requires i < |os| && IsFirst(os, st, i)
    ensures Payload(KeptEvents(os), st) ==
            (if os[i].kept then os[i].event.data else []) + Payload(KeptEvents(os[i + 1..]), st)
    ensures os[i].kept ==> FirstSize(KeptEvents(os), st) == |os[i].event.data|
  {
    hide Payload, FirstSize, KeptEvents;
    var a, o, rest := os[..i], os[i], os[i + 1..];
    assert os == a + [o] + rest;
    KeptConcat(a + [o], rest);
    PayloadConcat(KeptEvents(a + [o]), KeptEvents(rest), st);
    OfferingsLast(a, o, st);
    KeptAtMost(a, st);
    if o.kept {
      KeptMembers(a);
      KeptLast(a, o);
      FirstSizeSkips(KeptEvents(a), o.event, KeptEvents(rest), st);
    }
  }

  lemma KeptLast(os: seq<Offering>, o: Offering)
    requires o.kept
    ensures KeptEvents(os + [o]) == KeptEvents(os) + [o.event]
  {
    assert (os + [o])[..|os|] == os;
  }

  // ---------- What a client is shown ----------

  /** The bytes of one stream that the client was sent. */
  function Shown(b: Sub, st: Stream): seq<Byte> {
    Payload(b.sent, st)
  }

  /** The chunk that the replay has as well reached the client's channel: it comes twice. */
  ghost predicate SeamHeard(b: Sub, st: Stream) {
    && ViewOf(b, st).Read? && Seam(ViewOf(b, st)) != 0
    && exists i :: 0 <= i < |b.offers| && IsFirst(b.offers, st, i) && b.offers[i].kept
  }

  /** No chunk of the stream was dropped on the full channel, except perhaps the one that the replay has as well. */
  ghost predicate OnlySeamMissed(b: Sub, st: Stream)
    requires ViewOf(b, st).Read?
  {
    forall i :: 0 <= i < |b.offers| && Missed(b.offers, st, i) ==>
                  Seam(ViewOf(b, st)) != 0 && IsFirst(b.offers, st, i)
  }

  /** The bytes shown, with the chunk that came twice left out once. */
  ghost function Once(b: Sub, st: Stream): seq<Byte>
    requires ViewOf(b, st).Read? && 0 <= Seam(ViewOf(b, st))
  {
    var v := ViewOf(b, st);
    var live := Payload(b.received, st);
    v.replay + if !SeamHeard(b, st) then live else if Seam(v) <= |live| then live[Seam(v)..] else []
  }

  /** Where in the stream the replay begins. */
  function From(b: Sub, st: Stream): int
    requires ViewOf(b, st).Read?
  {
    ViewOf(b, st).upTo - |ViewOf(b, st).replay|
  }

  lemma ShownSplits(b: Sub, st: Stream)
    requires SentInv(b) && (b.phase.Live? || b.phase.Exited?)
    ensures ViewOf(b, st).Read? && Shown(b, st) == ViewOf(b, st).replay + Payload(b.received, st)
  {
    hide Payload, Replay;
    var x, y := Replay(Stdout, b.out.replay), Replay(Stderr, b.err.replay);
    PayloadConcat(x + y, b.received, st);
    PayloadConcat(x, y, st);
    ReplayPayload(Stdout, b.out.replay, st);
    ReplayPayload(Stderr, b.err.replay, st);
  }

  lemma ReplayPayload(r: Stream, data: seq<Byte>, st: Stream)
    ensures Payload(Replay(r, data), st) == if r == st then data else []
  {
    if data != [] {
      PayloadAppend([], Event(r, data), st);
      assert [] + [Event(r, data)] == [Event(r, data)];
    }
  }

  /** What the invariant says about one stream of a client that got its replay. */
  lemma ClientFacts(s: State, id: Id, st: Stream)
    requires Inv(s) && id in s.subs && (s.subs[id].phase.Live? || s.subs[id].phase.Exited?)
    ensures var b := s.subs[id];
            var v := ViewOf(b, st);
            && FanInv(FanOf(s, st)) && v.Read? && ViewInv(s.capacity, FanOf(s, st), v, Events(b.offers), st, b)
            && Shown(b, st) == v.replay + Payload(b.received, st)
            && b.received + b.queue == KeptEvents(b.offers)
            && (forall o <- b.offers :: o.event.data != [])
            && (b.phase.Exited? ==> b.closed && b.queue == [] && s.exitCode == Some(b.phase.code))
  {
    hide ViewInv, FanInv, KeptEvents;
    var b := s.subs[id];
    assert SubInv(s, id, b);
    ShownSplits(b, st);
    forall o <- b.offers
      ensures o.event.data != []
    {
      var i :| 0 <= i < |b.offers| && b.offers[i] == o;
      assert Events(b.offers)[i] in Events(b.offers);
    }
  }

  /** part is what all has from position lo on. */
  ghost predicate IsPart(part: seq<Byte>, all: seq<Byte>, lo: int) {
    0 <= lo && lo + |part| <= |all| && part == all[lo..lo + |part|]
  }

  /** The replay, and what was offered, as parts of what was read from the pipe. */
  lemma ViewParts(capacity: nat, f: Fan, v: View, b: Sub, st: Stream)
    requires FanInv(f) && v.Read? && ViewInv(capacity, f, v, Events(b.offers), st, b)
    ensures var chunks := Payload(Events(b.offers), st);
            && 0 <= Seam(v) <= CHUNK
            && IsPart(chunks, f.taken, v.start) && IsPart(v.replay, f.taken, v.upTo - |v.replay|)
    ensures b.closed ==> v.start + |Payload(Events(b.offers), st)| == |f.taken|
    ensures Payload(Events(b.offers), st) != [] && Seam(v) != 0 ==> Seam(v) == FirstSize(Events(b.offers), st)
    ensures b.closed && Seam(v) != 0 ==> Payload(Events(b.offers), st) != []
  {
    hide Payload, Last, FirstSize, Events;
    PartOfTaken(f, v.start, v.start + |Payload(Events(b.offers), st)|);
    PartOfRing(capacity, f, v.upTo);
  }

  lemma PartOfTaken(f: Fan, a: nat, b: nat)
    requires FanInv(f) && a <= b <= |f.published|
    ensures b <= |f.taken| && f.published[a..b] == f.taken[a..b]
  {
    assert f.published == f.taken[0..|f.published|];
    SliceSlice(f.taken, 0, |f.published|, a, b);
  }

  lemma PartOfRing(capacity: nat, f: Fan, upTo: nat)
    requires FanInv(f) && upTo <= |f.ringed|
    ensures upTo <= |f.taken|
    ensures var replay := Last(capacity, f.ringed[..upTo]);
            |replay| <= upTo && replay == f.taken[upTo - |replay|..upTo]
  {
    hide Last;
    assert f.ringed[..upTo] == f.taken[0..upTo];
    LastOfSlice(f.taken, 0, upTo, capacity);
  }

  // ---------- No gap ----------

  /** Where the live bytes kept for a client begin: after the seam if the seam chunk is not among them. */
  ghost function LiveFrom(b: Sub, st: Stream): int
    requires ViewOf(b, st).Read?
  {
    if SeamHeard(b, st) then ViewOf(b, st).start else ViewOf(b, st).upTo
  }

  /** All bytes kept, when nothing was dropped that the replay does not have. */
  lemma KeptIsTaken(b: Sub, st: Stream, taken: seq<Byte>)
    requires var v := ViewOf(b, st);
             var chunks := Payload(Events(b.offers), st);
             && v.Read? && 0 <= Seam(v) && v.upTo <= |taken| && IsPart(chunks, taken, v.start)
             && (chunks != [] && Seam(v) != 0 ==> Seam(v) == FirstSize(Events(b.offers), st))
    requires OnlySeamMissed(b, st) && forall o <- b.offers :: o.event.data != []
    ensures IsPart(Payload(KeptEvents(b.offers), st), taken, LiveFrom(b, st))
    ensures var (v, chunks) := (ViewOf(b, st), Payload(Events(b.offers), st));
            chunks != [] || Seam(v) == 0 ==>
              LiveFrom(b, st) + |Payload(KeptEvents(b.offers), st)| == v.start + |chunks|
    ensures SeamHeard(b, st) ==> Seam(ViewOf(b, st)) <= |Payload(KeptEvents(b.offers), st)|
  {
    hide Payload, FirstSize, KeptEvents, Events;
    var v := ViewOf(b, st);
    var os := b.offers;
    KeptAtMost(os, st);
    if n :| 0 <= n < |os| && os[n].event.stream == st {
      var i := HasFirst(os, st, n);
      FirstSplits(os, st, i);
      RestKept(b, st, i);
      FirstDecides(b, st, i);
      var c := os[i].event.data;
      var chunks := Payload(Events(os), st);
      if !os[i].kept {
        assert Missed(os, st, i);
        assert chunks[|c|..] == Payload(Events(os[i + 1..]), st);
        SliceSlice(taken, v.start, v.start + |chunks|, |c|, |chunks|);
        assert |c| == 0 || |c| == Seam(v);
      }
    } else {
      assert forall o <- os :: o.event.stream != st;
    }
  }

  /** After the first offering of the stream, everything was kept. */
  lemma RestKept(b: Sub, st: Stream, i: nat)
    requires ViewOf(b, st).Read? && OnlySeamMissed(b, st) && i < |b.offers| && IsFirst(b.offers, st, i)
    ensures Payload(KeptEvents(b.offers[i + 1..]), st) == Payload(Events(b.offers[i + 1..]), st)
  {
    hide Payload, KeptEvents, Events;
    var rest := b.offers[i + 1..];
    KeptAtMost(rest, st);
    forall o <- rest | o.event.stream == st
      ensures o.kept
    {
      var j :| 0 <= j < |rest| && rest[j] == o;
      assert b.offers[i + 1 + j] == o;
      assert !IsFirst(b.offers, st, i + 1 + j);
      assert !Missed(b.offers, st, i + 1 + j);
    }
  }

  /** There is only one first offering. */
  lemma FirstDecides(b: Sub, st: Stream, i: nat)
    requires ViewOf(b, st).Read? && i < |b.offers| && IsFirst(b.offers, st, i)
    ensures SeamHeard(b, st) <==> Seam(ViewOf(b, st)) != 0 && b.offers[i].kept
  {
  }

  /** Part of what was kept, from its beginning. */
  lemma ReceivedIsTaken(s: State, id: Id, st: Stream)
    requires Inv(s) && id in s.subs && (s.subs[id].phase.Live? || s.subs[id].phase.Exited?)
    requires ViewOf(s.subs[id], st).Read? && OnlySeamMissed(s.subs[id], st)
    ensures var (b, taken) := (s.subs[id], FanOf(s, st).taken);
            var v := ViewOf(b, st);
            var live := Payload(b.received, st);
            && 0 <= Seam(v) <= CHUNK && IsPart(v.replay, taken, v.upTo - |v.replay|)
            && IsPart(live, taken, LiveFrom(b, st))
  {
    hide Inv, ViewInv, FanInv, Payload, KeptEvents, Events, FirstSize, SeamHeard, OnlySeamMissed, Last, IsPart, LiveFrom;
    var (b, f) := (s.subs[id], FanOf(s, st));
    ClientFacts(s, id, st);
    ViewParts(s.capacity, f, ViewOf(b, st), b, st);
    ReplayEnds(ViewOf(b, st).replay, f.taken, ViewOf(b, st).upTo);
    KeptIsTaken(b, st, f.taken);
    PayloadConcat(b.received, b.queue, st);
    BeginningOf(f.taken, LiveFrom(b, st), Payload(b.received, st), Payload(b.queue, st));
  }

  lemma ReplayEnds(replay: seq<Byte>, all: seq<Byte>, upTo: nat)
    requires IsPart(replay, all, upTo - |replay|)
    ensures upTo <= |all|
  {
  }

  lemma BeginningOf(all: seq<Byte>, lo: int, a: seq<Byte>, b: seq<Byte>)
    requires IsPart(a + b, all, lo)
    ensures IsPart(a, all, lo)
  {
    assert a == (a + b)[0..|a|];
    SliceSlice(all, lo, lo + |a + b|, 0, |a|);
  }

  /** What the ring copy and the live output share is at most one chunk: the first live one,
      whose bytes are then the last bytes of the replay. */
  ghost predicate SeamIsOneChunk(b: Sub, st: Stream)
    requires ViewOf(b, st).Read?
  {
    var v := ViewOf(b, st);
    var live := Payload(b.received, st);
    && 0 <= Seam(v) <= CHUNK
    && (SeamHeard(b, st) && live != [] ==>
          && Seam(v) == FirstSize(b.received, st) <= |live|
          && Last(|v.replay|, live[..Seam(v)]) == Last(Seam(v), v.replay))
  }

  /** The bytes shown, the repeated chunk taken once, are the consecutive bytes of all from position lo on. */
  ghost predicate IsStretch(b: Sub, st: Stream, all: seq<Byte>, lo: int)
    requires ViewOf(b, st).Read? && 0 <= Seam(ViewOf(b, st))
  {
    IsPart(Once(b, st), all, lo)
  }

  /** In every run, a client that missed no chunk of a stream, except perhaps the one that its replay has as well, has
      been shown one unbroken stretch of what the agent read from the pipe, apart from at most one chunk that comes
      twice where the replay meets the live output. What the channel dropped of the other stream plays no part. */
  lemma NoGap(capacity: nat, steps: seq<Step>, s: State, id: Id, st: Stream)
    requires Run(Init(capacity), steps) == Some(s) && id in s.subs
    requires var b := s.subs[id]; (b.phase.Live? || b.phase.Exited?) && ViewOf(b, st).Read? && OnlySeamMissed(b, st)
    ensures var b := s.subs[id];
            && Shown(b, st) == ViewOf(b, st).replay + Payload(b.received, st)
            && SeamIsOneChunk(b, st)
            && IsStretch(b, st, FanOf(s, st).taken, From(b, st))
  {
    hide Run, Inv, ViewInv, FanInv, Payload, SeamIsOneChunk, IsStretch, OnlySeamMissed, FirstSize, Events, KeptEvents;
    RunInv(capacity, steps, s);
    ClientFacts(s, id, st);
    ReceivedIsTaken(s, id, st);
    StretchShown(s.subs[id], st, FanOf(s, st).taken);
    SeamShown(s, id, st);
  }

  lemma StretchShown(b: Sub, st: Stream, taken: seq<Byte>)
    requires ViewOf(b, st).Read?
    requires var v := ViewOf(b, st);
             var live := Payload(b.received, st);
             && 0 <= Seam(v) && IsPart(v.replay, taken, v.upTo - |v.replay|) && IsPart(live, taken, LiveFrom(b, st))
    ensures IsStretch(b, st, taken, From(b, st))
  {
    hide Payload, SeamHeard;
    var v := ViewOf(b, st);
    var live := Payload(b.received, st);
    if SeamHeard(b, st) && Seam(v) <= |live| {
      assert live[Seam(v)..] == taken[v.upTo..v.start + |live|];
    }
  }

  lemma SeamShown(s: State, id: Id, st: Stream)
    requires Inv(s) && id in s.subs && (s.subs[id].phase.Live? || s.subs[id].phase.Exited?)
    requires ViewOf(s.subs[id], st).Read? && OnlySeamMissed(s.subs[id], st)
    ensures SeamIsOneChunk(s.subs[id], st)
  {
    hide ViewInv, FanInv, Payload, KeptEvents, Events, FirstSize, OnlySeamMissed, Last, Inv;
    var (b, f) := (s.subs[id], FanOf(s, st));
    ClientFacts(s, id, st);
    ViewParts(s.capacity, f, ViewOf(b, st), b, st);
    ReceivedIsTaken(s, id, st);
    if SeamHeard(b, st) && Payload(b.received, st) != [] {
      var i :| 0 <= i < |b.offers| && IsFirst(b.offers, st, i) && b.offers[i].kept;
      FirstSplits(b.offers, st, i);
      SeamIsFirst(b, st);
      SeamRepeats(f.taken, ViewOf(b, st), Payload(b.received, st));
    }
  }

  lemma SeamIsFirst(b: Sub, st: Stream)
    requires Payload(b.received, st) != [] && b.received + b.queue == KeptEvents(b.offers)
    requires forall o <- b.offers :: o.event.data != []
    ensures FirstSize(b.received, st) == FirstSize(KeptEvents(b.offers), st) <= |Payload(b.received, st)|
  {
    hide Payload, FirstSize, KeptEvents;
    KeptMembers(b.offers);
    forall e <- b.received
      ensures e.data != []
    {
      assert e in KeptEvents(b.offers);
    }
    FirstSizeConcat(b.received, b.queue, st);
  }

  lemma SeamRepeats(all: seq<Byte>, v: View, live: seq<Byte>)
    requires v.Read? && 0 <= Seam(v) <= |live|
    requires IsPart(live, all, v.start) && IsPart(v.replay, all, v.upTo - |v.replay|)
    ensures Last(|v.replay|, live[..Seam(v)]) == Last(Seam(v), v.replay)
  {
    assert live[..Seam(v)] == live[0..Seam(v)];
    SliceSlice(all, v.start, v.start + |live|, 0, Seam(v));
    CommonEnd(all, v.upTo - |v.replay|, v.start, v.upTo);
  }

  // ---------- A client that was told the exit code: when nothing is missing, and when nothing comes twice ----------

  /** What a client that was told the exit code received is what its channel kept, of all that came after the start. */
  lemma ExitedFacts(s: State, id: Id, st: Stream)
    requires Inv(s) && id in s.subs && s.subs[id].phase.Exited?
    ensures var (b, taken) := (s.subs[id], FanOf(s, st).taken);
            var v := ViewOf(b, st);
            && v.Read? && 0 <= Seam(v) && |v.replay| <= v.upTo <= |taken|
            && b.received == KeptEvents(b.offers) && (forall o <- b.offers :: o.event.data != [])
            && Shown(b, st) == v.replay + Payload(b.received, st)
            && v.start + |Payload(Events(b.offers), st)| == |taken|
            && (Seam(v) != 0 ==> Payload(Events(b.offers), st) != [] && Seam(v) == FirstSize(Events(b.offers), st))
  {
    hide ViewInv, FanInv, Payload, KeptEvents, Events, FirstSize, Last, Inv;
    var b := s.subs[id];
    ClientFacts(s, id, st);
    ViewParts(s.capacity, FanOf(s, st), ViewOf(b, st), b, st);
    assert b.received + [] == b.received;
  }

  /** The first offering of a stream that has any. */
  lemma SomeFirst(os: seq<Offering>, st: Stream) returns (i: nat)
    requires Payload(Events(os), st) != []
    ensures i < |os| && IsFirst(os, st, i)
  {
    hide Payload, Events, KeptEvents;
    KeptAtMost(os, st);
    var o :| o in os && o.event.stream == st;
    var n :| 0 <= n < |os| && os[n] == o;
    i := HasFirst(os, st, n);
  }

  /** Anything else missed makes what is shown too short. */
  lemma MissedIsShort(s: State, id: Id, st: Stream, i: nat)
    requires Inv(s) && id in s.subs && s.subs[id].phase.Exited? && i < |s.subs[id].offers|
    requires Missed(s.subs[id].offers, st, i) && ViewOf(s.subs[id], st).Read? && 0 <= Seam(ViewOf(s.subs[id], st))
    requires Seam(ViewOf(s.subs[id], st)) == 0 || !IsFirst(s.subs[id].offers, st, i)
    ensures From(s.subs[id], st) + |Once(s.subs[id], st)| < |FanOf(s, st).taken|
  {
    hide ViewInv, FanInv, Payload, KeptEvents, Events, FirstSize, Inv;
    var b := s.subs[id];
    ExitedFacts(s, id, st);
    if Seam(ViewOf(b, st)) == 0 {
      KeptFewer(b.offers, st, i);
    } else {
      var k := SomeFirst(b.offers, st);
      FirstSplits(b.offers, st, k);
      FirstDecides(b, st, k);
      var rest := b.offers[k + 1..];
      assert k < i && rest[i - k - 1] == b.offers[i];
      assert forall o <- rest :: o in b.offers;
      KeptFewer(rest, st, i - k - 1);
    }
  }

  lemma NotMissedReaches(s: State, id: Id, st: Stream)
    requires Inv(s) && id in s.subs && s.subs[id].phase.Exited?
    requires ViewOf(s.subs[id], st).Read? && 0 <= Seam(ViewOf(s.subs[id], st)) && OnlySeamMissed(s.subs[id], st)
    ensures From(s.subs[id], st) + |Once(s.subs[id], st)| == |FanOf(s, st).taken|
    ensures SeamHeard(s.subs[id], st) ==> Seam(ViewOf(s.subs[id], st)) <= |Payload(s.subs[id].received, st)|
  {
    hide ViewInv, FanInv, Payload, KeptEvents, Events, FirstSize, SeamHeard, OnlySeamMissed, Inv, Last;
    var (b, f) := (s.subs[id], FanOf(s, st));
    ClientFacts(s, id, st);
    ViewParts(s.capacity, f, ViewOf(b, st), b, st);
    ExitedFacts(s, id, st);
    KeptIsTaken(b, st, f.taken);
  }

  /** In every run, what a client that was told the exit code was shown of a stream, the repeated chunk taken once, is
      all that was read from the pipe since the replay begins, if and only if the channel dropped nothing of the stream
      but perhaps the chunk that the replay has as well. And the code is the one that the process exited with. */
  lemma ExitShowsAllIff(capacity: nat, steps: seq<Step>, s: State, id: Id, st: Stream)
    requires Run(Init(capacity), steps) == Some(s) && id in s.subs && s.subs[id].phase.Exited?
    ensures var (b, taken) := (s.subs[id], FanOf(s, st).taken);
            && ViewOf(b, st).Read? && 0 <= Seam(ViewOf(b, st)) && 0 <= From(b, st) <= |taken|
            && (Once(b, st) == taken[From(b, st)..] <==> OnlySeamMissed(b, st))
            && Some(b.phase.code) == s.exitCode == s.childExit
  {
    hide Run, Once;
    RunInv(capacity, steps, s);
    ExitShowsAll(s, id, st);
    ExitCodeTold(s, id);
  }

  lemma ExitCodeTold(s: State, id: Id)
    requires Inv(s) && id in s.subs && s.subs[id].phase.Exited?
    ensures Some(s.subs[id].phase.code) == s.exitCode == s.childExit
  {
    hide ViewInv, FanInv, KeptEvents, Events, SentInv;
    assert SubInv(s, id, s.subs[id]);
  }

  lemma ExitShowsAll(s: State, id: Id, st: Stream)
    requires Inv(s) && id in s.subs && s.subs[id].phase.Exited?
    ensures var (b, taken) := (s.subs[id], FanOf(s, st).taken);
            && ViewOf(b, st).Read? && 0 <= Seam(ViewOf(b, st)) && 0 <= From(b, st) <= |taken|
            && (Once(b, st) == taken[From(b, st)..] <==> OnlySeamMissed(b, st))
            && From(b, st) + |Once(b, st)| <= |taken|
  {
    hide Once, Inv, Payload, KeptEvents, Events, FirstSize, IsFirst, Missed;
    var (b, taken) := (s.subs[id], FanOf(s, st).taken);
    ExitedFacts(s, id, st);
    if i :| 0 <= i < |b.offers| && Missed(b.offers, st, i) && (Seam(ViewOf(b, st)) == 0 || !IsFirst(b.offers, st, i)) {
      MissedIsShort(s, id, st, i);
    } else {
      NotMissedReaches(s, id, st);
      ReceivedIsTaken(s, id, st);
      StretchShown(b, st, taken);
    }
  }

  /** Such a client that missed nothing else was shown every byte just once if and only if the seam chunk did not reach
      its channel; for a stream of which nothing was dropped, that is if and only if the seam was empty. */
  lemma ShownOnceIff(capacity: nat, steps: seq<Step>, s: State, id: Id, st: Stream)
    requires Run(Init(capacity), steps) == Some(s) && id in s.subs && s.subs[id].phase.Exited?
    requires ViewOf(s.subs[id], st).Read? && OnlySeamMissed(s.subs[id], st)
    ensures var (b, taken) := (s.subs[id], FanOf(s, st).taken);
            && 0 <= From(b, st) <= |taken|
            && (Shown(b, st) == taken[From(b, st)..] <==> !SeamHeard(b, st))
            && ((forall o <- b.offers :: o.event.stream == st ==> o.kept) ==>
                  (Shown(b, st) == taken[From(b, st)..] <==> Seam(ViewOf(b, st)) == 0))
  {
    hide Run, Inv, OnlySeamMissed, KeptEvents, Events, FirstSize, SeamHeard, Payload;
    RunInv(capacity, steps, s);
    var (b, taken) := (s.subs[id], FanOf(s, st).taken);
    ExitShowsAll(s, id, st);
    ExitedFacts(s, id, st);
    NotMissedReaches(s, id, st);
    SeamHeardMeans(b, st);
    if Seam(ViewOf(b, st)) != 0 && forall o <- b.offers :: o.event.stream == st ==> o.kept {
      var i := SomeFirst(b.offers, st);
      FirstDecides(b, st, i);
    }
  }

  lemma SeamHeardMeans(b: Sub, st: Stream)
    ensures SeamHeard(b, st) ==> ViewOf(b, st).Read? && Seam(ViewOf(b, st)) != 0
  {
  }

  /** The seam is what was in the ring buffer and not yet published when Subscribe copied: a chunk that fanOut has in
      hand between its two writes, or nothing. */
  lemma SeamAtCopy(s: State, id: Id, st: Stream)
    requires Inv(s) && Enabled(s, CopyOf(id, st))
    ensures var t := Next(s, CopyOf(id, st));
            && id in t.subs && ViewOf(t.subs[id], st).Read?
            && Seam(ViewOf(t.subs[id], st)) == if FanOf(s, st).stage.Ringed? then |FanOf(s, st).stage.chunk| else 0
  {
    hide Payload, KeptEvents, FirstSize, Last, SentInv, Next, FanInv, ViewInv;
    var b := s.subs[id];
    CopyIs(s, id, st);
    assert SubInv(s, id, b) && b.phase == Locked;
    assert Events(b.offers) == [];
    CopyMeets(s.capacity, FanOf(s, st), ViewOf(b, st), st, b);
  }

  lemma CopyIs(s: State, id: Id, st: Stream)
    requires Enabled(s, CopyOf(id, st))
    ensures var t := Next(s, CopyOf(id, st));
            && id in s.subs && s.lock == Some(id) && ViewOf(s.subs[id], st).Unread? && id in t.subs
            && ViewOf(t.subs[id], st) ==
               Read(ViewOf(s.subs[id], st).start, |FanOf(s, st).ringed|, Last(s.capacity, FanOf(s, st).ringed))
  {
    hide Last;
  }

  function CopyOf(id: Id, st: Stream): Step {
    if st == Stdout then CopyOut(id) else CopyErr(id)
  }

  lemma CopyMeets(capacity: nat, f: Fan, v: View, st: Stream, b: Sub)
    requires FanInv(f) && v.Unread? && (b.listening || b.closed) && ViewInv(capacity, f, v, [], st, b)
    ensures |f.ringed| - v.start == if f.stage.Ringed? then |f.stage.chunk| else 0
  {
  }

  // ---------- cmd.Wait closes the pipes: what was still in them is lost ----------

  lemma {:induction false} CutFreezes(s: State, steps: seq<Step>, st: Stream)
    requires Run(s, steps).Some? && FanOf(s, st).cut
    ensures var t := Run(s, steps).value;
            FanOf(t, st).taken == FanOf(s, st).taken && FanOf(t, st).written == FanOf(s, st).written
    decreases |steps|
  {
    if steps != [] {
      CutFreezes(Next(s, steps[0]), steps[1..], st);
    }
  }

  /** The agent reads all that the process writes exactly when the pipe is empty at the moment cmd.Wait returns. */
  lemma AllReadIff(s: State, steps: seq<Step>, t: State, st: Stream)
    requires Enabled(s, WaitReturns) && Run(Next(s, WaitReturns), steps) == Some(t)
    ensures FanOf(t, st).taken == FanOf(t, st).written <==> FanOf(s, st).taken == FanOf(s, st).written
  {
    CutFreezes(Next(s, WaitReturns), steps, st);
  }

  /** From the process to the client: what a client that was told the exit code was shown reaches to the end of what the
      process wrote if and only if the client missed nothing else and the pipe was empty when cmd.Wait returned. */
  lemma ExitShowsWrittenIff(capacity: nat, before: seq<Step>, s: State, after': seq<Step>, t: State, id: Id, st: Stream)
    requires Run(Init(capacity), before) == Some(s) && Enabled(s, WaitReturns)
    requires Run(Next(s, WaitReturns), after') == Some(t) && id in t.subs && t.subs[id].phase.Exited?
    ensures var (b, written) := (t.subs[id], FanOf(t, st).written);
            && ViewOf(b, st).Read? && 0 <= Seam(ViewOf(b, st)) && 0 <= From(b, st) <= |written|
            && (Once(b, st) == written[From(b, st)..] <==>
                OnlySeamMissed(b, st) && FanOf(s, st).taken == FanOf(s, st).written)
  {
    hide Run, Inv, Next, Enabled, OnlySeamMissed, Once;
    RunInv(capacity, before, s);
    StepKeeps(s, WaitReturns);
    RunKeeps(Next(s, WaitReturns), after');
    ExitShowsAll(t, id, st);
    AllReadIff(s, after', t, st);
    TakenIsPrefix(t, st);
    var (b, f) := (t.subs[id], FanOf(t, st));
    if Once(b, st) == f.written[From(b, st)..] {
      assert |f.written| <= |f.taken|;
      assert f.taken == f.written;
    }
  }

  lemma TakenIsPrefix(s: State, st: Stream)
    requires Inv(s)
    ensures |FanOf(s, st).taken| <= |FanOf(s, st).written|
    ensures FanOf(s, st).taken == FanOf(s, st).written[..|FanOf(s, st).taken|]
  {
  }
}
