/** An attach session over the bridge: its messages, framed for a client connection (agent/reverse.go). */
module AttachFramings {
  import opened Bytes
  import opened Options
  import opened MainProcesses
  import opened AttachOutputs
  import Replies
  import MuxFraming

  function ReplyStream(st: Stream): Replies.Stream {
    if st == Stdout then Replies.Stdout else Replies.Stderr
  }

  /** The messages as they travel. */
  function AsReplies(es: seq<Event>): seq<Replies.Reply> {
    if es == [] then []
    else AsReplies(es[..|es| - 1]) + [Replies.Output(ReplyStream(es[|es| - 1].stream), es[|es| - 1].data)]
  }

  lemma {:induction false} RepliesPayload(es: seq<Event>, st: Stream)
    ensures Replies.Payload(AsReplies(es), ReplyStream(st)) == Payload(es, st)
  {
    if es != [] {
      var n := |es| - 1;
      RepliesPayload(es[..n], st);
      Replies.PayloadAppend(AsReplies(es[..n]), Replies.Output(ReplyStream(es[n].stream), es[n].data), ReplyStream(st));
    }
  }

  lemma {:induction false} RepliesMembers(es: seq<Event>)
    ensures forall m <- AsReplies(es) :: exists e :: e in es && m == Replies.Output(ReplyStream(e.stream), e.data)
  {
    if es != [] {
      var n := |es| - 1;
      RepliesMembers(es[..n]);
      assert es == es[..n] + [es[n]];
    }
  }

  // ---------- Sizes ----------

  function Limit(capacity: nat): nat {
    if capacity < CHUNK then CHUNK else capacity
  }

  lemma {:induction false} KeptAreOffered(os: seq<Offering>)
    ensures forall e <- KeptEvents(os) :: e in Events(os)
  {
    if os != [] {
      var n := |os| - 1;
      KeptAreOffered(os[..n]);
      assert forall e <- Events(os[..n]) :: e in Events(os);
      assert Events(os)[n] == os[n].event;
    }
  }

  lemma SentIsSmall(s: State, id: Id)
    requires Inv(s) && id in s.subs
    ensures forall e <- s.subs[id].sent :: |e.data| <= Limit(s.capacity)
  {
    hide Payload, FanInv, SeamInv, Events, KeptEvents, FirstSize;
    var b := s.subs[id];
    assert SubInv(s, id, b);
    KeptAreOffered(b.offers);
    assert forall e <- b.received :: e in Arrived(b);
    assert b.out.Read? ==> |b.out.replay| <= s.capacity;
    assert b.err.Read? ==> |b.err.replay| <= s.capacity;
  }

  lemma {:induction false} CapacityStays(s: State, steps: seq<Step>)
    requires Run(s, steps).Some?
    ensures Run(s, steps).value.capacity == s.capacity
    decreases |steps|
  {
    hide Last, PipeNext, Offer, Replay;
    if steps != [] {
      CapacityStays(Next(s, steps[0]), steps[1..]);
    }
  }

  /** In every run no message of an attach session is larger than the ring buffer or one read, whichever is more. */
  lemma AttachIsSmall(capacity: nat, steps: seq<Step>, s: State, id: Id)
    requires Run(Init(capacity), steps) == Some(s) && id in s.subs
    ensures forall e <- s.subs[id].sent :: |e.data| <= Limit(capacity)
  {
    hide Run, Inv;
    RunInv(capacity, steps, s);
    CapacityStays(Init(capacity), steps);
    SentIsSmall(s, id);
  }

  // ---------- Through the bridge ----------

  /** In every run, with ring buffers below 4 GiB: splitting the frames of whatever part of an attach session's messages
      the bridge received gives the bytes of both streams in that part. */
  lemma PartFrames(capacity: nat, steps: seq<Step>, s: State, id: Id, log: seq<Replies.Reply>)
    requires Run(Init(capacity), steps) == Some(s) && id in s.subs && capacity < MuxFraming.WORD
    requires forall m <- log :: m in AsReplies(s.subs[id].sent)
    ensures MuxFraming.Demux(MuxFraming.Frames(log)) ==
            MuxFraming.Streams(Replies.Payload(log, Replies.Stdout), Replies.Payload(log, Replies.Stderr))
  {
    hide Run, Inv, AsReplies, Replies.Payload, MuxFraming.Demux, MuxFraming.Frames;
    AttachIsSmall(capacity, steps, s, id);
    RepliesMembers(s.subs[id].sent);
    MuxFraming.DemuxFrames(log);
  }

  /** When it received all of them, that is what the client is shown. */
  lemma AttachFrames(capacity: nat, steps: seq<Step>, s: State, id: Id)
    requires Run(Init(capacity), steps) == Some(s) && id in s.subs && capacity < MuxFraming.WORD
    ensures MuxFraming.Demux(MuxFraming.Frames(AsReplies(s.subs[id].sent))) ==
            MuxFraming.Streams(Shown(s.subs[id], Stdout), Shown(s.subs[id], Stderr))
  {
    hide Run, AsReplies, MuxFraming.Demux, MuxFraming.Frames;
    PartFrames(capacity, steps, s, id, AsReplies(s.subs[id].sent));
    RepliesPayload(s.subs[id].sent, Stdout);
    RepliesPayload(s.subs[id].sent, Stderr);
  }
}
