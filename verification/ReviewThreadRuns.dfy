/** Whole histories of the review comment store, deleted comments included. */
module ReviewThreadRuns {
  import opened ReviewComments
  import opened Options

  datatype Event =
    | CreateRoot(pr: int, author: int, anchor: Anchor, body: string)
    | AddReply(pr: int, parent: int, author: int, body: string)
    | UpdateBody(id: int, body: string)
    | Delete(id: int)
    | Resolve(thread: int, flag: bool)

  /** The live comments, and every comment that was ever created. */
  datatype World = World(s: State, ever: map<int, Ident>)

  function Step(s: State, e: Event): State
    requires s.texts.Keys == s.comments.Keys
  {
    match e
    case CreateRoot(pr, author, anchor, body) => Added(s, RootOf(s, pr, author, anchor), body)
    case AddReply(pr, parent, author, body) =>
      if CanReply(s, pr, parent) then Added(s, ReplyTo(s, pr, parent, author), body) else s
    case UpdateBody(id, body) => if id in s.comments then Rewritten(s, id, s.texts[id].(body := body)) else s
    case Delete(id) => if id in s.comments then Deleted(s, id) else s
    case Resolve(thread, flag) =>
      if thread in s.comments then Rewritten(s, thread, s.texts[thread].(resolved := flag)) else s
  }

  function Creates(s: State, e: Event): Option<Ident> {
    match e
    case CreateRoot(pr, author, anchor, _) => Some(RootOf(s, pr, author, anchor))
    case AddReply(pr, parent, author, _) => if CanReply(s, pr, parent) then Some(ReplyTo(s, pr, parent, author)) else None
    case _ => None
  }

  lemma StepTexts(s: State, e: Event)
    requires s.texts.Keys == s.comments.Keys
    ensures Step(s, e).texts.Keys == Step(s, e).comments.Keys
  {
  }

  function Next(w: World, e: Event): (r: World)
    requires w.s.texts.Keys == w.s.comments.Keys
    ensures r.s.texts.Keys == r.s.comments.Keys
  {
    StepTexts(w.s, e);
    var c := Creates(w.s, e);
    World(Step(w.s, e), if c.Some? then w.ever[c.value.id := c.value] else w.ever)
  }

  function After(es: seq<Event>): (w: World)
    ensures w.s.texts.Keys == w.s.comments.Keys
  {
    if es == [] then World(EMPTY, map[]) else Next(After(es[..|es| - 1]), es[|es| - 1])
  }

  // ---------- Threads ----------

  /** The comment at the end of the chain of replies that starts at k, whether or not its members still exist. */
  function ChainEnd(ever: map<int, Ident>, k: int): int
    decreases k
  {
    if k in ever && ever[k].inReplyTo in ever && 1 <= ever[k].inReplyTo < k then ChainEnd(ever, ever[k].inReplyTo) else k
  }

  /** A comment starts a thread, or continues that of an older comment of the same pull request at the same place. */
  ghost predicate Linked(ever: map<int, Ident>, k: int)
    requires k in ever
  {
    var c := ever[k];
    && c.id == k
    && if c.inReplyTo == 0 then c.thread == k
       else
         && c.inReplyTo in ever && 1 <= c.inReplyTo < k
         && c.thread == ever[c.inReplyTo].thread
         && c.pr == ever[c.inReplyTo].pr && c.anchor == ever[c.inReplyTo].anchor
  }

  ghost predicate Threaded(w: World) {
    && w.s.next >= 1
    && (forall k :: k in w.ever <==> 1 <= k < w.s.next)
    && (forall k <- w.ever :: Linked(w.ever, k))
    && (forall k <- w.s.comments :: k in w.ever && w.s.comments[k] == w.ever[k])
  }

  /** A new comment links to a live one at most, and nothing that was linked changes. */
  lemma CreateKeeps(w: World, c: Ident, body: string)
    requires Threaded(w) && c.id == w.s.next
    requires Linked(w.ever[c.id := c], c.id)
    ensures Threaded(World(Added(w.s, c, body), w.ever[c.id := c]))
  {
    forall k <- w.ever
      ensures Linked(w.ever[c.id := c], k)
    {
      assert Linked(w.ever, k);
    }
  }

  lemma NextKeeps(w: World, e: Event)
    requires Threaded(w) && w.s.texts.Keys == w.s.comments.Keys
    ensures Threaded(Next(w, e))
  {
    match e
    case CreateRoot(pr, author, anchor, body) => CreateKeeps(w, RootOf(w.s, pr, author, anchor), body);
    case AddReply(pr, parent, author, body) =>
      if CanReply(w.s, pr, parent) {
        assert Linked(w.ever, parent);
        CreateKeeps(w, ReplyTo(w.s, pr, parent, author), body);
      }
    case _ =>
  }

  lemma {:induction false} AlwaysThreaded(es: seq<Event>)
    ensures Threaded(After(es))
  {
    hide Threaded, Next;
    if es == [] {
      StartThreaded();
    } else {
      AlwaysThreaded(es[..|es| - 1]);
      NextKeeps(After(es[..|es| - 1]), es[|es| - 1]);
    }
  }

  lemma StartThreaded()
    ensures Threaded(World(EMPTY, map[]))
  {
  }

  lemma {:induction false} ChainSame(w: World, k: int)
    requires Threaded(w) && k in w.ever
    ensures var root := ChainEnd(w.ever, k);
            && root in w.ever && w.ever[root].inReplyTo == 0 && w.ever[k].thread == root
            && w.ever[k].pr == w.ever[root].pr && w.ever[k].anchor == w.ever[root].anchor
    decreases k
  {
    assert Linked(w.ever, k);
    if w.ever[k].inReplyTo != 0 {
      ChainSame(w, w.ever[k].inReplyTo);
    }
  }

  /** Whatever was deleted meanwhile, the thread id of a comment is the end of its chain of replies, and all comments
      of a thread belong to one pull request and one place of its diff. */
  lemma ThreadIsChainEnd(es: seq<Event>, k: int)
    requires k in After(es).ever
    ensures var ever := After(es).ever;
            var root := ChainEnd(ever, k);
            && root in ever && ever[root].inReplyTo == 0 && ever[k].thread == root
            && ever[k].pr == ever[root].pr && ever[k].anchor == ever[root].anchor
  {
    hide After, Threaded;
    AlwaysThreaded(es);
    ChainSame(After(es), k);
  }

  /** The comments that a listing of threads shows under t: all live comments whose chain ends at t, oldest first;
      and they show in the listing of t's pull request and in no other. */
  lemma ThreadListed(es: seq<Event>, pr: int, t: int)
    ensures var s := After(es).s;
            var ids := Listing(s.comments, s.next, pr);
            && (forall k <- ids :: k in s.comments)
            && Increasing(OfThread(s.comments, ids, t))
            && forall k :: k in OfThread(s.comments, ids, t) <==>
                 k in s.comments && s.comments[k].pr == pr && ChainEnd(After(es).ever, k) == t
    ensures var (s, ever) := (After(es).s, After(es).ever);
            forall k :: k in s.comments && ChainEnd(ever, k) == t ==> t in ever && s.comments[k].pr == ever[t].pr
  {
    hide After, Threaded, ChainEnd, Listing, OfThread, Increasing;
    var w := After(es);
    var ids := Listing(w.s.comments, w.s.next, pr);
    ListingExact(w.s.comments, w.s.next, pr);
    OfThreadExact(w.s.comments, ids, t);
    AlwaysThreaded(es);
    forall k <- w.s.comments
      ensures k in w.ever && w.s.comments[k] == w.ever[k] && 1 <= k < w.s.next
      ensures ThreadOf(w.s.comments[k]) == ChainEnd(w.ever, k)
      ensures ChainEnd(w.ever, k) in w.ever && w.ever[ChainEnd(w.ever, k)].pr == w.s.comments[k].pr
    {
      LiveEver(w, k);
      ChainSame(w, k);
    }
  }

  lemma LiveEver(w: World, k: int)
    requires Threaded(w) && k in w.s.comments
    ensures k in w.ever && w.s.comments[k] == w.ever[k] && 1 <= k < w.s.next && w.ever[k].id == k
    ensures ThreadOf(w.ever[k]) == ChainEnd(w.ever, k)
  {
    assert Linked(w.ever, k);
    ChainSame(w, k);
  }

  // ---------- What a comment is created with ----------

  lemma EverNext(w: World, e: Event)
    requires Threaded(w) && w.s.texts.Keys == w.s.comments.Keys
    ensures forall k <- w.ever :: k in Next(w, e).ever && Next(w, e).ever[k] == w.ever[k]
  {
  }

  /** What was fixed about a comment when it was created never changes, even when it is deleted. */
  lemma {:induction false} EverStays(es: seq<Event>, n: nat, k: int)
    requires n <= |es| && k in After(es[..n]).ever
    ensures k in After(es).ever && After(es).ever[k] == After(es[..n]).ever[k]
    decreases |es|
  {
    hide After, Threaded, Next;
    if n == |es| {
      assert es[..n] == es;
    } else {
      var front, e := es[..|es| - 1], es[|es| - 1];
      assert es == front + [e] && front[..n] == es[..n];
      EverStays(front, n, k);
      AlwaysThreaded(front);
      AfterLast(front, e);
      EverNext(After(front), e);
    }
  }

  /** c is a new thread of that pull request and author: on the right side unless a side was given, and with those of the
      two line numbers that are positive. */
  predicate StartsThread(c: Ident, k: int, e: Event)
    requires e.CreateRoot?
  {
    && c.id == k && c.thread == k && c.inReplyTo == 0 && c.pr == e.pr && c.author == e.author
    && c.anchor.path == e.anchor.path && c.anchor.commit == e.anchor.commit
    && (e.anchor.side == "" ==> c.anchor.side == "RIGHT") && (e.anchor.side != "" ==> c.anchor.side == e.anchor.side)
    && (e.anchor.line > 0 ==> c.anchor.line == e.anchor.line) && (e.anchor.line <= 0 ==> c.anchor.line == 0)
    && (e.anchor.startLine > 0 ==> c.anchor.startLine == e.anchor.startLine)
    && (e.anchor.startLine <= 0 ==> c.anchor.startLine == 0)
  }

  /** In every history, for the event at n: a root comment is as asked for, a reply has its author and the place and thread
      of its parent, if that was live and of the pull request, and otherwise nothing changed; and so it stays. */
  lemma CommentAsAsked(es: seq<Event>, n: nat)
    requires n < |es|
    ensures var (w, e, ever) := (After(es[..n]), es[n], After(es).ever);
            var k := w.s.next;
            && (e.CreateRoot? ==> k in ever && StartsThread(ever[k], k, e))
            && (e.AddReply? ==>
                  if e.parent in w.s.comments && w.s.comments[e.parent].pr == e.pr then
                    && k in ever && e.parent in ever
                    && ever[k] == Ident(k, e.pr, e.parent, ever[e.parent].anchor, e.author, ever[e.parent].thread)
                  else After(es[..n + 1]) == w)
  {
    hide After, Threaded;
    var (w, e) := (After(es[..n]), es[n]);
    assert es[..n + 1] == es[..n] + [e];
    AfterLast(es[..n], e);
    AlwaysThreaded(es[..n]);
    if e.CreateRoot? {
      EverStays(es, n + 1, w.s.next);
    } else if e.AddReply? && CanReply(w.s, e.pr, e.parent) {
      LiveEver(w, e.parent);
      EverStays(es, n + 1, w.s.next);
      EverStays(es, n, e.parent);
    }
  }

  /** The text given when the comment was created, or by the last call that found it live. */
  function LastBody(es: seq<Event>, k: int): string {
    if es == [] then ""
    else
      var (s, e) := (After(es[..|es| - 1]).s, es[|es| - 1]);
      var created := match e
                     case CreateRoot(_, _, _, _) => true
                     case AddReply(pr, parent, _, _) => parent in s.comments && s.comments[parent].pr == pr
                     case _ => false;
      if created && k == s.next then e.body
      else if e.UpdateBody? && e.id == k && k in s.comments then e.body
      else LastBody(es[..|es| - 1], k)
  }

  lemma LastBodyNext(front: seq<Event>, e: Event, k: int)
    ensures var s := After(front).s;
            LastBody(front + [e], k) ==
            if k == s.next && (e.CreateRoot? || (e.AddReply? && e.parent in s.comments && s.comments[e.parent].pr == e.pr))
            then e.body
            else if e.UpdateBody? && e.id == k && k in s.comments then e.body
            else LastBody(front, k)
  {
    hide After;
    assert (front + [e])[..|front|] == front;
  }

  /** A live comment has that text. */
  lemma {:induction false} BodyIsLast(es: seq<Event>, k: int)
    ensures k in After(es).s.comments ==> After(es).s.texts[k].body == LastBody(es, k)
  {
    hide Threaded, After, LastBody;
    if es == [] {
      Start();
    } else {
      var front, e := es[..|es| - 1], es[|es| - 1];
      assert es == front + [e];
      BodyIsLast(front, k);
      AlwaysThreaded(front);
      AfterLast(front, e);
      LastBodyNext(front, e, k);
      if k in After(front).s.comments {
        LiveEver(After(front), k);
      }
    }
  }

  // ---------- The resolved flag ----------

  /** What the last successful call for this comment asked for. */
  function LastFlag(es: seq<Event>, k: int): bool {
    if es == [] then false
    else
      var front, e := es[..|es| - 1], es[|es| - 1];
      if e.Resolve? && e.thread == k && k in After(front).s.comments then e.flag else LastFlag(front, k)
  }

  /** The flag of a live comment is the last one set; comments that do not exist yet have none. */
  lemma {:induction false} FlagIsLast(es: seq<Event>, k: int)
    ensures k in After(es).s.comments ==> After(es).s.texts[k].resolved == LastFlag(es, k)
    ensures k >= After(es).s.next ==> !LastFlag(es, k)
  {
    hide Threaded, After, LastFlag;
    if es == [] {
      Start();
    } else {
      var front, e := es[..|es| - 1], es[|es| - 1];
      assert es == front + [e];
      FlagIsLast(front, k);
      AlwaysThreaded(front);
      AfterLast(front, e);
      if k in After(front).s.comments {
        LiveEver(After(front), k);
      }
    }
  }

  lemma AfterLast(front: seq<Event>, e: Event)
    ensures After(front + [e]) == Next(After(front), e)
    ensures forall k :: LastFlag(front + [e], k) ==
              if e.Resolve? && e.thread == k && k in After(front).s.comments then e.flag else LastFlag(front, k)
  {
    assert (front + [e])[..|front|] == front;
  }

  /** A comment that was deleted never comes back. */
  lemma {:induction false} DeletedStaysDeleted(es: seq<Event>, more: seq<Event>, k: int)
    requires k in After(es).ever && k !in After(es).s.comments
    ensures k in After(es + more).ever && k !in After(es + more).s.comments
    decreases |more|
  {
    hide After, Threaded;
    if more == [] {
      assert es + more == es;
    } else {
      var front, e := more[..|more| - 1], more[|more| - 1];
      DeletedStaysDeleted(es, front, k);
      AlwaysThreaded(es + front);
      EverBelowNext(After(es + front), k);
      assert es + more == (es + front) + [e];
      AfterLast(es + front, e);
    }
  }

  lemma EverBelowNext(w: World, k: int)
    requires Threaded(w) && k in w.ever
    ensures 1 <= k < w.s.next
  {
  }

  /** A thread is listed with the flag last asked for if and only if its root is still there, or the flag was not set. */
  lemma FlagListedIff(es: seq<Event>, t: int)
    ensures ListedFlag(After(es).s, t) == LastFlag(es, t) <==> t in After(es).s.comments || !LastFlag(es, t)
  {
    hide After, LastFlag;
    FlagIsLast(es, t);
  }

  /** A thread whose root was deleted can keep its replies, but loses its resolution: here one that was resolved is
      still listed, with its reply, as unresolved; and whatever happens later, it is never listed as resolved again. */
  lemma ResolvedLost(pr: int, anchor: Anchor, more: seq<Event>)
    ensures var es := [CreateRoot(pr, 1, anchor, "a"), AddReply(pr, 1, 2, "b"), Resolve(1, true), Delete(1)];
            var s := After(es).s;
            && LastFlag(es, 1) && !ListedFlag(s, 1)
            && (forall k <- Listing(s.comments, s.next, pr) :: k in s.comments)
            && 2 in OfThread(s.comments, Listing(s.comments, s.next, pr), 1)
            && !ListedFlag(After(es + more).s, 1)
  {
    hide After, LastFlag, Listing, OfThread, ChainEnd;
    var e1, e2, e3, e4 := CreateRoot(pr, 1, anchor, "a"), AddReply(pr, 1, 2, "b"), Resolve(1, true), Delete(1);
    Start();
    AfterLast([], e1);
    AfterLast([] + [e1], e2);
    AfterLast([] + [e1] + [e2], e3);
    AfterLast([] + [e1] + [e2] + [e3], e4);
    var es := [] + [e1] + [e2] + [e3] + [e4];
    assert es == [e1, e2, e3, e4];
    AlwaysThreaded(es);
    LiveEver(After(es), 2);
    ThreadListed(es, pr, 1);
    DeletedStaysDeleted(es, more, 1);
  }

  lemma Start()
    ensures After([]) == World(EMPTY, map[]) && forall k :: !LastFlag([], k)
  {
  }
}
