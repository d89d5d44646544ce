/** Inline review comments of pull requests and their threads (bleephub/gh_pr_comments.go). */
module ReviewComments {
  import opened IntKeys
  import opened Options

  /** Where a comment sits in the diff: copied from the parent into every reply. */
  datatype Anchor = Anchor(path: string, commit: string, side: string, line: int, startLine: int)

  /** What never changes about a comment. inReplyTo is 0 for a comment that starts a thread. */
  datatype Ident = Ident(id: int, pr: int, inReplyTo: int, anchor: Anchor, author: int, thread: int)

  datatype Text = Text(body: string, resolved: bool)

  /** The live comments. */
  datatype State = State(comments: map<int, Ident>, texts: map<int, Text>, next: int)

  const EMPTY := State(map[], map[], 1)

  // ---------- The operations on live comments ----------

  function Added(s: State, c: Ident, body: string): State {
    State(s.comments[c.id := c], s.texts[c.id := Text(body, false)], s.next + 1)
  }

  function RootOf(s: State, pr: int, author: int, anchor: Anchor): Ident {
    var side := if anchor.side == "" then "RIGHT" else anchor.side;
    var line := if anchor.line > 0 then anchor.line else 0;
    var startLine := if anchor.startLine > 0 then anchor.startLine else 0;
    Ident(s.next, pr, 0, Anchor(anchor.path, anchor.commit, side, line, startLine), author, s.next)
  }

  predicate CanReply(s: State, pr: int, parent: int) {
    parent in s.comments && s.comments[parent].pr == pr
  }

  function ReplyTo(s: State, pr: int, parent: int, author: int): Ident
    requires CanReply(s, pr, parent)
  {
    var p := s.comments[parent];
    Ident(s.next, pr, parent, p.anchor, author, p.thread)
  }

  function Rewritten(s: State, id: int, t: Text): State {
    s.(texts := s.texts[id := t])
  }

  function Deleted(s: State, id: int): State {
    State(s.comments - {id}, s.texts - {id}, s.next)
  }

  /** The flag that a listing shows for a thread: that of its root, if the root is still there. */
  function ListedFlag(s: State, thread: int): bool {
    thread in s.comments && thread in s.texts && s.texts[thread].resolved
  }

  // ---------- What a pull request lists ----------

  /** The live comments below id n of one pull request, by id. */
  function Listing(comments: map<int, Ident>, n: int, pr: int): seq<int> {
    if n <= 1 then []
    else
      Listing(comments, n - 1, pr) + if n - 1 in comments && comments[n - 1].pr == pr then [n - 1] else []
  }

  /** The thread that a listing puts a comment in. */
  function ThreadOf(c: Ident): int {
    if c.thread == 0 then c.id else c.thread
  }

  function OfThread(comments: map<int, Ident>, ids: seq<int>, thread: int): seq<int>
    requires forall k <- ids :: k in comments
  {
    if ids == [] then []
    else
      var last := ids[|ids| - 1];
      OfThread(comments, ids[..|ids| - 1], thread) + if ThreadOf(comments[last]) == thread then [last] else []
  }

  ghost predicate Increasing(ids: seq<int>) {
    forall i, j :: 0 <= i < j < |ids| ==> ids[i] < ids[j]
  }

  lemma IncreasingLast(ids: seq<int>, last: int)
    requires Increasing(ids) && forall k <- ids :: k < last
    ensures Increasing(ids + [last])
  {
    assert forall i :: 0 <= i < |ids| ==> ids[i] in ids;
  }

  /** A listing has exactly the live comments of the pull request, by increasing id. */
  lemma {:induction false} ListingExact(comments: map<int, Ident>, n: int, pr: int)
    ensures Increasing(Listing(comments, n, pr))
    ensures forall k :: k in Listing(comments, n, pr) <==> 1 <= k < n && k in comments && comments[k].pr == pr
  {
    if n > 1 {
      ListingExact(comments, n - 1, pr);
      IncreasingLast(Listing(comments, n - 1, pr), n - 1);
      assert Listing(comments, n - 1, pr) + [] == Listing(comments, n - 1, pr);
    }
  }

  lemma {:induction false} OfThreadExact(comments: map<int, Ident>, ids: seq<int>, thread: int)
    requires Increasing(ids) && forall k <- ids :: k in comments
    ensures Increasing(OfThread(comments, ids, thread))
    ensures forall k :: k in OfThread(comments, ids, thread) <==> k in ids && ThreadOf(comments[k]) == thread
  {
    if ids != [] {
      var n := |ids| - 1;
      OfThreadExact(comments, ids[..n], thread);
      assert ids == ids[..n] + [ids[n]];
      assert forall k <- ids[..n] :: k < ids[n];
      var front := OfThread(comments, ids[..n], thread);
      IncreasingLast(front, ids[n]);
      assert front + [] == front;
    }
  }

  lemma {:induction false} ListingGrows(comments: map<int, Ident>, n: int, c: Ident, pr: int)
    requires n <= c.id
    ensures Listing(comments[c.id := c], n, pr) == Listing(comments, n, pr)
  {
    if n > 1 {
      ListingGrows(comments, n - 1, c, pr);
    }
  }

  function Without(ids: seq<int>, id: int): seq<int> {
    if ids == [] then []
    else if ids[|ids| - 1] == id then ids[..|ids| - 1]
    else Without(ids[..|ids| - 1], id) + [ids[|ids| - 1]]
  }

  lemma ListingNone(comments: map<int, Ident>, n: int, pr: int)
    requires n <= 1
    ensures Listing(comments, n, pr) == []
  {
  }

  lemma ListingLast(comments: map<int, Ident>, n: int, pr: int)
    requires n > 1
    ensures Listing(comments, n, pr) ==
            if n - 1 in comments && comments[n - 1].pr == pr then Listing(comments, n - 1, pr) + [n - 1]
            else Listing(comments, n - 1, pr)
  {
  }

  lemma WithoutLast(ids: seq<int>, last: int, id: int)
    ensures Without(ids + [last], id) == if last == id then ids else Without(ids, id) + [last]
  {
    assert (ids + [last])[..|ids|] == ids;
  }

  lemma {:induction false} ListingShrinks(comments: map<int, Ident>, n: int, id: int, pr: int)
    ensures Listing(comments - {id}, n, pr) == Without(Listing(comments, n, pr), id)
  {
    hide Listing, Without;
    if n <= 1 {
      ListingNone(comments, n, pr);
      ListingNone(comments - {id}, n, pr);
      WithoutNone([], id);
    } else {
      var front := Listing(comments, n - 1, pr);
      ListingShrinks(comments, n - 1, id, pr);
      ListingLast(comments, n, pr);
      ListingLast(comments - {id}, n, pr);
      WithoutLast(front, n - 1, id);
      if id == n - 1 {
        ListingExact(comments, n - 1, pr);
        WithoutNone(front, id);
      }
    }
  }

  lemma {:induction false} WithoutNone(ids: seq<int>, id: int)
    requires id !in ids
    ensures Without(ids, id) == ids
  {
    if ids != [] {
      WithoutNone(ids[..|ids| - 1], id);
    }
  }

  lemma {:induction false} WithoutAt(ids: seq<int>, i: nat)
    requires Increasing(ids) && i < |ids|
    ensures Without(ids, ids[i]) == ids[..i] + ids[i + 1..]
  {
    var n := |ids| - 1;
    if i < n {
      WithoutAt(ids[..n], i);
      assert ids[..n][..i] == ids[..i];
      assert ids[..i] + ids[i + 1..] == (ids[..n][..i] + ids[..n][i + 1..]) + [ids[n]];
    }
  }

  // ---------- The store ----------

  class ReviewComment {
    const ident: Ident
    var body: string
    var resolved: bool

    constructor (ident: Ident, body: string)
      ensures this.ident == ident && this.body == body && !resolved
    {
      this.ident := ident;
      this.body := body;
      resolved := false;
    }
  }

  datatype Thread = Thread(id: int, resolved: bool, comments: seq<ReviewComment>)

  function Ids(cs: seq<ReviewComment>): (ids: seq<int>)
    ensures |ids| == |cs| && forall i :: 0 <= i < |cs| ==> ids[i] == cs[i].ident.id
  {
    seq(|cs|, i requires 0 <= i < |cs| => cs[i].ident.id)
  }

  function Idents(byID: map<int, ReviewComment>): map<int, Ident> {
    map k | k in byID :: byID[k].ident
  }

  function OfPR(byPR: map<int, seq<ReviewComment>>, pr: int): seq<ReviewComment> {
    if pr in byPR then byPR[pr] else []
  }

  /** A list of the same objects that byID has, and exactly those of the pull request, by id. */
  ghost predicate IsIndex(byID: map<int, ReviewComment>, list: seq<ReviewComment>, next: int, pr: int) {
    && Ids(list) == Listing(Idents(byID), next, pr)
    && forall c <- list :: c.ident.id in byID && byID[c.ident.id] == c
  }

  ghost predicate Numbered(byID: map<int, ReviewComment>, next: int) {
    next >= 1 && forall k <- byID :: 1 <= k < next && byID[k].ident.id == k
  }

  ghost predicate Rooted(byID: map<int, ReviewComment>, threadRoots: map<int, int>) {
    threadRoots.Keys == byID.Keys && forall k <- byID :: threadRoots[k] == byID[k].ident.thread
  }

  ghost predicate Indexed(byID: map<int, ReviewComment>, byPR: map<int, seq<ReviewComment>>, next: int) {
    forall pr :: IsIndex(byID, OfPR(byPR, pr), next, pr)
  }

  lemma AddIndexed(byID: map<int, ReviewComment>, list: seq<ReviewComment>, next: int, c: ReviewComment, pr: int)
    requires IsIndex(byID, list, next, pr) && Numbered(byID, next) && c.ident.id == next
    ensures IsIndex(byID[next := c], list + if c.ident.pr == pr then [c] else [], next + 1, pr)
  {
    hide Listing;
    var list' := list + if c.ident.pr == pr then [c] else [];
    assert Idents(byID[next := c]) == Idents(byID)[next := c.ident];
    ListingGrows(Idents(byID), next, c.ident, pr);
    ListingLast(Idents(byID)[next := c.ident], next + 1, pr);
    assert Ids(list') == Ids(list) + if c.ident.pr == pr then [next] else [];
  }

  lemma AddRooted(byID: map<int, ReviewComment>, threadRoots: map<int, int>, c: ReviewComment)
    requires Rooted(byID, threadRoots)
    ensures Rooted(byID[c.ident.id := c], threadRoots[c.ident.id := c.ident.thread])
  {
  }

  lemma AddIdents(byID: map<int, ReviewComment>, c: ReviewComment)
    ensures Idents(byID[c.ident.id := c]) == Idents(byID)[c.ident.id := c.ident]
  {
  }

  lemma AddKeeps(byID: map<int, ReviewComment>, byPR: map<int, seq<ReviewComment>>, next: int, c: ReviewComment)
    requires Indexed(byID, byPR, next) && Numbered(byID, next) && c.ident.id == next
    ensures Indexed(byID[next := c], byPR[c.ident.pr := OfPR(byPR, c.ident.pr) + [c]], next + 1)
    ensures Numbered(byID[next := c], next + 1)
  {
    hide IsIndex;
    var byPR' := byPR[c.ident.pr := OfPR(byPR, c.ident.pr) + [c]];
    forall pr
      ensures IsIndex(byID[next := c], OfPR(byPR', pr), next + 1, pr)
    {
      AddIndexed(byID, OfPR(byPR, pr), next, c, pr);
      assert OfPR(byPR, pr) + [] == OfPR(byPR, pr);
    }
  }

  lemma DeleteIndexed(byID: map<int, ReviewComment>, list: seq<ReviewComment>, next: int, id: int, pr: int, i: nat)
    requires IsIndex(byID, list, next, pr) && id in byID && i < |list| && list[i].ident.id == id
    ensures IsIndex(byID - {id}, list[..i] + list[i + 1..], next, pr)
  {
    hide Listing, Without, Increasing;
    var list' := list[..i] + list[i + 1..];
    assert Idents(byID - {id}) == Idents(byID) - {id};
    ListingShrinks(Idents(byID), next, id, pr);
    ListingExact(Idents(byID), next, pr);
    WithoutAt(Ids(list), i);
    assert Ids(list') == Ids(list)[..i] + Ids(list)[i + 1..];
    CutOut(list, i);
    assert forall c <- list' :: c in list;
  }

  lemma CutOut(list: seq<ReviewComment>, i: nat)
    requires Increasing(Ids(list)) && i < |list|
    ensures forall c <- list[..i] + list[i + 1..] :: c.ident.id != list[i].ident.id
  {
    var ids := Ids(list);
    assert forall j :: 0 <= j < |list| && j != i ==> ids[j] != ids[i];
  }

  lemma DeleteElsewhere(byID: map<int, ReviewComment>, list: seq<ReviewComment>, next: int, id: int, pr: int)
    requires IsIndex(byID, list, next, pr) && id in byID && byID[id].ident.pr != pr
    ensures IsIndex(byID - {id}, list, next, pr)
  {
    hide Listing, Without, Increasing;
    assert Idents(byID - {id}) == Idents(byID) - {id};
    ListingShrinks(Idents(byID), next, id, pr);
    ListingExact(Idents(byID), next, pr);
    WithoutNone(Listing(Idents(byID), next, pr), id);
    forall c <- list
      ensures c.ident.id != id
    {
      var j :| 0 <= j < |list| && list[j] == c;
      assert Ids(list)[j] in Listing(Idents(byID), next, pr);
    }
  }

  /** A live comment is in its pull request's list. */
  lemma Listed(byID: map<int, ReviewComment>, list: seq<ReviewComment>, next: int, id: int) returns (i: nat)
    requires Numbered(byID, next) && id in byID && IsIndex(byID, list, next, byID[id].ident.pr)
    ensures i < |list| && list[i].ident.id == id
  {
    hide Listing;
    ListingExact(Idents(byID), next, byID[id].ident.pr);
    assert id in Ids(list);
    i :| 0 <= i < |list| && Ids(list)[i] == id;
  }

  // ---------- Grouping by thread ----------

  function InThread(cs: seq<ReviewComment>, thread: int): seq<ReviewComment> {
    if cs == [] then []
    else
      var last := cs[|cs| - 1];
      InThread(cs[..|cs| - 1], thread) + if ThreadOf(last.ident) == thread then [last] else []
  }

  lemma InThreadLast(cs: seq<ReviewComment>, c: ReviewComment, thread: int)
    ensures InThread(cs + [c], thread) ==
            if ThreadOf(c.ident) == thread then InThread(cs, thread) + [c] else InThread(cs, thread)
  {
    assert (cs + [c])[..|cs|] == cs;
  }

  /** The map of threads after some comments: one entry for each thread met, with its comments in order. */
  ghost predicate Grouped(cs: seq<ReviewComment>, threads: map<int, Thread>) {
    && (forall t :: t in threads <==> InThread(cs, t) != [])
    && forall t <- threads :: threads[t].id == t && threads[t].comments == InThread(cs, t)
  }

  lemma GroupedNext(cs: seq<ReviewComment>, threads: map<int, Thread>, c: ReviewComment, t: Thread)
    requires Grouped(cs, threads) && t.id == ThreadOf(c.ident)
    requires t.comments == (if t.id in threads then threads[t.id].comments else []) + [c]
    ensures Grouped(cs + [c], threads[t.id := t])
  {
    hide InThread;
    forall u
      ensures InThread(cs + [c], u) == if u == t.id then t.comments else InThread(cs, u)
    {
      InThreadLast(cs, c, u);
    }
  }

  /** Grouping objects is grouping ids. */
  lemma {:induction false} InThreadIds(byID: map<int, ReviewComment>, cs: seq<ReviewComment>, thread: int)
    requires forall c <- cs :: c.ident.id in byID && byID[c.ident.id] == c
    ensures forall k <- Ids(cs) :: k in Idents(byID)
    ensures Ids(InThread(cs, thread)) == OfThread(Idents(byID), Ids(cs), thread)
    ensures forall c <- InThread(cs, thread) :: c in cs
  {
    if cs != [] {
      var n := |cs| - 1;
      InThreadIds(byID, cs[..n], thread);
      assert Ids(cs)[..n] == Ids(cs[..n]);
      assert Ids(InThread(cs, thread)) ==
             Ids(InThread(cs[..n], thread)) + if ThreadOf(cs[n].ident) == thread then [cs[n].ident.id] else [];
    }
  }

  /** byID and byPR hold the same objects: what is changed through one shows through the other. */
  class PRReviewCommentStore {
    var byID: map<int, ReviewComment>
    var byPR: map<int, seq<ReviewComment>>
    var threadRoots: map<int, int>
    var nextID: int

    ghost function Contents(): State
      reads this, byID.Values
    {
      State(Idents(byID), map k | k in byID :: Text(byID[k].body, byID[k].resolved), nextID)
    }

    ghost predicate Valid()
      reads this
    {
      Numbered(byID, nextID) && Indexed(byID, byPR, nextID) && Rooted(byID, threadRoots)
    }

    constructor ()
      ensures Valid() && Contents() == EMPTY
    {
      byID, byPR, threadRoots, nextID := map[], map[], map[], 1;
    }

    /** The last steps of both ways to create a comment. */
    method Add(c: ReviewComment)
      requires Valid() && c.ident.id == nextID && !c.resolved
      modifies this
      ensures Valid() && Contents() == Added(old(Contents()), c.ident, c.body)
      ensures byID == old(byID)[c.ident.id := c]
    {
      hide Indexed, Listing, Ids, Numbered, Rooted, Idents;
      AddKeeps(byID, byPR, nextID, c);
      AddRooted(byID, threadRoots, c);
      AddIdents(byID, c);
      nextID := nextID + 1;
      byID := byID[c.ident.id := c];
      byPR := byPR[c.ident.pr := OfPR(byPR, c.ident.pr) + [c]];
      threadRoots := threadRoots[c.ident.id := c.ident.thread];
      assert Contents().texts == old(Contents()).texts[c.ident.id := Text(c.body, false)];
    }

    method CreateRootComment(pr: int, author: int, anchor: Anchor, body: string) returns (c: ReviewComment)
      requires Valid()
      modifies this
      ensures Valid() && fresh(c) && byID == old(byID)[c.ident.id := c]
      ensures c.ident == RootOf(old(Contents()), pr, author, anchor)
      ensures Contents() == Added(old(Contents()), c.ident, body)
    {
      hide Indexed, Listing, Ids;
      var side := anchor.side;
      if side == "" {
        side := "RIGHT";
      }
      var line, startLine := 0, 0;
      if anchor.line > 0 {
        line := anchor.line;
      }
      if anchor.startLine > 0 {
        startLine := anchor.startLine;
      }
      var where' := Anchor(anchor.path, anchor.commit, side, line, startLine);
      c := new ReviewComment(Ident(nextID, pr, 0, where', author, nextID), body);
      Add(c);
    }

    /** A reply goes to a live comment of the same pull request, and into that comment's thread. */
    method Reply(pr: int, parent: int, author: int, body: string) returns (r: Option<ReviewComment>)
      requires Valid()
      modifies this
      ensures Valid() && (r.Some? <==> CanReply(old(Contents()), pr, parent))
      ensures r.None? ==> Contents() == old(Contents()) && byID == old(byID)
      ensures r.Some? ==> fresh(r.value) && r.value.ident == ReplyTo(old(Contents()), pr, parent, author)
      ensures r.Some? ==> Contents() == Added(old(Contents()), r.value.ident, body) &&
                          byID == old(byID)[r.value.ident.id := r.value]
    {
      hide Indexed, Listing, Ids;
      if parent !in byID || byID[parent].ident.pr != pr {
        return None;
      }
      var root := byID[parent].ident;
      var threadRoot := parent;
      if parent in threadRoots {
        threadRoot := threadRoots[parent];
      }
      var c := new ReviewComment(Ident(nextID, pr, parent, root.anchor, author, threadRoot), body);
      Add(c);
      return Some(c);
    }

    method ListForPR(pr: int) returns (out: seq<ReviewComment>)
      requires Valid()
      ensures Ids(out) == Listing(Idents(byID), nextID, pr)
      ensures forall c <- out :: c.ident.id in byID && byID[c.ident.id] == c
    {
      assert IsIndex(byID, OfPR(byPR, pr), nextID, pr);
      return OfPR(byPR, pr);
    }

    method Update(id: int, body: string) returns (found: bool)
      requires Valid()
      modifies byID.Values
      ensures Valid() && found == (id in byID)
      ensures Contents() ==
              if found then Rewritten(old(Contents()), id, Text(body, old(byID[id].resolved))) else old(Contents())
    {
      hide Indexed, Listing, Ids;
      if id !in byID {
        return false;
      }
      var c := byID[id];
      assert forall k <- byID :: k != id ==> byID[k] != c;
      c.body := body;
      assert Contents().texts == old(Contents()).texts[id := Text(body, old(c.resolved))];
      return true;
    }

    /** Sets the flag of the comment with the thread's id, if it is still there. */
    method ResolveThread(thread: int, resolved: bool) returns (found: bool)
      requires Valid()
      modifies byID.Values
      ensures Valid() && found == (thread in byID)
      ensures Contents() ==
              if found then Rewritten(old(Contents()), thread, Text(old(byID[thread].body), resolved)) else old(Contents())
    {
      hide Indexed, Listing, Ids;
      if thread !in byID {
        return false;
      }
      var c := byID[thread];
      assert forall k <- byID :: k != thread ==> byID[k] != c;
      c.resolved := resolved;
      assert Contents().texts == old(Contents()).texts[thread := Text(old(c.body), resolved)];
      return true;
    }

    /** The comment leaves byID, its place in its pull request's list, and the map of thread roots. */
    method Delete(id: int) returns (found: bool)
      requires Valid()
      modifies this
      ensures Valid() && found == (id in old(byID))
      ensures Contents() == if found then Deleted(old(Contents()), id) else old(Contents())
    {
      hide Indexed, IsIndex, Listing, Ids;
      if id !in byID {
        return false;
      }
      var c := byID[id];
      ghost var before := byID;
      byID := byID - {id};
      RemoveFromList(before, c);
      threadRoots := threadRoots - {id};
      assert Idents(byID) == Idents(before) - {id};
      assert Contents().texts == old(Contents()).texts - {id};
      return true;
    }

    /** Its loop over the list of the pull request: the first comment with the id is cut out. */
    method RemoveFromList(ghost before: map<int, ReviewComment>, c: ReviewComment)
      requires Numbered(before, nextID) && Indexed(before, byPR, nextID)
      requires c.ident.id in before && before[c.ident.id] == c && byID == before - {c.ident.id}
      modifies this`byPR
      ensures Indexed(byID, byPR, nextID)
    {
      hide IsIndex, Listing, Ids;
      var id, pr := c.ident.id, c.ident.pr;
      var src := OfPR(byPR, pr);
      ghost var lists := byPR;
      ghost var at := Listed(before, src, nextID, id);
      var i := 0;
      while i < |src|
        invariant 0 <= i <= |src| && byPR == lists
        invariant forall j :: 0 <= j < i ==> src[j].ident.id != id
      {
        if src[i].ident.id == id {
          DeleteIndexed(before, src, nextID, id, pr, i);
          byPR := byPR[pr := src[..i] + src[i + 1..]];
          break;
        }
        i := i + 1;
      }
      assert i < |src| by {
        assert src[at].ident.id == id;
      }
      forall p
        ensures IsIndex(byID, OfPR(byPR, p), nextID, p)
      {
        if p != pr {
          DeleteElsewhere(before, OfPR(lists, p), nextID, id, p);
        }
      }
    }

    /** One entry for each thread with a live comment in the pull request, in any order of the entries. */
    method ListThreads(pr: int) returns (out: seq<Thread>)
      requires Valid()
      ensures forall i, j :: 0 <= i < j < |out| ==> out[i].id != out[j].id
      ensures forall k <- Listing(Idents(byID), nextID, pr) :: k in byID
      ensures forall t :: OfThread(Idents(byID), Listing(Idents(byID), nextID, pr), t) != [] <==>
                          exists i :: 0 <= i < |out| && out[i].id == t
      ensures forall t <- out ::
                && Ids(t.comments) == OfThread(Idents(byID), Listing(Idents(byID), nextID, pr), t.id)
                && (forall c <- t.comments :: c.ident.id in byID && byID[c.ident.id] == c)
                && t.resolved == ListedFlag(Contents(), t.id)
    {
      hide Listing, OfThread, InThread, Grouped, Ids, Rooted;
      assert IsIndex(byID, OfPR(byPR, pr), nextID, pr);
      var threads := Group(OfPR(byPR, pr));
      out := [];
      var todo := threads.Keys;
      while todo != {}
        invariant todo <= threads.Keys
        invariant forall i :: 0 <= i < |out| ==> out[i].id in threads && out[i].id !in todo && threads[out[i].id] == out[i]
        invariant forall t <- threads :: t in todo || exists i :: 0 <= i < |out| && out[i].id == t
        invariant forall i, j :: 0 <= i < j < |out| ==> out[i].id != out[j].id
        decreases todo
      {
        SomeKey(todo);
        var t :| t in todo;
        GroupedIds(OfPR(byPR, pr), threads);
        ghost var before := out;
        out := out + [threads[t]];
        assert out[|before|].id == t;
        assert forall i :: 0 <= i < |before| ==> out[i] == before[i];
        todo := todo - {t};
      }
      GroupsListed(byID, OfPR(byPR, pr), threads);
    }

    /** Its first loop. */
    method Group(list: seq<ReviewComment>) returns (threads: map<int, Thread>)
      requires Numbered(byID, nextID) && forall c <- list :: c.ident.id in byID && byID[c.ident.id] == c
      ensures Grouped(list, threads)
      ensures forall t <- threads :: threads[t].resolved == (t in byID && byID[t].resolved)
    {
      hide Listing, InThread, Grouped;
      threads := map[];
      NoneGrouped();
      var i := 0;
      while i < |list|
        invariant 0 <= i <= |list|
        invariant Grouped(list[..i], threads)
        invariant forall t <- threads :: threads[t].resolved == (t in byID && byID[t].resolved)
      {
        var c := list[i];
        var threadID := c.ident.thread;
        if threadID == 0 {
          threadID := c.ident.id;
        }
        GroupedIds(list[..i], threads);
        var t := Thread(threadID, false, []);
        if threadID in threads {
          t := threads[threadID];
        } else if threadID in byID {
          t := t.(resolved := byID[threadID].resolved);
        }
        t := t.(comments := t.comments + [c]);
        GroupedNext(list[..i], threads, c, t);
        assert list[..i + 1] == list[..i] + [c];
        threads := threads[threadID := t];
        i := i + 1;
      }
      assert list[..i] == list;
    }
  }

  lemma NoneGrouped()
    ensures Grouped([], map[])
  {
  }

  lemma GroupedIds(cs: seq<ReviewComment>, threads: map<int, Thread>)
    requires Grouped(cs, threads)
    ensures forall t <- threads :: threads[t].id == t
  {
  }

  lemma GroupsListed(byID: map<int, ReviewComment>, cs: seq<ReviewComment>, threads: map<int, Thread>)
    requires Grouped(cs, threads) && forall c <- cs :: c.ident.id in byID && byID[c.ident.id] == c
    ensures forall k <- Ids(cs) :: k in Idents(byID)
    ensures forall t :: t in threads <==> OfThread(Idents(byID), Ids(cs), t) != []
    ensures forall t <- threads ::
              && Ids(threads[t].comments) == OfThread(Idents(byID), Ids(cs), t)
              && forall c <- threads[t].comments :: c.ident.id in byID && byID[c.ident.id] == c
  {
    hide InThread, OfThread;
    InThreadIds(byID, cs, 0);
    forall t
      ensures Ids(InThread(cs, t)) == OfThread(Idents(byID), Ids(cs), t) && forall c <- InThread(cs, t) :: c in cs
    {
      InThreadIds(byID, cs, t);
    }
  }
}
