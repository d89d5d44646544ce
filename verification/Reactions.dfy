/** Reactions to issues, comments and releases (bleephub/gh_reactions.go). */
module Reactions {
  import opened Bytes
  import Decimal

  datatype Parent = Parent(kind: string, id: int)

  datatype Reaction = Reaction(id: int, parent: Parent, content: string, user: int)

  datatype State = State(byParent: map<string, seq<Reaction>>, byID: map<int, Reaction>, next: int)

  const EMPTY := State(map[], map[], 1)

  datatype AddResult = Invalid | Added(reaction: Reaction, existed: bool)

  /** The canonical contents. */
  const CONTENTS: seq<string> := ["+1", "-1", "laugh", "confused", "heart", "hooray", "rocket", "eyes"]

  function Key(p: Parent): string {
    p.kind + ":" + Decimal.Itoa(p.id)
  }

  /** No two parents share a key, whatever characters their kinds have. */
  lemma KeyInjective(p: Parent, q: Parent)
    requires Key(p) == Key(q)
    ensures p == q
  {
    hide Decimal.Itoa;
    Decimal.ItoaHasNoColon(p.id);
    Decimal.ItoaHasNoColon(q.id);
    ColonSplits(p.kind, Decimal.Itoa(p.id), q.kind, Decimal.Itoa(q.id));
    Decimal.ItoaInjective(p.id, q.id);
  }

  lemma ColonSplits(a: string, m: string, b: string, n: string)
    requires a + ":" + m == b + ":" + n && ':' !in m && ':' !in n
    ensures a == b && m == n
  {
    var s := a + ":" + m;
    assert s[|a|] == ':' && s[|b|] == ':';
    assert forall i :: |a| < i < |s| ==> s[i] == m[i - |a| - 1];
    assert forall i :: |b| < i < |s| ==> s[i] == n[i - |b| - 1];
    assert |a| == |b|;
    assert a == s[..|a|] == b;
    assert m == s[|a| + 1..] == n;
  }

  function ListAt(s: State, key: string): seq<Reaction> {
    if key in s.byParent then s.byParent[key] else []
  }

  predicate Exists(s: State, p: Parent, user: int, content: string) {
    exists i :: 0 <= i < |ListAt(s, Key(p))| &&
                ListAt(s, Key(p))[i].user == user && ListAt(s, Key(p))[i].content == content
  }

  function WithReaction(s: State, r: Reaction): State {
    State(s.byParent[Key(r.parent) := ListAt(s, Key(r.parent)) + [r]], s.byID[r.id := r], s.next + 1)
  }

  function Without(l: seq<Reaction>, id: int): seq<Reaction> {
    if l == [] then []
    else Without(l[..|l| - 1], id) + if l[|l| - 1].id == id then [] else [l[|l| - 1]]
  }

  function WithoutReaction(s: State, r: Reaction): State {
    State(s.byParent[Key(r.parent) := Without(ListAt(s, Key(r.parent)), r.id)], s.byID - {r.id}, s.next)
  }

  // ---------- The invariant ----------

  ghost predicate Ordered(l: seq<Reaction>) {
    forall i, j :: 0 <= i < j < |l| ==> l[i].id < l[j].id
  }

  ghost predicate OncePerUser(l: seq<Reaction>) {
    forall i, j :: 0 <= i < j < |l| ==> l[i].user != l[j].user || l[i].content != l[j].content
  }

  /** A list holds what byID holds, for its own key, by increasing id, and no user's reaction twice. */
  ghost predicate ProperList(s: State, key: string, l: seq<Reaction>) {
    && (forall r <- l :: r.id in s.byID && s.byID[r.id] == r && Key(r.parent) == key)
    && Ordered(l) && OncePerUser(l)
  }

  ghost predicate Listed(s: State, r: Reaction) {
    r in ListAt(s, Key(r.parent))
  }

  ghost predicate Good(s: State) {
    && s.next >= 1
    && (forall k <- s.byID :: 1 <= k < s.next && s.byID[k].id == k && s.byID[k].content in CONTENTS && Listed(s, s.byID[k]))
    && (forall key :: ProperList(s, key, ListAt(s, key)))
  }

  lemma AddProper(s: State, r: Reaction, key: string)
    requires ProperList(s, key, ListAt(s, key)) && forall k <- s.byID :: k < r.id
    requires !Exists(s, r.parent, r.user, r.content)
    ensures ProperList(WithReaction(s, r), key, ListAt(WithReaction(s, r), key))
  {
    hide Key;
    hide Ordered, OncePerUser;
    var l := ListAt(s, key);
    if key == Key(r.parent) {
      assert forall q <- l :: q.id < r.id;
      forall q <- l
        ensures q.user != r.user || q.content != r.content
      {
        var i :| 0 <= i < |l| && l[i] == q;
      }
      OneMore(l, r);
    }
  }

  lemma OneMore(l: seq<Reaction>, r: Reaction)
    requires Ordered(l) && OncePerUser(l)
    requires forall q <- l :: q.id < r.id && (q.user != r.user || q.content != r.content)
    ensures Ordered(l + [r]) && OncePerUser(l + [r])
  {
    assert forall i :: 0 <= i < |l| ==> l[i] in l;
  }

  lemma AddListed(s: State, r: Reaction, q: Reaction)
    requires Listed(s, q) || q == r
    ensures Listed(WithReaction(s, r), q)
  {
    hide Key;
  }

  lemma AddKeeps(s: State, r: Reaction)
    requires Good(s) && r.id == s.next && r.content in CONTENTS && !Exists(s, r.parent, r.user, r.content)
    ensures Good(WithReaction(s, r))
  {
    hide Key, Exists, ProperList, Listed, ListAt;
    var t := WithReaction(s, r);
    forall key
      ensures ProperList(t, key, ListAt(t, key))
    {
      AddProper(s, r, key);
    }
    forall k <- t.byID
      ensures Listed(t, t.byID[k])
    {
      AddListed(s, r, t.byID[k]);
    }
  }

  lemma WithoutLast(l: seq<Reaction>, last: Reaction, id: int)
    ensures Without([], id) == []
    ensures Without(l + [last], id) == if last.id == id then Without(l, id) else Without(l, id) + [last]
  {
    assert (l + [last])[..|l|] == l;
  }

  lemma {:induction false} WithoutMembers(l: seq<Reaction>, id: int)
    ensures forall r :: r in Without(l, id) <==> r in l && r.id != id
  {
    if l == [] {
    } else {
      hide Without;
      var front, last := l[..|l| - 1], l[|l| - 1];
      assert l == front + [last];
      WithoutMembers(front, id);
      WithoutLast(front, last, id);
    }
  }

  lemma {:induction false} WithoutOrdered(l: seq<Reaction>, id: int)
    requires Ordered(l)
    ensures Ordered(Without(l, id))
  {
    hide Without;
    if l == [] {
      WithoutLast([], Reaction(0, Parent("", 0), "", 0), id);
    } else {
      var front, last := l[..|l| - 1], l[|l| - 1];
      assert l == front + [last];
      WithoutOrdered(front, id);
      WithoutLast(front, last, id);
      WithoutMembers(front, id);
      OrderedLast(Without(front, id), last);
    }
  }

  lemma OrderedLast(l: seq<Reaction>, last: Reaction)
    requires Ordered(l) && forall r <- l :: r.id < last.id
    ensures Ordered(l + [last])
  {
    assert forall i :: 0 <= i < |l| ==> l[i] in l;
  }

  lemma {:induction false} WithoutNone(l: seq<Reaction>, id: int)
    requires forall r <- l :: r.id != id
    ensures Without(l, id) == l
  {
    hide Without;
    if l == [] {
      WithoutLast([], Reaction(0, Parent("", 0), "", 0), id);
    } else {
      var front, last := l[..|l| - 1], l[|l| - 1];
      assert l == front + [last] && last in l;
      WithoutNone(front, id);
      WithoutLast(front, last, id);
    }
  }

  lemma {:induction false} WithoutAt(l: seq<Reaction>, i: nat)
    requires i < |l| && Ordered(l)
    ensures Without(l, l[i].id) == l[..i] + l[i + 1..]
  {
    hide Without;
    var n := |l| - 1;
    assert l == l[..n] + [l[n]];
    WithoutLast(l[..n], l[n], l[i].id);
    if i < n {
      WithoutAt(l[..n], i);
      assert l[..i] + l[i + 1..] == (l[..n][..i] + l[..n][i + 1..]) + [l[n]];
    } else {
      WithoutNone(l[..n], l[i].id);
      assert l[..n] == l[..i] + l[i + 1..];
    }
  }

  lemma WithoutProper(s: State, r: Reaction, l: seq<Reaction>, key: string)
    requires ProperList(s, key, l)
    ensures ProperList(WithoutReaction(s, r), key, Without(l, r.id))
  {
    hide Key, Without;
    WithoutMembers(l, r.id);
    WithoutOrdered(l, r.id);
    var l' := Without(l, r.id);
    forall i, j | 0 <= i < j < |l'|
      ensures l'[i].user != l'[j].user || l'[i].content != l'[j].content
    {
      assert l'[i] in l && l'[j] in l;
    }
  }

  lemma RemoveProper(s: State, r: Reaction, key: string)
    requires ProperList(s, key, ListAt(s, key)) && r.id in s.byID && s.byID[r.id] == r
    ensures ProperList(WithoutReaction(s, r), key, ListAt(WithoutReaction(s, r), key))
  {
    hide Key, Without;
    var l := ListAt(s, key);
    WithoutProper(s, r, l, key);
    if key != Key(r.parent) {
      WithoutNone(l, r.id);
    }
  }

  lemma RemoveListed(s: State, r: Reaction, q: Reaction)
    requires Listed(s, q) && q.id != r.id && ProperList(s, Key(r.parent), ListAt(s, Key(r.parent)))
    ensures Listed(WithoutReaction(s, r), q)
  {
    hide Key, Without;
    WithoutMembers(ListAt(s, Key(r.parent)), r.id);
  }

  lemma RemoveKeeps(s: State, r: Reaction)
    requires Good(s) && r.id in s.byID && s.byID[r.id] == r
    ensures Good(WithoutReaction(s, r))
  {
    hide Key, Without, ProperList, Listed, ListAt;
    var t := WithoutReaction(s, r);
    forall key
      ensures ProperList(t, key, ListAt(t, key))
    {
      RemoveProper(s, r, key);
    }
    forall k <- t.byID
      ensures Listed(t, t.byID[k])
    {
      RemoveListed(s, r, s.byID[k]);
    }
  }

  // ---------- What the lists say ----------

  /** A parent's list has exactly its live reactions. */
  lemma ListExact(s: State, p: Parent, r: Reaction)
    requires Good(s)
    ensures r in ListAt(s, Key(p)) <==> r.id in s.byID && s.byID[r.id] == r && r.parent == p
  {
    hide Key;
    assert ProperList(s, Key(p), ListAt(s, Key(p)));
    if r in ListAt(s, Key(p)) {
      KeyInjective(r.parent, p);
    } else if r.id in s.byID && s.byID[r.id] == r {
      assert Listed(s, s.byID[r.id]);
    }
  }

  /** A user reacts at most once in the same way to the same thing. */
  lemma OncePerParent(s: State, k: int, l: int)
    requires Good(s) && k in s.byID && l in s.byID
    requires s.byID[k].parent == s.byID[l].parent && s.byID[k].user == s.byID[l].user
    requires s.byID[k].content == s.byID[l].content
    ensures k == l
  {
    hide Key;
    var list := ListAt(s, Key(s.byID[k].parent));
    ListExact(s, s.byID[k].parent, s.byID[k]);
    ListExact(s, s.byID[k].parent, s.byID[l]);
    assert ProperList(s, Key(s.byID[k].parent), list);
    var i :| 0 <= i < |list| && list[i] == s.byID[k];
    var j :| 0 <= j < |list| && list[j] == s.byID[l];
    assert i < j || j < i || i == j;
  }

  function OfContent(l: seq<Reaction>, content: string): seq<Reaction> {
    if l == [] then []
    else OfContent(l[..|l| - 1], content) + if l[|l| - 1].content == content then [l[|l| - 1]] else []
  }

  /** The filtered list has exactly the reactions of that content, in the order of the whole list. */
  lemma {:induction false} OfContentExact(l: seq<Reaction>, content: string)
    ensures Subsequence(OfContent(l, content), l)
    ensures forall r :: multiset(OfContent(l, content))[r] == if r.content == content then multiset(l)[r] else 0
  {
    if l != [] {
      var front, last := l[..|l| - 1], l[|l| - 1];
      assert l == front + [last];
      OfContentExact(front, content);
      OfContentLast(front, last, content);
      hide OfContent, Subsequence;
      if last.content == content {
        SubsequenceKeep(OfContent(front, content), front, last);
      } else {
        SubsequenceSkip(OfContent(front, content), front, last);
      }
    }
  }

  lemma OfContentLast(front: seq<Reaction>, last: Reaction, content: string)
    ensures OfContent(front + [last], content) ==
            if last.content == content then OfContent(front, content) + [last] else OfContent(front, content)
  {
    assert (front + [last])[..|front|] == front;
  }

  function Users(l: seq<Reaction>, content: string): set<int> {
    set r | r in l && r.content == content :: r.user
  }

  /** The count of a content is the number of users who reacted that way. */
  lemma {:induction false} CountsUsers(l: seq<Reaction>, content: string)
    requires OncePerUser(l)
    ensures |OfContent(l, content)| == |Users(l, content)|
  {
    if l == [] {
      assert Users(l, content) == {};
    } else {
      hide Users;
      var front := l[..|l| - 1];
      CountsUsers(front, content);
      UsersLast(l, content);
      if l[|l| - 1].content == content {
        NewUser(l, content);
      }
    }
  }

  lemma UsersLast(l: seq<Reaction>, content: string)
    requires l != []
    ensures var last := l[|l| - 1];
            Users(l, content) == Users(l[..|l| - 1], content) + if last.content == content then {last.user} else {}
  {
    assert l == l[..|l| - 1] + [l[|l| - 1]];
  }

  lemma NewUser(l: seq<Reaction>, content: string)
    requires OncePerUser(l) && l != [] && l[|l| - 1].content == content
    ensures l[|l| - 1].user !in Users(l[..|l| - 1], content)
  {
  }

  function Sum(counts: map<string, int>, contents: seq<string>): int
    requires forall c <- contents :: c in counts
  {
    if contents == [] then 0 else Sum(counts, contents[..|contents| - 1]) + counts[contents[|contents| - 1]]
  }

  lemma ContentsDistinct()
    ensures forall i, j :: 0 <= i < j < |CONTENTS| ==> CONTENTS[i] != CONTENTS[j]
  {
    assert forall i :: 0 <= i < 8 ==> |CONTENTS[i]| == [2, 2, 5, 8, 5, 6, 6, 4][i];
    assert CONTENTS[0][0] == '+' && CONTENTS[1][0] == '-' && CONTENTS[2][0] == 'l' && CONTENTS[4][0] == 'h';
    assert CONTENTS[5][0] == 'h' && CONTENTS[6][0] == 'r';
  }

  /** One more of one content is one more in all. */
  lemma {:induction false} SumOneMore(counts: map<string, int>, contents: seq<string>, c: string)
    requires (forall d <- contents :: d in counts) && c in counts
    requires forall i, j :: 0 <= i < j < |contents| ==> contents[i] != contents[j]
    ensures Sum(counts[c := counts[c] + 1], contents) == Sum(counts, contents) + if c in contents then 1 else 0
  {
    if contents != [] {
      var n := |contents| - 1;
      assert contents == contents[..n] + [contents[n]];
      SumOneMore(counts, contents[..n], c);
    }
  }

  // ---------- The store ----------

  class ReactionStore {
    var byParent: map<string, seq<Reaction>>
    var byID: map<int, Reaction>
    var nextID: int

    ghost function Contents(): State
      reads this
    {
      State(byParent, byID, nextID)
    }

    constructor ()
      ensures Contents() == EMPTY && Good(Contents())
    {
      byParent, byID, nextID := map[], map[], 1;
    }

    /** Repeating a reaction gives the one that is there. */
    method AddReaction(p: Parent, user: int, content: string) returns (res: AddResult)
      requires Good(Contents())
      modifies this
      ensures Good(Contents()) && (res.Invalid? <==> content !in CONTENTS)
      ensures res.Added? ==> res.reaction.parent == p && res.reaction.user == user && res.reaction.content == content &&
                             res.reaction in ListAt(Contents(), Key(p))
      ensures res.Added? ==> res.existed == Exists(old(Contents()), p, user, content)
      ensures res.Added? && !res.existed ==> res.reaction.id == old(nextID) && nextID == old(nextID) + 1
      ensures Contents() == if res.Added? && !res.existed then WithReaction(old(Contents()), res.reaction) else old(Contents())
    {
      hide Key, Good;
      if content !in CONTENTS {
        return Invalid;
      }
      var key := Key(p);
      var src := if key in byParent then byParent[key] else [];
      assert src == ListAt(Contents(), key);
      var i := 0;
      while i < |src|
        invariant 0 <= i <= |src|
        invariant forall j :: 0 <= j < i ==> src[j].user != user || src[j].content != content
      {
        if src[i].user == user && src[i].content == content {
          InOwnList(Contents(), p, src[i]);
          return Added(src[i], true);
        }
        i := i + 1;
      }
      var r := Reaction(nextID, p, content, user);
      AddKeeps(Contents(), r);
      nextID := nextID + 1;
      byParent := byParent[key := src + [r]];
      byID := byID[r.id := r];
      return Added(r, false);
    }

    method ListReactions(p: Parent, filter: string) returns (out: seq<Reaction>)
      ensures out == if filter == "" then ListAt(Contents(), Key(p)) else OfContent(ListAt(Contents(), Key(p)), filter)
    {
      hide Key;
      var key := Key(p);
      var src := if key in byParent then byParent[key] else [];
      if filter == "" {
        return src;
      }
      out := [];
      var i := 0;
      while i < |src|
        invariant 0 <= i <= |src|
        invariant out == OfContent(src[..i], filter)
      {
        assert src[..i + 1][..i] == src[..i];
        if src[i].content == filter {
          out := out + [src[i]];
        }
        i := i + 1;
      }
      assert src[..i] == src;
    }

    method DeleteReaction(p: Parent, id: int) returns (found: bool)
      requires Good(Contents())
      modifies this
      ensures Good(Contents()) && found == (id in old(byID) && old(byID)[id].parent == p)
      ensures Contents() == if found then WithoutReaction(old(Contents()), old(byID)[id]) else old(Contents())
    {
      hide Key, Good, Without;
      if id !in byID || byID[id].parent != p {
        return false;
      }
      ghost var s := Contents();
      NumberedLikeKey(s, id);
      RemoveKeeps(s, byID[id]);
      var key := Key(p);
      var src := if key in byParent then byParent[key] else [];
      ghost var at := PlaceOf(s, byID[id]);
      var i := 0;
      while i < |src|
        invariant 0 <= i <= |src| && byParent == s.byParent
        invariant forall j :: 0 <= j < i ==> src[j].id != id
      {
        if src[i].id == id {
          WithoutAt(src, i);
          byParent := byParent[key := src[..i] + src[i + 1..]];
          break;
        }
        i := i + 1;
      }
      assert i < |src| by {
        assert src[at].id == id;
      }
      byID := byID - {id};
      return true;
    }

    /** The eight counts and their total. */
    method SummarizeReactions(p: Parent) returns (total: nat, counts: map<string, int>)
      requires Good(Contents())
      ensures forall c <- CONTENTS :: c in counts && counts[c] == |OfContent(ListAt(Contents(), Key(p)), c)|
      ensures total == |ListAt(Contents(), Key(p))| == Sum(counts, CONTENTS)
    {
      hide Key, Good, OfContent;
      counts := map["+1" := 0, "-1" := 0, "laugh" := 0, "confused" := 0,
                    "heart" := 0, "hooray" := 0, "rocket" := 0, "eyes" := 0];
      total := 0;
      var key := Key(p);
      var src := if key in byParent then byParent[key] else [];
      assert src == ListAt(Contents(), key);
      NothingCounted(counts);
      ContentsDistinct();
      ListContents(Contents(), key);
      var i := 0;
      while i < |src|
        invariant 0 <= i <= |src| && total == i
        invariant forall c <- CONTENTS :: c in counts && counts[c] == |OfContent(src[..i], c)|
        invariant Sum(counts, CONTENTS) == i
      {
        var c := src[i].content;
        assert c in CONTENTS;
        SumOneMore(counts, CONTENTS, c);
        OneMoreOf(src, i);
        counts := counts[c := counts[c] + 1];
        total := total + 1;
        i := i + 1;
      }
      assert src[..i] == src;
    }
  }

  lemma InOwnList(s: State, p: Parent, r: Reaction)
    requires Good(s) && r in ListAt(s, Key(p))
    ensures r.parent == p
  {
    ListExact(s, p, r);
  }

  lemma NumberedLikeKey(s: State, id: int)
    requires Good(s) && id in s.byID
    ensures s.byID[id].id == id
  {
  }

  lemma PlaceOf(s: State, r: Reaction) returns (i: nat)
    requires Good(s) && r.id in s.byID && s.byID[r.id] == r
    ensures i < |ListAt(s, Key(r.parent))| && ListAt(s, Key(r.parent))[i] == r
    ensures Ordered(ListAt(s, Key(r.parent)))
  {
    hide Key;
    assert Listed(s, s.byID[r.id]);
    assert ProperList(s, Key(r.parent), ListAt(s, Key(r.parent)));
    i :| 0 <= i < |ListAt(s, Key(r.parent))| && ListAt(s, Key(r.parent))[i] == r;
  }

  lemma ListContents(s: State, key: string)
    requires Good(s)
    ensures forall i :: 0 <= i < |ListAt(s, key)| ==> ListAt(s, key)[i].content in CONTENTS
  {
    hide Key;
    assert ProperList(s, key, ListAt(s, key));
    assert forall i :: 0 <= i < |ListAt(s, key)| ==> ListAt(s, key)[i] in ListAt(s, key);
  }

  lemma NothingCounted(counts: map<string, int>)
    requires forall c <- CONTENTS :: c in counts && counts[c] == 0
    ensures Sum(counts, CONTENTS) == 0
    ensures forall c :: OfContent([], c) == []
  {
    NothingSummed(counts, CONTENTS);
  }

  lemma {:induction false} NothingSummed(counts: map<string, int>, contents: seq<string>)
    requires forall c <- contents :: c in counts && counts[c] == 0
    ensures Sum(counts, contents) == 0
  {
    if contents != [] {
      NothingSummed(counts, contents[..|contents| - 1]);
    }
  }

  lemma OneMoreOf(src: seq<Reaction>, i: nat)
    requires i < |src|
    ensures forall c :: |OfContent(src[..i + 1], c)| == |OfContent(src[..i], c)| + if src[i].content == c then 1 else 0
  {
    assert src[..i + 1][..i] == src[..i];
  }

  // ---------- Repeating and undoing ----------

  /** Adding a reaction and deleting it again leaves both maps as they were. */
  lemma AddThenDelete(s: State, r: Reaction)
    requires Good(s) && r.id == s.next && r.content in CONTENTS && !Exists(s, r.parent, r.user, r.content)
    ensures var t := WithoutReaction(WithReaction(s, r), r);
            t.byID == s.byID && forall key :: ListAt(t, key) == ListAt(s, key)
  {
    hide Key, Without, Good, Exists;
    var u := WithReaction(s, r);
    var t := WithoutReaction(u, r);
    var l := ListAt(s, Key(r.parent));
    NewerThanAll(s, Key(r.parent));
    WithoutLast(l, r, r.id);
    WithoutNone(l, r.id);
    assert ListAt(u, Key(r.parent)) == l + [r];
    assert t.byID == s.byID;
  }

  lemma NewerThanAll(s: State, key: string)
    requires Good(s)
    ensures s.next !in s.byID && forall r <- ListAt(s, key) :: r.id < s.next
  {
    hide Key;
    assert ProperList(s, key, ListAt(s, key));
  }

  // ---------- Whole histories ----------

  datatype Event = Add(parent: Parent, user: int, content: string) | Remove(parent: Parent, id: int)

  function Next(s: State, e: Event): State {
    match e
    case Add(p, user, content) =>
      if content !in CONTENTS || Exists(s, p, user, content) then s
      else WithReaction(s, Reaction(s.next, p, content, user))
    case Remove(p, id) =>
      if id in s.byID && s.byID[id].id == id && s.byID[id].parent == p then WithoutReaction(s, s.byID[id]) else s
  }

  function After(es: seq<Event>): State {
    if es == [] then EMPTY else Next(After(es[..|es| - 1]), es[|es| - 1])
  }

  /** After any history byID and the lists hold the same reactions, no user reacted twice in the same way to the same
      thing, and for every content a parent's list counts as many reactions as there are users. */
  lemma {:induction false} AlwaysGood(es: seq<Event>, p: Parent, content: string)
    ensures Good(After(es))
    ensures |OfContent(ListAt(After(es), Key(p)), content)| == |Users(ListAt(After(es), Key(p)), content)|
    ensures forall r :: r in ListAt(After(es), Key(p)) <==> r.id in After(es).byID && After(es).byID[r.id] == r && r.parent == p
  {
    hide Key, Good, Exists, OfContent, Users;
    if es == [] {
      EmptyGood();
    } else {
      var s, e := After(es[..|es| - 1]), es[|es| - 1];
      AlwaysGood(es[..|es| - 1], p, content);
      NextKeeps(s, e);
    }
    GoodCounts(After(es), p, content);
    forall r: Reaction
      ensures r in ListAt(After(es), Key(p)) <==> r.id in After(es).byID && After(es).byID[r.id] == r && r.parent == p
    {
      ListExact(After(es), p, r);
    }
  }

  lemma EmptyGood()
    ensures Good(EMPTY)
  {
  }

  lemma NextKeeps(s: State, e: Event)
    requires Good(s)
    ensures Good(Next(s, e))
  {
    hide Key, Good, Exists;
    match e
    case Add(p, user, content) =>
      if content in CONTENTS && !Exists(s, p, user, content) {
        AddKeeps(s, Reaction(s.next, p, content, user));
      }
    case Remove(p, id) =>
      if id in s.byID && s.byID[id].id == id && s.byID[id].parent == p {
        RemoveKeeps(s, s.byID[id]);
      }
  }

  lemma GoodCounts(s: State, p: Parent, content: string)
    requires Good(s)
    ensures |OfContent(ListAt(s, Key(p)), content)| == |Users(ListAt(s, Key(p)), content)|
  {
    hide Key;
    assert ProperList(s, Key(p), ListAt(s, Key(p)));
    CountsUsers(ListAt(s, Key(p)), content);
  }
}
