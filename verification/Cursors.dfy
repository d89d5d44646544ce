/** Cursor pagination of the GraphQL lists (bleephub/gh_repos_graphql.go). */
module Cursors {
  import opened Arithmetic
  import opened Bytes
  import Base64
  import Decimal
  import opened Pagination
  import opened Options

  const PREFIX := "cursor:"

  // ---------- Cursors ----------

  predicate Ascii(s: string) {
    forall i :: 0 <= i < |s| ==> s[i] as int < 128
  }

  function ToBytes(s: string): (b: seq<Byte>)
    requires Ascii(s)
  {
    seq(|s|, i requires 0 <= i < |s| => s[i] as int)
  }

  function ToText(b: seq<Byte>): (s: string)
    ensures |s| == |b|
  {
    seq(|b|, i requires 0 <= i < |b| => b[i] as char)
  }

  lemma CursorTextAscii(idx: int)
    ensures Ascii(PREFIX + Decimal.Itoa(idx))
  {
    var d := Decimal.Itoa(idx);
    assert forall i :: 0 <= i < |d| ==> Decimal.IsDigit(d[i]) || d[i] == '-';
  }

  function EncodeCursor(idx: int): string {
    CursorTextAscii(idx);
    Base64.Encode(ToBytes(PREFIX + Decimal.Itoa(idx)))
  }

  /** Whatever is not a cursor counts as cursor 0. */
  function DecodeCursor(s: string): int {
    var b := Base64.Decode(s);
    if b.None? then 0
    else
      var str := ToText(b.value);
      if !(PREFIX <= str) then 0
      else
        var n := Decimal.Atoi(str[|PREFIX|..]);
        if n.None? then 0 else n.value
  }

  lemma TextBytes(s: string)
    requires Ascii(s)
    ensures ToText(ToBytes(s)) == s
  {
  }

  /** A cursor gives back the index it was made for, for every 64-bit index. */
  lemma CursorRoundTrip(idx: int)
    requires -Decimal.MAX_INT - 1 <= idx <= Decimal.MAX_INT
    ensures DecodeCursor(EncodeCursor(idx)) == idx
  {
    hide Base64.Encode, Base64.Decode, Decimal.Itoa, Decimal.Atoi, ToText, ToBytes;
    var text := PREFIX + Decimal.Itoa(idx);
    CursorTextAscii(idx);
    Base64.DecodeEncode(ToBytes(text));
    TextBytes(text);
    Decimal.AtoiItoa(idx);
    assert text[|PREFIX|..] == Decimal.Itoa(idx);
  }

  /** A cursor is the standard base64 text of the word "cursor", a colon and the index. */
  lemma CursorTextIs(idx: int)
    ensures Ascii("cursor:" + Decimal.Itoa(idx))
    ensures EncodeCursor(idx) == Base64.Encode(ToBytes("cursor:" + Decimal.Itoa(idx)))
    ensures Base64.Decode(EncodeCursor(idx)) == Some(ToBytes("cursor:" + Decimal.Itoa(idx)))
  {
    hide Base64.Encode, Base64.Decode, Decimal.Itoa, ToBytes;
    CursorTextAscii(idx);
    Base64.DecodeEncode(ToBytes(PREFIX + Decimal.Itoa(idx)));
  }

  // ---------- One page ----------

  datatype Edge<T> = Edge(node: T, cursor: string)

  datatype Page<T> =
    | Panic
    | Page(nodes: seq<T>, edges: seq<Edge<T>>, total: nat, hasNext: bool, hasPrevious: bool,
           startCursor: Option<string>, endCursor: Option<string>)

  /** The index a page starts at, before it is cut to the length of the list; the sum wraps like any Go int. */
  function Start(after: string): int {
    if after == "" then 0 else Wrap64(DecodeCursor(after) + 1)
  }

  /** Each node has the cursor of its index in the whole list. */
  function Edges<T>(nodes: seq<T>, start: int): (r: seq<Edge<T>>)
    ensures |r| == |nodes|
    ensures forall i :: 0 <= i < |nodes| ==> r[i] == Edge(nodes[i], EncodeCursor(start + i))
  {
    seq(|nodes|, i requires 0 <= i < |nodes| => Edge(nodes[i], EncodeCursor(start + i)))
  }

  function PageOf<T>(repos: seq<T>, first: int, after: string): Page<T> {
    var nodes := Cut(repos, Start(after), first);
    if nodes.None? then Page.Panic
    else
      var start := Min(Start(after), |repos|);
      Page.Page(nodes.value, Edges(nodes.value, start), |repos|, start + |nodes.value| < |repos|, start > 0,
                if nodes.value == [] then None else Some(EncodeCursor(start)),
                if nodes.value == [] then None else Some(EncodeCursor(start + |nodes.value| - 1)))
  }

  method PaginateRepos<T>(repos: seq<T>, first: int, after: string) returns (page: Page<T>)
    ensures page == PageOf(repos, first, after)
  {
    hide EncodeCursor, DecodeCursor, Edges, Wrap64;
    var total := |repos|;
    var startIdx := 0;
    if after != "" {
      startIdx := Wrap64(DecodeCursor(after) + 1);
    }
    if startIdx > total {
      startIdx := total;
    }
    var endIdx := Wrap64(startIdx + first);
    if endIdx > total {
      endIdx := total;
    }
    if startIdx < 0 || endIdx < startIdx {
      return Page.Panic;
    }
    var nodes, edges := Render(repos[startIdx..endIdx], startIdx);
    assert Cut(repos, Start(after), first) == Some(nodes);
    hide Cut, Start;
    var startCursor, endCursor := None, None;
    if |edges| > 0 {
      startCursor := Some(edges[0].cursor);
      endCursor := Some(edges[|edges| - 1].cursor);
    }
    return Page.Page(nodes, edges, total, endIdx < total, startIdx > 0, startCursor, endCursor);
  }

  /** Its loop over the page. */
  method Render<T>(page: seq<T>, startIdx: int) returns (nodes: seq<T>, edges: seq<Edge<T>>)
    ensures nodes == page && edges == Edges(page, startIdx)
  {
    hide EncodeCursor;
    nodes, edges := [], [];
    var i := 0;
    while i < |page|
      invariant 0 <= i <= |page| && nodes == page[..i] && |edges| == i
      invariant forall k :: 0 <= k < i ==> edges[k] == Edge(page[k], EncodeCursor(startIdx + k))
    {
      nodes := nodes + [page[i]];
      edges := edges + [Edge(page[i], EncodeCursor(startIdx + i))];
      i := i + 1;
    }
    assert page[..i] == page;
    assert edges == Edges(page, startIdx);
  }

  /** For a positive size, and lists that fit memory beside it, the slice is out of range if and only if the text is a
      cursor below -1 or the largest 64-bit one. */
  lemma PanicsIff<T>(repos: seq<T>, first: int, after: string)
    requires first > 0 && |repos| + first <= Decimal.MAX_INT
    ensures PageOf(repos, first, after).Panic? <==>
            after != "" && (DecodeCursor(after) < -1 || DecodeCursor(after) == Decimal.MAX_INT)
  {
    hide DecodeCursor, EncodeCursor, Edges;
    CutIsWindow(repos, Start(after), first);
    DecodedFits(after);
  }

  /** For instance for the text that encodes -2. */
  lemma NegativeCursorPanics<T>(repos: seq<T>, first: int)
    requires first > 0 && |repos| + first <= Decimal.MAX_INT
    ensures PageOf(repos, first, EncodeCursor(-2)).Panic?
  {
    hide EncodeCursor, DecodeCursor, PageOf;
    CursorRoundTrip(-2);
    CursorNotEmpty(-2);
    PanicsIff(repos, first, EncodeCursor(-2));
  }

  lemma DecodedFits(s: string)
    ensures -Decimal.MAX_INT - 1 <= DecodeCursor(s) <= Decimal.MAX_INT
  {
    hide Base64.Decode, ToText, Decimal.DigitsValue;
  }

  /** A page begins with the first item if and only if the text is empty, or is a cursor of -1. */
  lemma FirstItemIff<T>(repos: seq<T>, first: int, after: string)
    requires repos != [] && first > 0 && |repos| + first <= Decimal.MAX_INT
    ensures var page := PageOf(repos, first, after);
            page.Page? && page.startCursor == Some(EncodeCursor(0)) <==> after == "" || DecodeCursor(after) == -1
  {
    hide EncodeCursor, DecodeCursor, Edges;
    DecodedFits(after);
    CutIsWindow(repos, Start(after), first);
    var start := Min(Start(after), |repos|);
    if start >= 0 {
      CursorRoundTrip(0);
      CursorRoundTrip(start);
    }
  }

  // ---------- Walking ----------

  /** The sizes with which a page after this text does not wrap. */
  predicate InRange(total: nat, first: int, after: string) {
    first > 0 && Start(after) >= 0 && Min(Start(after), total) + first <= Decimal.MAX_INT
  }

  lemma PageMeans<T>(repos: seq<T>, first: int, after: string)
    requires InRange(|repos|, first, after)
    ensures var page := PageOf(repos, first, after);
            var start := Min(Start(after), |repos|);
            && page.Page? && page.nodes == Window(repos, start, first)
            && (page.hasNext <==> start + first < |repos|)
            && (page.nodes != [] ==> page.endCursor == Some(EncodeCursor(start + |page.nodes| - 1)))
  {
    hide EncodeCursor, DecodeCursor, Edges;
  }

  /** Everything that a page says: its items and how many there are in all, whether there are others before and after, one
      edge for each item with the cursor of its index, and the first and the last of these cursors. */
  lemma PageExact<T>(repos: seq<T>, first: int, after: string)
    requires InRange(|repos|, first, after) && |repos| <= Decimal.MAX_INT
    ensures var page := PageOf(repos, first, after);
            var start := Min(Start(after), |repos|);
            && page.Page? && page.nodes == Window(repos, start, first) && page.total == |repos|
            && (page.hasPrevious <==> start > 0) && (page.hasNext <==> start + first < |repos|)
            && |page.edges| == |page.nodes|
            && (forall i :: 0 <= i < |page.edges| ==>
                  page.edges[i].node == page.nodes[i] && page.edges[i].cursor == EncodeCursor(start + i)
                  && DecodeCursor(page.edges[i].cursor) == start + i)
            && (if page.nodes == [] then page.startCursor == page.endCursor == None
                else page.startCursor == Some(page.edges[0].cursor) && page.endCursor == Some(page.edges[|page.edges| - 1].cursor))
  {
    hide EncodeCursor, DecodeCursor, Start;
    PageMeans(repos, first, after);
    var page, start := PageOf(repos, first, after), Min(Start(after), |repos|);
    assert page.edges == Edges(page.nodes, start);
    forall i | 0 <= i < |page.edges|
      ensures DecodeCursor(page.edges[i].cursor) == start + i
    {
      CursorRoundTrip(start + i);
    }
  }

  /** A page that has a next one ends with the cursor of its last index, so that the next starts right after. */
  lemma NextStarts<T>(repos: seq<T>, first: int, after: string)
    requires 2 * |repos| <= Decimal.MAX_INT && InRange(|repos|, first, after)
    ensures var page := PageOf(repos, first, after);
            && page.Page?
            && (page.hasNext ==>
                  && page.endCursor.Some? && Start(page.endCursor.value) == Start(after) + first < |repos|
                  && InRange(|repos|, first, page.endCursor.value))
  {
    hide EncodeCursor, DecodeCursor, PageOf;
    PageMeans(repos, first, after);
    var start := Min(Start(after), |repos|);
    if PageOf(repos, first, after).hasNext {
      CursorRoundTrip(start + first - 1);
      CursorNotEmpty(start + first - 1);
    }
  }

  lemma CursorNotEmpty(idx: int)
    ensures EncodeCursor(idx) != ""
  {
  }

  /** All pages from a cursor on, as a client gets them that passes endCursor back while hasNextPage. */
  function Walk<T>(repos: seq<T>, first: int, after: string): seq<Page<T>>
    requires 2 * |repos| <= Decimal.MAX_INT && InRange(|repos|, first, after)
    decreases |repos| - Start(after)
  {
    NextStarts(repos, first, after);
    var page := PageOf(repos, first, after);
    [page] + if page.hasNext then Walk(repos, first, page.endCursor.value) else []
  }

  function NodesOf<T>(pages: seq<Page<T>>): (r: seq<seq<T>>)
    requires forall i :: 0 <= i < |pages| ==> pages[i].Page?
  {
    if pages == [] then [] else [pages[0].nodes] + NodesOf(pages[1..])
  }

  lemma WalkStep<T>(repos: seq<T>, first: int, after: string)
    requires 2 * |repos| <= Decimal.MAX_INT && InRange(|repos|, first, after)
    ensures var page := PageOf(repos, first, after);
            && page.Page?
            && if page.hasNext then
                 && page.endCursor.Some? && Start(page.endCursor.value) == Start(after) + first < |repos|
                 && InRange(|repos|, first, page.endCursor.value)
                 && Walk(repos, first, after) == [page] + Walk(repos, first, page.endCursor.value)
               else Walk(repos, first, after) == [page]
  {
    hide Start, PageOf, InRange;
    NextStarts(repos, first, after);
  }

  lemma {:induction false} WalkIsWindows<T>(repos: seq<T>, first: int, after: string)
    requires 2 * |repos| <= Decimal.MAX_INT && InRange(|repos|, first, after)
    ensures forall i :: 0 <= i < |Walk(repos, first, after)| ==> Walk(repos, first, after)[i].Page?
    ensures NodesOf(Walk(repos, first, after)) == Windows(repos, Min(Start(after), |repos|), first)
    decreases |repos| - Start(after)
  {
    hide Walk, Start, PageOf, Window;
    WalkStep(repos, first, after);
    PageMeans(repos, first, after);
    var page := PageOf(repos, first, after);
    if page.hasNext {
      var rest := Walk(repos, first, page.endCursor.value);
      WalkIsWindows(repos, first, page.endCursor.value);
      assert ([page] + rest)[1..] == rest;
    }
  }

  /** Passing endCursor back while hasNextPage ends, for every positive page size, and yields the whole list, each item
      once and in order, in as few pages as there can be. */
  lemma WalkCovers<T>(repos: seq<T>, first: int)
    requires 2 * |repos| <= Decimal.MAX_INT && 0 < first <= Decimal.MAX_INT
    ensures var pages := Walk(repos, first, "");
            && (forall i :: 0 <= i < |pages| ==> pages[i].Page?)
            && Concat(NodesOf(pages)) == repos
            && |pages| == LastPage(|repos|, first)
  {
    hide Walk, Windows, Concat, LastPage, NodesOf;
    WalkIsWindows(repos, first, "");
    WindowsCover(repos, 0, first);
    WindowsCount(repos, 0, first);
    NodesLength(Walk(repos, first, ""));
    assert repos[0..] == repos;
  }

  lemma {:induction false} NodesLength<T>(pages: seq<Page<T>>)
    requires forall i :: 0 <= i < |pages| ==> pages[i].Page?
    ensures |NodesOf(pages)| == |pages|
  {
    if pages != [] {
      NodesLength(pages[1..]);
    }
  }

  lemma EdgeIs<T>(repos: seq<T>, first: int, after: string, k: nat)
    requires InRange(|repos|, first, after)
    requires PageOf(repos, first, after).Page? && k < |PageOf(repos, first, after).edges|
    ensures var start := Min(Start(after), |repos|);
            && start + k < |repos|
            && PageOf(repos, first, after).edges[k] == Edge(repos[start + k], EncodeCursor(start + k))
  {
    hide EncodeCursor, Start;
    PageMeans(repos, first, after);
    var page, start := PageOf(repos, first, after), Min(Start(after), |repos|);
    assert page.edges == Edges(page.nodes, start);
    assert page.nodes[k] == repos[start + k];
  }

  lemma AfterCursor<T>(repos: seq<T>, size: int, idx: nat)
    requires idx < |repos| && 0 < size && |repos| + size <= Decimal.MAX_INT
    ensures PageOf(repos, size, EncodeCursor(idx)).Page?
    ensures PageOf(repos, size, EncodeCursor(idx)).nodes == Window(repos, idx + 1, size)
  {
    hide EncodeCursor, DecodeCursor, Edges, Cut;
    CutIsWindow(repos, idx + 1, size);
    CursorRoundTrip(idx);
    CursorNotEmpty(idx);
  }

  /** Every cursor on a page is a place to go on from: the page after it starts with the very next item. */
  lemma ResumeAfterEdge<T>(repos: seq<T>, first: int, after: string, k: nat, size: int)
    requires InRange(|repos|, first, after) && 0 < size && |repos| + size <= Decimal.MAX_INT
    requires PageOf(repos, first, after).Page? && k < |PageOf(repos, first, after).edges|
    ensures var start := Min(Start(after), |repos|);
            && start + k < |repos| && PageOf(repos, first, after).edges[k].node == repos[start + k]
            && PageOf(repos, size, PageOf(repos, first, after).edges[k].cursor).Page?
            && PageOf(repos, size, PageOf(repos, first, after).edges[k].cursor).nodes == Window(repos, start + k + 1, size)
  {
    hide EncodeCursor, PageOf, Window, Start, Min;
    EdgeIs(repos, first, after, k);
    StartPositive(repos, first, after);
    AfterCursor(repos, size, Min(Start(after), |repos|) + k);
  }

  lemma StartPositive<T>(repos: seq<T>, first: int, after: string)
    requires InRange(|repos|, first, after)
    ensures 0 <= Min(Start(after), |repos|)
  {
    hide Start;
  }

  /** So a text that is no cursor does not start over: it counts as cursor 0 and skips the first item. */
  lemma NoCursorSkipsOne<T>(repos: seq<T>, first: int, after: string)
    requires after != "" && first > 0 && |repos| + first <= Decimal.MAX_INT
    requires var b := Base64.Decode(after);
             b.None? || !(PREFIX <= ToText(b.value)) || Decimal.Atoi(ToText(b.value)[|PREFIX|..]).None?
    ensures PageOf(repos, first, after).Page? && PageOf(repos, first, after).nodes == Window(repos, Min(1, |repos|), first)
  {
    hide Base64.Decode, Decimal.Atoi, ToText, Edges, EncodeCursor;
    CutIsWindow(repos, 1, first);
  }
}
