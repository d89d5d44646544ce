/** Page numbers and Link headers (bleephub/gh_pagination.go). A query is what url.Values holds; encoding it into a URL
    and parsing it again gives it back. Go's int wraps at 64 bits. */
module Pagination {
  import opened Arithmetic
  import opened Bytes
  import opened Decimal
  import opened Options

  type Query = map<string, seq<string>>

  /** One entry of the Link header of RFC 5988, section 5. */
  datatype Link = Link(rel: Rel, query: Query)

  datatype Rel = Next | Last | First | Prev

  datatype Params = Params(page: int, perPage: int)

  // ---------- Windows of a list ----------

  function Min(a: int, b: int): int {
    if a < b then a else b
  }

  /** The n items from start, as far as there are any. */
  function Window<T>(items: seq<T>, start: nat, n: nat): seq<T> {
    items[Min(start, |items|)..Min(start + n, |items|)]
  }

  /** The slice of the source: both bounds are cut to the length, the upper one after wrapping; a slice whose bounds are
      negative or out of order panics. */
  function Cut<T>(items: seq<T>, start: int, n: int): Option<seq<T>> {
    var lo := Min(start, |items|);
    var hi := Min(Wrap64(lo + n), |items|);
    if lo < 0 || hi < lo then None else Some(items[lo..hi])
  }

  lemma CutIsWindow<T>(items: seq<T>, start: int, n: nat)
    requires |items| + n <= MAX_INT
    ensures start < 0 ==> Cut(items, start, n).None?
    ensures start >= 0 ==> Cut(items, start, n) == Some(Window(items, start, n))
  {
  }

  /** Windows side by side to the end of the list. */
  function Windows<T>(items: seq<T>, start: nat, n: nat): seq<seq<T>>
    requires n > 0
    decreases |items| - start
  {
    [Window(items, start, n)] + if start + n < |items| then Windows(items, start + n, n) else []
  }

  /** The last page, as the source computes it. */
  function LastPage(total: nat, perPage: nat): nat
    requires perPage > 0
  {
    if total > 0 then (total + perPage - 1) / perPage else 1
  }

  lemma {:induction false} ConcatCons<T>(c: seq<T>, rest: seq<seq<T>>)
    ensures Concat([c] + rest) == c + Concat(rest)
  {
    if rest == [] {
      assert [c] + rest == [c] && [c][..0] == [];
    } else {
      var n := |rest| - 1;
      ConcatCons(c, rest[..n]);
      assert ([c] + rest)[..n + 1] == [c] + rest[..n];
      assert Concat([c] + rest) == Concat([c] + rest[..n]) + rest[n];
    }
  }

  /** Nothing is left out, repeated or out of order. */
  lemma {:induction false} WindowsCover<T>(items: seq<T>, start: nat, n: nat)
    requires n > 0 && start <= |items|
    ensures Concat(Windows(items, start, n)) == items[start..]
    decreases |items| - start
  {
    hide Concat;
    if start + n < |items| {
      WindowsCover(items, start + n, n);
      ConcatCons(Window(items, start, n), Windows(items, start + n, n));
      assert items[start..] == items[start..start + n] + items[start + n..];
    } else {
      ConcatCons(Window(items, start, n), []);
      NoChunks<T>();
    }
  }

  lemma NoChunks<T>()
    ensures Concat<T>([]) == []
  {
  }

  lemma OnePageMore(r: nat, n: nat)
    requires n > 0 && r > n
    ensures LastPage(r, n) == LastPage(r - n, n) + 1
  {
    var q := (r - 1) / n;
    DivModUnique(r - 1 + n, q + 1, (r - 1) % n, n);
  }

  lemma OnlyPage(r: nat, n: nat)
    requires n > 0 && r <= n
    ensures LastPage(r, n) == 1
  {
    if r > 0 {
      DivModUnique(r + n - 1, 1, r - 1, n);
    }
  }

  /** There are as many windows as pages; all but the last are full, and the last is not empty unless all is. */
  lemma {:induction false} WindowsCount<T>(items: seq<T>, start: nat, n: nat)
    requires n > 0 && start <= |items|
    ensures |Windows(items, start, n)| == LastPage(|items| - start, n)
    ensures forall i :: 0 <= i < |Windows(items, start, n)| - 1 ==> |Windows(items, start, n)[i]| == n
    ensures start < |items| ==> |Windows(items, start, n)[|Windows(items, start, n)| - 1]| > 0
    decreases |items| - start
  {
    hide LastPage;
    if start + n < |items| {
      WindowsCount(items, start + n, n);
      OnePageMore(|items| - start, n);
    } else {
      OnlyPage(|items| - start, n);
    }
  }

  // ---------- Query parameters ----------

  /** url.Values.Get. */
  function Get(q: Query, key: string): string {
    if key in q && q[key] != [] then q[key][0] else ""
  }

  /** A positive 64-bit number, or what to use instead. */
  function Positive(text: string, default': int): int {
    var n := Atoi(text);
    if n.Some? && n.value > 0 then n.value else default'
  }

  function ParamsOf(q: Query): (p: Params)
    ensures p.page >= 1 && 1 <= p.perPage <= 100
  {
    Params(Positive(Get(q, "page"), 1), Min(Positive(Get(q, "per_page"), 30), 100))
  }

  method ParsePagination(q: Query) returns (p: Params)
    ensures p == ParamsOf(q)
  {
    p := Params(1, 30);
    var v := Get(q, "page");
    assert Atoi("").None?;
    if v != "" {
      var n := Atoi(v);
      if n.Some? && n.value > 0 {
        p := p.(page := n.value);
      }
    }
    v := Get(q, "per_page");
    if v != "" {
      var n := Atoi(v);
      if n.Some? && n.value > 0 {
        p := p.(perPage := n.value);
        if p.perPage > 100 {
          p := p.(perPage := 100);
        }
      }
    }
  }

  /** A number that is missing, is no number or is not positive counts as 1 for the page and as 30 for its size; a size
      above 100 counts as 100. */
  lemma ParamsExact(q: Query)
    ensures var page := if "page" in q && q["page"] != [] then Atoi(q["page"][0]) else None;
            ParamsOf(q).page == if page.Some? && page.value > 0 then page.value else 1
    ensures var size := if "per_page" in q && q["per_page"] != [] then Atoi(q["per_page"][0]) else None;
            ParamsOf(q).perPage == if size.None? || size.value <= 0 then 30 else if size.value > 100 then 100 else size.value
  {
    assert Atoi("").None?;
  }

  // ---------- Links ----------

  /** The request for another page: every other parameter stays. */
  function LinkTo(q: Query, page: int, perPage: int): Query {
    q["page" := [Itoa(page)]]["per_page" := [Itoa(perPage)]]
  }

  function Links(q: Query, page: int, perPage: int, lastPage: int): seq<Link> {
    if lastPage <= 1 then []
    else
      (if page < lastPage then
         [Link(Next, LinkTo(q, page + 1, perPage)), Link(Last, LinkTo(q, lastPage, perPage))] else []) +
      (if page > 1 then
         [Link(First, LinkTo(q, 1, perPage)), Link(Prev, LinkTo(q, page - 1, perPage))] else [])
  }

  method BuildLinkHeader(q: Query, page: int, perPage: int, lastPage: int) returns (parts: seq<Link>)
    ensures parts == Links(q, page, perPage, lastPage)
  {
    hide Itoa;
    parts := [];
    if lastPage <= 1 {
      return;
    }
    var base := q - {"page"};
    assert forall p :: base["page" := [Itoa(p)]] == q["page" := [Itoa(p)]];
    if page < lastPage {
      parts := parts + [Link(Next, base["page" := [Itoa(page + 1)]]["per_page" := [Itoa(perPage)]])];
      parts := parts + [Link(Last, base["page" := [Itoa(lastPage)]]["per_page" := [Itoa(perPage)]])];
    }
    if page > 1 {
      parts := parts + [Link(First, base["page" := [Itoa(1)]]["per_page" := [Itoa(perPage)]])];
      parts := parts + [Link(Prev, base["page" := [Itoa(page - 1)]]["per_page" := [Itoa(perPage)]])];
    }
  }

  function Rels(links: seq<Link>): (rels: seq<Rel>)
    ensures |rels| == |links|
  {
    seq(|links|, i requires 0 <= i < |links| => links[i].rel)
  }

  /** Which links there are, in order. */
  lemma LinksOrder(q: Query, page: int, perPage: int, lastPage: int)
    ensures Rels(Links(q, page, perPage, lastPage)) ==
            if lastPage <= 1 then []
            else if page <= 1 then if page < lastPage then [Next, Last] else []
            else if page < lastPage then [Next, Last, First, Prev] else [First, Prev]
  {
    hide LinkTo;
  }

  lemma ProductNat(page: int, perPage: int)
    requires page >= 1 && perPage >= 1
    ensures (page - 1) * perPage >= 0
  {
  }

  datatype Outcome<T> = Panic | Page(items: seq<T>, links: seq<Link>)

  /** The first index of a page, as the source computes it. */
  function StartOf(p: Params): int {
    Wrap64((p.page - 1) * p.perPage)
  }

  function OutcomeOf<T>(q: Query, items: seq<T>): Outcome<T> {
    var p := ParamsOf(q);
    var page := Cut(items, StartOf(p), p.perPage);
    if page.None? then Panic else Page(page.value, Links(q, p.page, p.perPage, LastPage(|items|, p.perPage)))
  }

  method PaginateAndLink<T>(q: Query, items: seq<T>) returns (r: Outcome<T>)
    ensures r == OutcomeOf(q, items)
  {
    hide Links, Positive, Wrap64, ParamsOf;
    var pp := ParsePagination(q);
    var total := |items|;
    var lastPage := 1;
    if total > 0 {
      lastPage := (total + pp.perPage - 1) / pp.perPage;
    }
    var start := Wrap64((pp.page - 1) * pp.perPage);
    if start > total {
      start := total;
    }
    var end := Wrap64(start + pp.perPage);
    if end > total {
      end := total;
    }
    if start < 0 || end < start {
      return Panic;
    }
    var links := BuildLinkHeader(q, pp.page, pp.perPage, lastPage);
    return Page(items[start..end], links);
  }

  /** For lists that fit memory: the call panics if and only if the first index wraps to a negative number, and it
      gives the page asked for if and only if the index does not wrap, or wraps to one past the list. */
  lemma OutcomeExact<T>(q: Query, items: seq<T>)
    requires |items| + 100 <= MAX_INT
    ensures var p := ParamsOf(q);
            && (p.page - 1) * p.perPage >= 0
            && (OutcomeOf(q, items).Panic? <==> StartOf(p) < 0)
            && (OutcomeOf(q, items) == Page(Window(items, (p.page - 1) * p.perPage, p.perPage),
                                            Links(q, p.page, p.perPage, LastPage(|items|, p.perPage))) <==>
                StartOf(p) == (p.page - 1) * p.perPage || StartOf(p) >= |items|)
  {
    hide Links, ParamsOf, LastPage, Wrap64, Window, Cut, StartOf;
    var p := ParamsOf(q);
    ProductNat(p.page, p.perPage);
    CutIsWindow(items, StartOf(p), p.perPage);
    if StartOf(p) >= 0 {
      StartWraps(p, (p.page - 1) * p.perPage);
      WindowsDiffer(items, (p.page - 1) * p.perPage, StartOf(p), p.perPage);
    }
  }

  lemma StartWraps(p: Params, product: int)
    requires product == (p.page - 1) * p.perPage
    ensures StartOf(p) == Wrap64(product)
  {
  }

  /** A wrapped index inside the list shows items where there should be none. */
  lemma WindowsDiffer<T>(items: seq<T>, product: nat, start: int, n: nat)
    requires n > 0 && |items| + n <= MAX_INT && start == Wrap64(product) && start >= 0
    ensures Window(items, start, n) == Window(items, product, n) <==> start == product || start >= |items|
  {
    if start != product {
      assert Window(items, product, n) == [];
      assert start < |items| ==> |Window(items, start, n)| > 0;
    }
  }

  /** The largest page number with a hundred items a page wraps to a negative index: the call panics, whatever the list. */
  lemma LargestPagePanics<T>(items: seq<T>)
    requires |items| + 100 <= MAX_INT
    ensures OutcomeOf(LinkTo(map[], MAX_INT, 100), items).Panic?
  {
    hide Links, LinkTo, ParamsOf, OutcomeOf, Cut;
    LinkParams(map[], MAX_INT, 100);
    OutcomeExact(LinkTo(map[], MAX_INT, 100), items);
  }

  /** This page lies past every list, and its index wraps to 0: the call gives the items of the first page. */
  lemma WrappedPageIsFirst<T>(items: seq<T>)
    requires 0 < |items| && |items| + 100 <= MAX_INT
    ensures var q := LinkTo(map[], 0x4000_0000_0000_0001, 4);
            && ParamsOf(q) == Params(0x4000_0000_0000_0001, 4)
            && OutcomeOf(q, items).Page? && OutcomeOf(q, items).items == Window(items, 0, 4) != []
            && Window(items, 0x1_0000_0000_0000_0000, 4) == []
  {
    hide Links, LinkTo, ParamsOf, Cut;
    LinkParams(map[], 0x4000_0000_0000_0001, 4);
    var q := LinkTo(map[], 0x4000_0000_0000_0001, 4);
    StartWraps(ParamsOf(q), 0x1_0000_0000_0000_0000);
    CutIsWindow(items, 0, 4);
  }

  /** No page up to the last wraps. */
  lemma PageInRange<T>(q: Query, items: seq<T>)
    requires |items| + 100 <= MAX_INT && ParamsOf(q).page <= LastPage(|items|, ParamsOf(q).perPage)
    ensures var p := ParamsOf(q);
            && 0 <= (p.page - 1) * p.perPage
            && OutcomeOf(q, items) == Page(Window(items, (p.page - 1) * p.perPage, p.perPage),
                                           Links(q, p.page, p.perPage, LastPage(|items|, p.perPage)))
  {
    hide Links, ParamsOf, OutcomeOf, Window, StartOf;
    var p := ParamsOf(q);
    ProductNat(p.page, p.perPage);
    if |items| > 0 {
      CeilBounds(|items|, p.perPage);
      MulMonotone(p.page - 1, LastPage(|items|, p.perPage) - 1, p.perPage);
    }
    StartWraps(p, (p.page - 1) * p.perPage);
    OutcomeExact(q, items);
  }

  // ---------- Following the links ----------

  /** The target of the first link with a relation. */
  function Target(links: seq<Link>, rel: Rel): Option<Query> {
    if links == [] then None
    else if links[0].rel == rel then Some(links[0].query)
    else Target(links[1..], rel)
  }

  lemma Targets(q: Query, page: int, perPage: int, lastPage: int)
    ensures var links := Links(q, page, perPage, lastPage);
            && Target(links, Next) == (if page < lastPage && lastPage > 1 then Some(LinkTo(q, page + 1, perPage)) else None)
            && Target(links, Last) == (if page < lastPage && lastPage > 1 then Some(LinkTo(q, lastPage, perPage)) else None)
            && Target(links, First) == (if page > 1 && lastPage > 1 then Some(LinkTo(q, 1, perPage)) else None)
            && Target(links, Prev) == (if page > 1 && lastPage > 1 then Some(LinkTo(q, page - 1, perPage)) else None)
  {
    hide LinkTo, Target;
    NoLinks();
    if lastPage > 1 {
      var back := if page > 1 then [Link(First, LinkTo(q, 1, perPage)), Link(Prev, LinkTo(q, page - 1, perPage))] else [];
      if page > 1 {
        TwoLinks(back[0], back[1], []);
        assert back + [] == back;
      }
      if page < lastPage {
        TwoLinks(Link(Next, LinkTo(q, page + 1, perPage)), Link(Last, LinkTo(q, lastPage, perPage)), back);
      } else {
        assert [] + back == back;
      }
    }
  }

  lemma NoLinks()
    ensures forall rel :: Target([], rel) == None
  {
  }

  lemma TwoLinks(a: Link, b: Link, rest: seq<Link>)
    ensures forall rel :: Target([a, b] + rest, rel) ==
              if a.rel == rel then Some(a.query) else if b.rel == rel then Some(b.query) else Target(rest, rel)
  {
    var links := [a, b] + rest;
    assert links[1..] == [b] + rest && links[1..][1..] == rest;
  }

  /** A link asks for the page it was made for, with the same page size. */
  lemma LinkParams(q: Query, page: int, perPage: int)
    requires 1 <= page <= MAX_INT && 1 <= perPage <= 100
    ensures ParamsOf(LinkTo(q, page, perPage)) == Params(page, perPage)
    ensures forall k <- q :: k != "page" && k != "per_page" ==> LinkTo(q, page, perPage)[k] == q[k]
  {
    hide Itoa, Atoi;
    AtoiItoa(page);
    AtoiItoa(perPage);
    assert "page"[1] == 'a' && "per_page"[1] == 'e';
  }

  /** There is a next page exactly if this one ends before the list does. */
  lemma NextIff(total: nat, page: nat, perPage: nat)
    requires page >= 1 && perPage > 0
    ensures page < LastPage(total, perPage) <==> page * perPage < total
  {
    if total == 0 {
      MulMonotone(0, page, perPage);
    } else {
      CeilIff(total, perPage, page);
    }
  }

  /** All pages from a request on, as a client that follows rel="next" gets them. */
  function Walk<T>(q: Query, items: seq<T>): seq<seq<T>>
    requires |items| + 100 <= MAX_INT && ParamsOf(q).page <= LastPage(|items|, ParamsOf(q).perPage)
    decreases LastPage(|items|, ParamsOf(q).perPage) - ParamsOf(q).page
  {
    PageInRange(q, items);
    var r := OutcomeOf(q, items);
    [r.items] +
    if ParamsOf(q).page < LastPage(|items|, ParamsOf(q).perPage) then
      NextGoesOn(q, |items|);
      Walk(Target(r.links, Next).value, items)
    else []
  }

  lemma LastInRange(total: nat, perPage: nat)
    requires perPage > 0
    ensures 1 <= LastPage(total, perPage) && LastPage(total, perPage) <= total + 1
    ensures total > 0 ==> LastPage(total, perPage) <= total
    ensures total == 0 ==> LastPage(total, perPage) == 1
  {
    if total > 0 {
      CeilBounds(total, perPage);
    }
  }

  /** The "next" link of a page that has one asks for the next page. */
  lemma NextGoesOn(q: Query, total: nat)
    requires total <= MAX_INT && ParamsOf(q).page < LastPage(total, ParamsOf(q).perPage)
    ensures var p := ParamsOf(q);
            var next := Target(Links(q, p.page, p.perPage, LastPage(total, p.perPage)), Next);
            next.Some? && ParamsOf(next.value) == Params(p.page + 1, p.perPage)
  {
    hide Links, LinkTo, Target, LastPage, ParamsOf;
    var p := ParamsOf(q);
    LastInRange(total, p.perPage);
    LinkParams(q, p.page + 1, p.perPage);
    Targets(q, p.page, p.perPage, LastPage(total, p.perPage));
  }

  /** What following the "next" link of a page leads to. */
  lemma NextRequest<T>(q: Query, items: seq<T>) returns (next: Query)
    requires |items| + 100 <= MAX_INT && ParamsOf(q).page < LastPage(|items|, ParamsOf(q).perPage)
    ensures var p := ParamsOf(q);
            && ParamsOf(next) == Params(p.page + 1, p.perPage) && (p.page - 1) * p.perPage >= 0
            && Walk(q, items) == [Window(items, (p.page - 1) * p.perPage, p.perPage)] + Walk(next, items)
  {
    hide Links, LinkTo, Target, LastPage, ParamsOf, Window, OutcomeOf;
    PageInRange(q, items);
    NextGoesOn(q, |items|);
    next := Target(OutcomeOf(q, items).links, Next).value;
  }

  lemma NoNextRequest<T>(q: Query, items: seq<T>)
    requires |items| + 100 <= MAX_INT && ParamsOf(q).page == LastPage(|items|, ParamsOf(q).perPage)
    ensures var p := ParamsOf(q);
            (p.page - 1) * p.perPage >= 0 && Walk(q, items) == [Window(items, (p.page - 1) * p.perPage, p.perPage)]
  {
    hide Links, LinkTo, Target, LastPage, ParamsOf, Window, OutcomeOf;
    PageInRange(q, items);
  }

  lemma NextStart(page: nat, perPage: nat)
    requires page >= 1
    ensures (page - 1) * perPage >= 0 && (page - 1) * perPage + perPage == page * perPage
  {
    assert page * perPage == (page - 1) * perPage + perPage;
    MulMonotone(0, page - 1, perPage);
  }

  lemma {:induction false} WalkIsWindows<T>(q: Query, items: seq<T>)
    requires |items| + 100 <= MAX_INT && ParamsOf(q).page <= LastPage(|items|, ParamsOf(q).perPage)
    ensures var p := ParamsOf(q);
            (p.page - 1) * p.perPage >= 0 && Walk(q, items) == Windows(items, (p.page - 1) * p.perPage, p.perPage)
    decreases LastPage(|items|, ParamsOf(q).perPage) - ParamsOf(q).page
  {
    hide Walk, LastPage, ParamsOf;
    var p := ParamsOf(q);
    NextStart(p.page, p.perPage);
    NextIff(|items|, p.page, p.perPage);
    if p.page < LastPage(|items|, p.perPage) {
      var next := NextRequest(q, items);
      WalkIsWindows(next, items);
    } else {
      NoNextRequest(q, items);
    }
  }

  /** Following rel="next" from the first page ends after the last page and yields the whole list, each item once and in
      order; every page but the last is full. */
  lemma WalkCovers<T>(q: Query, items: seq<T>)
    requires |items| + 100 <= MAX_INT && ParamsOf(q).page == 1
    ensures 1 <= LastPage(|items|, ParamsOf(q).perPage) && Concat(Walk(q, items)) == items
    ensures |Walk(q, items)| == LastPage(|items|, ParamsOf(q).perPage)
    ensures forall i :: 0 <= i < |Walk(q, items)| - 1 ==> |Walk(q, items)[i]| == ParamsOf(q).perPage
    ensures items != [] ==> |Walk(q, items)[|Walk(q, items)| - 1]| > 0
  {
    hide Walk, Windows, Concat, LastPage, ParamsOf;
    LastInRange(|items|, ParamsOf(q).perPage);
    WalkIsWindows(q, items);
    WindowsCover(items, 0, ParamsOf(q).perPage);
    WindowsCount(items, 0, ParamsOf(q).perPage);
    assert items[0..] == items;
  }

  /** Where the links of the page for a request lead. */
  function LinkOf(q: Query, total: nat, rel: Rel): Option<Query> {
    var p := ParamsOf(q);
    Target(Links(q, p.page, p.perPage, LastPage(total, p.perPage)), rel)
  }

  /** "prev" undoes "next"; "last" leads to the page that has no "next"; "first" leads to page 1, which has no "prev". */
  lemma LinksFit(q: Query, total: nat, rel: Rel)
    requires total <= MAX_INT && ParamsOf(q).page <= MAX_INT && LinkOf(q, total, rel).Some?
    ensures var to := LinkOf(q, total, rel).value;
            && ParamsOf(to).perPage == ParamsOf(q).perPage
            && (rel == Next ==> LinkOf(to, total, Prev).Some? && ParamsOf(LinkOf(to, total, Prev).value) == ParamsOf(q))
            && (rel == Last ==> LinkOf(to, total, Next).None? && ParamsOf(to).page == LastPage(total, ParamsOf(q).perPage))
            && (rel == First ==> LinkOf(to, total, Prev).None? && ParamsOf(to).page == 1)
            && (rel == Prev ==> ParamsOf(to).page == ParamsOf(q).page - 1)
  {
    hide Links, LinkTo, Target, LastPage, ParamsOf;
    var p := ParamsOf(q);
    var last := LastPage(total, p.perPage);
    LastInRange(total, p.perPage);
    Targets(q, p.page, p.perPage, last);
    var to := LinkOf(q, total, rel).value;
    var page := match rel case Next => p.page + 1 case Last => last case First => 1 case Prev => p.page - 1;
    assert to == LinkTo(q, page, p.perPage);
    LinkParams(q, page, p.perPage);
    Targets(to, page, p.perPage, last);
    if rel == Next {
      LinkParams(to, p.page, p.perPage);
    }
  }
}
