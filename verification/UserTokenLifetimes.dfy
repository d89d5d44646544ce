/** How long tokens live, over whole histories, in nanoseconds and by the events that end them. */
module UserTokenLifetimes {
  import opened UserTokens
  import opened UserTokenRuns

  const SECOND := 1000000000

  /** What was handed out at one time for one grant; refresh is empty if there was no refresh token. */
  datatype Pair = Pair(grant: Grant, token: string, refresh: string, ttl: int, at: int)

  /** The last moment of the access token: its own lifetime, or eight hours. */
  function AccessUntil(p: Pair): int {
    p.at + if p.ttl <= 0 then 28800 * SECOND else p.ttl
  }

  /** The last moment of the refresh token: six times thirty days. */
  function RefreshUntil(p: Pair): int {
    p.at + 15552000 * SECOND
  }

  /** The event revokes the access token, exchanges the refresh token in time, or revokes the grant: an OAuth App is known
      by its client id, a GitHub App by the app that the client id stands for. */
  predicate Ends(e: Event, p: Pair) {
    match e
    case Create(_, _, _, _, _) => false
    case RevokeToken(token) => token == p.token
    case RotateToken(r, _, now) => r == p.refresh != "" && now <= RefreshUntil(p)
    case RevokeUser(client, user, apps) =>
      && p.grant.userId == user
      && (p.grant.clientId == client || (p.grant.appId > 0 && client in apps && apps[client] == p.grant.appId))
  }

  /** The store has the pair, with its grant and its times. */
  ghost predicate Stored(s: State, p: Pair) {
    && p.token in s.access && s.access[p.token] == Access(p.grant, AccessUntil(p), p.refresh)
    && (p.refresh != "" ==> p.refresh in s.refreshes && s.refreshes[p.refresh] == Refresh(p.grant, RefreshUntil(p)))
  }

  /** Neither of the two is in the store. */
  ghost predicate Gone(s: State, p: Pair) {
    p.token !in s.access && (p.refresh != "" ==> p.refresh !in s.refreshes)
  }

  // ---------- One event ----------

  lemma MintLeaves(s: State, p: Pair, g: Grant, ttl: int, withRefresh: bool, d: Draw, now: int)
    requires p.token != AccessToken(g, d) && (withRefresh ==> p.refresh != RefreshToken(d))
    ensures var t := Mint(s, g, ttl, withRefresh, d, now);
            (Stored(s, p) ==> Stored(t, p)) && (Gone(s, p) ==> Gone(t, p))
  {
    hide AccessToken, RefreshToken, AccessUntil, RefreshUntil;
  }

  lemma RevokeOne(s: State, p: Pair, token: string)
    requires Paired(s) && Stored(s, p)
    ensures if token == p.token then Gone(Revoke(s, token), p) else Stored(Revoke(s, token), p)
  {
    hide AccessUntil, RefreshUntil, HasPartner;
  }

  lemma RotateOne(s: State, p: Pair, r: string, d: Draw, now: int)
    requires Paired(s) && Stored(s, p)
    requires Usable(s, r, now) ==> p.token != AccessToken(s.refreshes[r].grant, d) && p.refresh != RefreshToken(d)
    ensures if Ends(RotateToken(r, d, now), p) then Gone(Rotate(s, r, d, now), p) else Stored(Rotate(s, r, d, now), p)
  {
    hide AccessUntil, RefreshUntil, HasPartner, Mint, AccessToken, RefreshToken;
    if Usable(s, r, now) {
      var t := State(s.access - Owners(s, r), s.refreshes - {r});
      assert if r == p.refresh then Gone(t, p) else Stored(t, p);
      MintLeaves(t, p, s.refreshes[r].grant, 8 * HOUR, true, d, now);
    }
  }

  lemma RevokeAll(s: State, p: Pair, client: string, user: int, apps: map<string, int>)
    requires Stored(s, p)
    ensures var t := RevokeGrant(s, client, user, apps);
            if Ends(RevokeUser(client, user, apps), p) then Gone(t, p) else Stored(t, p)
  {
    hide AccessUntil, RefreshUntil;
  }

  /** A stored pair stays as it is until an event ends it, and then both of it go. */
  lemma PairNext(s: State, e: Event, p: Pair)
    requires Paired(s) && Stored(s, p)
    requires p.token !in Issues(s, e) && p.refresh !in Issues(s, e)
    ensures if Ends(e, p) then Gone(Step(s, e), p) else Stored(Step(s, e), p)
  {
    hide Paired, Stored, Gone, Mint, Rotate, Revoke, RevokeGrant, AccessToken, RefreshToken, Usable;
    match e
    case Create(g, ttl, withRefresh, d, now) => MintLeaves(s, p, g, ttl, withRefresh, d, now);
    case RevokeToken(token) => RevokeOne(s, p, token);
    case RotateToken(r, d, now) => RotateOne(s, p, r, d, now);
    case RevokeUser(client, user, apps) => RevokeAll(s, p, client, user, apps);
  }

  // ---------- Histories ----------

  ghost predicate EndedBy(es: seq<Event>, i: nat, n: nat, p: Pair) {
    exists j :: i <= j < n <= |es| && Ends(es[j], p)
  }

  lemma EndedNext(es: seq<Event>, i: nat, n: nat, p: Pair)
    requires i < n <= |es|
    ensures EndedBy(es, i, n, p) <==> EndedBy(es, i, n - 1, p) || Ends(es[n - 1], p)
  {
    hide Ends;
  }

  lemma TextsIssued(es: seq<Event>, i: nat, p: Pair)
    requires FreshHistory(es) && i <= |es| && Stored(After(es[..i]).store, p)
    ensures p.token in After(es[..i]).issued && (p.refresh != "" ==> p.refresh in After(es[..i]).issued)
  {
    hide After, AccessUntil, RefreshUntil, Paired;
    AlwaysPaired(es, i);
  }

  lemma NoEmptyText(s: State, e: Event)
    ensures "" !in Issues(s, e)
  {
    hide Usable;
    if e.Create? {
      assert |AccessToken(e.grant, e.draw)| >= 4 && |RefreshToken(e.draw)| >= 4;
    } else if e.RotateToken? && Usable(s, e.refresh, e.now) {
      assert |AccessToken(UsableGrant(s, e.refresh, e.now), e.draw)| >= 4 && |RefreshToken(e.draw)| >= 4;
    }
  }

  function UsableGrant(s: State, r: string, now: int): Grant
    requires Usable(s, r, now)
  {
    s.refreshes[r].grant
  }

  /** From the moment it is stored, a pair is in the store, unchanged, if and only if no event has ended it; and once it
      was ended, neither of it is ever there again. */
  lemma {:induction false} PairLives(es: seq<Event>, i: nat, n: nat, p: Pair)
    requires FreshHistory(es) && i <= n <= |es| && Stored(After(es[..i]).store, p)
    ensures if EndedBy(es, i, n, p) then Gone(After(es[..n]).store, p) else Stored(After(es[..n]).store, p)
    decreases n
  {
    hide After, Stored, Gone, Ends, Issues, Step, FreshHistory, FreshAt, Paired, EndedBy;
    if i == n {
      assert !EndedBy(es, i, n, p) by {
        NotYetEnded(es, i, p);
      }
    } else {
      PairLives(es, i, n - 1, p);
      EndedNext(es, i, n, p);
      AfterLast(es, n - 1);
      TextsIssued(es, i, p);
      GoneStaysGone(es, i, n - 1, p.token);
      NotReissued(es, n - 1, p.token);
      var w := After(es[..n - 1]);
      NoEmptyText(w.store, es[n - 1]);
      if p.refresh != "" {
        GoneStaysGone(es, i, n - 1, p.refresh);
        NotReissued(es, n - 1, p.refresh);
      }
      AlwaysPaired(es, n - 1);
      if EndedBy(es, i, n - 1, p) {
        GoneNext(w, es[n - 1], p);
      } else {
        PairedWhenGood(w);
        PairNext(w.store, es[n - 1], p);
      }
    }
  }

  lemma NotYetEnded(es: seq<Event>, i: nat, p: Pair)
    ensures !EndedBy(es, i, i, p)
  {
  }

  lemma PairedWhenGood(w: World)
    requires Good(w)
    ensures Paired(w.store)
  {
  }

  lemma GoneNext(w: World, e: Event, p: Pair)
    requires Gone(w.store, p) && p.token in w.issued && p.token !in Issues(w.store, e)
    requires p.refresh != "" ==> p.refresh in w.issued && p.refresh !in Issues(w.store, e)
    ensures Gone(Next(w, e).store, p)
  {
    hide Issues, Step;
    GoneAtNext(w, e, p.token);
    if p.refresh != "" {
      GoneAtNext(w, e, p.refresh);
    }
  }

  // ---------- The pairs that are handed out ----------

  function TokenText(g: Grant, d: Draw): string {
    (if g.appId > 0 then "ghu_" else "gho_") + d.access
  }

  function CreatedPair(e: Event): Pair
    requires e.Create?
  {
    Pair(e.grant, TokenText(e.grant, e.draw), if e.withRefresh then "ghr_" + e.draw.refresh else "", e.ttl, e.now)
  }

  /** The pair that an exchange gives for a pair: for the same grant, for eight hours and another six times thirty days. */
  function RotatedPair(p: Pair, e: Event): Pair
    requires e.RotateToken?
  {
    Pair(p.grant, TokenText(p.grant, e.draw), "ghr_" + e.draw.refresh, 28800 * SECOND, e.now)
  }

  lemma CreateStores(s: State, e: Event)
    requires e.Create?
    ensures Stored(Step(s, e), CreatedPair(e))
  {
    if e.withRefresh {
      assert ("ghr_" + e.draw.refresh)[0] == 'g';
    }
  }

  lemma RotateStores(s: State, e: Event, p: Pair)
    requires e.RotateToken? && e.refresh == p.refresh != "" && Stored(s, p) && e.now <= RefreshUntil(p)
    ensures Stored(Step(s, e), RotatedPair(p, e))
  {
    assert ("ghr_" + e.draw.refresh)[0] == 'g';
  }

  /** The pair that event i hands out, if it hands out one: with the text, grant and times that the event says. */
  ghost predicate HandsOut(es: seq<Event>, i: nat, p: Pair) {
    && i < |es|
    && if es[i].Create? then p == CreatedPair(es[i])
       else
         && es[i].RotateToken?
         && exists q :: Stored(After(es[..i]).store, q) && es[i].refresh == q.refresh != "" && es[i].now <= RefreshUntil(q)
                        && p == RotatedPair(q, es[i])
  }

  lemma HandedOutStored(es: seq<Event>, i: nat, p: Pair)
    requires HandsOut(es, i, p)
    ensures Stored(After(es[..i + 1]).store, p)
  {
    hide After, Stored, Step, CreatedPair, RotatedPair, RefreshUntil;
    AfterLast(es, i);
    var s := After(es[..i]).store;
    if es[i].Create? {
      CreateStores(s, es[i]);
    } else {
      var q :| Stored(s, q) && es[i].refresh == q.refresh != "" && es[i].now <= RefreshUntil(q)
               && p == RotatedPair(q, es[i]);
      RotateStores(s, es[i], q);
    }
  }

  /** In every history: the access token that an event handed out is found by a lookup at some moment if and only if it was
      not revoked, its refresh token not exchanged and its grant not revoked, and its lifetime is not over. */
  lemma FoundIff(es: seq<Event>, i: nat, n: nat, p: Pair, now: int)
    requires FreshHistory(es) && i < n <= |es| && HandsOut(es, i, p)
    ensures var s := After(es[..n]).store;
            p.token in s.access && now <= s.access[p.token].expiresAt <==> !EndedBy(es, i + 1, n, p) && now <= AccessUntil(p)
  {
    hide After, HandsOut, EndedBy, FreshHistory, AccessUntil, RefreshUntil;
    HandedOutStored(es, i, p);
    PairLives(es, i + 1, n, p);
  }

  /** And its refresh token is exchanged, at some moment, for a new pair for the same grant if and only if none of this
      happened and six times thirty days are not over; otherwise nothing changes. */
  lemma ExchangedIff(es: seq<Event>, i: nat, n: nat, p: Pair, d: Draw, now: int)
    requires FreshHistory(es) && i < n <= |es| && HandsOut(es, i, p) && p.refresh != ""
    ensures var s := After(es[..n]).store;
            var e := RotateToken(p.refresh, d, now);
            if !EndedBy(es, i + 1, n, p) && now <= RefreshUntil(p) then Stored(Step(s, e), RotatedPair(p, e))
            else Step(s, e) == s
  {
    hide After, HandsOut, EndedBy, FreshHistory, AccessUntil, RotatedPair;
    HandedOutStored(es, i, p);
    PairLives(es, i + 1, n, p);
    var s := After(es[..n]).store;
    if !EndedBy(es, i + 1, n, p) && now <= RefreshUntil(p) {
      RotateStores(s, RotateToken(p.refresh, d, now), p);
    }
  }
}
