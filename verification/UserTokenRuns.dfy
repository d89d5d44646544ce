/** Whole histories of the token store. The only thing asked of random draws is that each text be new. */
module UserTokenRuns {
  import opened UserTokens

  datatype Event =
    | Create(grant: Grant, ttl: int, withRefresh: bool, draw: Draw, now: int)
    | RevokeToken(token: string)
    | RotateToken(refresh: string, draw: Draw, now: int)
    | RevokeUser(client: string, user: int, apps: map<string, int>)

  /** The store and every token text it ever handed out. */
  datatype World = World(store: State, issued: set<string>)

  function Step(s: State, e: Event): State {
    match e
    case Create(g, ttl, withRefresh, d, now) => Mint(s, g, ttl, withRefresh, d, now)
    case RevokeToken(token) => Revoke(s, token)
    case RotateToken(r, d, now) => Rotate(s, r, d, now)
    case RevokeUser(client, user, apps) => RevokeGrant(s, client, user, apps)
  }

  /** The texts that an event hands out. */
  function Issues(s: State, e: Event): set<string> {
    match e
    case Create(g, _, withRefresh, d, _) => {AccessToken(g, d)} + if withRefresh then {RefreshToken(d)} else {}
    case RotateToken(r, d, now) =>
      if Usable(s, r, now) then {AccessToken(s.refreshes[r].grant, d), RefreshToken(d)} else {}
    case RevokeToken(_) => {}
    case RevokeUser(_, _, _) => {}
  }

  function Next(w: World, e: Event): World {
    World(Step(w.store, e), w.issued + Issues(w.store, e))
  }

  function After(es: seq<Event>): World {
    if es == [] then World(State(map[], map[]), {}) else Next(After(es[..|es| - 1]), es[|es| - 1])
  }

  /** Every draw of the history gives texts that were not handed out before it. */
  ghost predicate FreshHistory(es: seq<Event>) {
    forall n :: 0 <= n < |es| ==> FreshAt(es, n)
  }

  ghost predicate FreshAt(es: seq<Event>, n: nat)
    requires n < |es|
  {
    Issues(After(es[..n]).store, es[n]) !! After(es[..n]).issued
  }

  lemma AfterLast(es: seq<Event>, n: nat)
    requires n < |es|
    ensures After(es[..n + 1]) == Next(After(es[..n]), es[n])
  {
    hide Next;
    assert es[..n + 1][..n] == es[..n];
  }

  // ---------- The pairing holds in every reachable state ----------

  /** The store is paired, and all its texts were handed out. */
  ghost predicate Good(w: World) {
    Paired(w.store) && w.store.access.Keys <= w.issued && w.store.refreshes.Keys <= w.issued
  }

  lemma StepKeeps(s: State, e: Event)
    requires Paired(s)
    requires Issues(s, e) !! s.access.Keys && Issues(s, e) !! s.refreshes.Keys
    ensures Paired(Step(s, e))
  {
    hide Paired, Mint, Rotate, Revoke, RevokeGrant, AccessToken, RefreshToken, Usable;
    match e
    case Create(g, ttl, withRefresh, d, now) => MintKeeps(s, g, ttl, withRefresh, d, now);
    case RevokeToken(token) => RevokeKeeps(s, token);
    case RotateToken(r, d, now) => RotateKeeps(s, r, d, now);
    case RevokeUser(client, user, apps) => RevokeGrantKeeps(s, client, user, apps);
  }

  lemma MintIssues(s: State, g: Grant, ttl: int, withRefresh: bool, d: Draw, now: int)
    ensures var t := Mint(s, g, ttl, withRefresh, d, now);
            && t.access.Keys == s.access.Keys + {AccessToken(g, d)}
            && t.refreshes.Keys == s.refreshes.Keys + if withRefresh then {RefreshToken(d)} else {}
  {
    hide AccessToken, RefreshToken;
  }

  lemma StepIssues(s: State, e: Event)
    ensures Step(s, e).access.Keys <= s.access.Keys + Issues(s, e)
    ensures Step(s, e).refreshes.Keys <= s.refreshes.Keys + Issues(s, e)
  {
    hide Mint, AccessToken, RefreshToken;
    match e
    case Create(g, ttl, withRefresh, d, now) => MintIssues(s, g, ttl, withRefresh, d, now);
    case RotateToken(r, d, now) =>
      if Usable(s, r, now) {
        MintIssues(State(s.access - Owners(s, r), s.refreshes - {r}), s.refreshes[r].grant, 8 * HOUR, true, d, now);
      }
    case RevokeToken(_) =>
    case RevokeUser(_, _, _) =>
  }

  /** In every reachable state refresh tokens and refresh values of access tokens are in bijection. */
  lemma {:induction false} AlwaysPaired(es: seq<Event>, n: nat)
    requires FreshHistory(es) && n <= |es|
    ensures Good(After(es[..n]))
  {
    if n == 0 {
      assert es[..0] == [];
    } else {
      hide After, Step, Issues;
      AlwaysPaired(es, n - 1);
      AfterLast(es, n - 1);
      assert FreshAt(es, n - 1);
      var w := After(es[..n - 1]);
      StepIssues(w.store, es[n - 1]);
      StepKeeps(w.store, es[n - 1]);
    }
  }

  // ---------- A refresh token rotates at most once ----------

  lemma NotReissued(es: seq<Event>, n: nat, t: string)
    requires FreshHistory(es) && n < |es| && t in After(es[..n]).issued
    ensures t !in Issues(After(es[..n]).store, es[n])
  {
    hide After, Issues;
    assert FreshAt(es, n);
  }

  lemma GoneAtNext(w: World, e: Event, t: string)
    requires t in w.issued && t !in Issues(w.store, e)
    ensures t in Next(w, e).issued
    ensures t !in w.store.access ==> t !in Next(w, e).store.access
    ensures t !in w.store.refreshes ==> t !in Next(w, e).store.refreshes
  {
    hide Step, Issues;
    StepIssues(w.store, e);
  }

  /** A text that was handed out and is no longer in the store never comes back. */
  lemma {:induction false} GoneStaysGone(es: seq<Event>, n: nat, m: nat, t: string)
    requires FreshHistory(es) && n <= m <= |es| && t in After(es[..n]).issued
    ensures t in After(es[..m]).issued
    ensures t !in After(es[..n]).store.access ==> t !in After(es[..m]).store.access
    ensures t !in After(es[..n]).store.refreshes ==> t !in After(es[..m]).store.refreshes
    decreases m
  {
    hide *;
    if n < m {
      GoneStaysGone(es, n, m - 1, t);
      AfterLast(es, m - 1);
      NotReissued(es, m - 1, t);
      GoneAtNext(After(es[..m - 1]), es[m - 1], t);
    }
  }

  lemma RotateSpends(s: State, r: string, d: Draw, now: int)
    requires Paired(s) && Usable(s, r, now) && FreshDraw(s, s.refreshes[r].grant, true, d)
    ensures r !in Rotate(s, r, d, now).refreshes && Owners(s, r) !! Rotate(s, r, d, now).access.Keys
  {
    hide AccessToken, RefreshToken;
    MintIssues(State(s.access - Owners(s, r), s.refreshes - {r}), s.refreshes[r].grant, 8 * HOUR, true, d, now);
  }

  lemma FreshRotation(es: seq<Event>, i: nat)
    requires FreshHistory(es) && i < |es| && es[i].RotateToken?
    requires Usable(After(es[..i]).store, es[i].refresh, es[i].now)
    ensures var s := After(es[..i]).store;
            Paired(s) && FreshDraw(s, s.refreshes[es[i].refresh].grant, true, es[i].draw)
  {
    hide After, Paired, AccessToken, RefreshToken;
    AlwaysPaired(es, i);
    assert FreshAt(es, i);
  }

  /** Once a refresh token was exchanged, neither it nor its access token is ever accepted again. */
  lemma RotatesOnce(es: seq<Event>, i: nat, j: nat, k: string)
    requires FreshHistory(es) && i < j <= |es| && es[i].RotateToken?
    requires Usable(After(es[..i]).store, es[i].refresh, es[i].now)
    requires k in Owners(After(es[..i]).store, es[i].refresh)
    ensures es[i].refresh !in After(es[..j]).store.refreshes && k !in After(es[..j]).store.access
  {
    hide After, Paired, Rotate;
    var s := After(es[..i]).store;
    AlwaysPaired(es, i);
    FreshRotation(es, i);
    RotateSpends(s, es[i].refresh, es[i].draw, es[i].now);
    AfterLast(es, i);
    GoneStaysGone(es, i + 1, j, es[i].refresh);
    GoneStaysGone(es, i + 1, j, k);
  }

  /** An exchange replaces one access token by one, and one refresh token by one, for the same grant. */
  lemma RotateReplacesOne(s: State, r: string, d: Draw, now: int) returns (k: string)
    requires Paired(s) && Usable(s, r, now) && FreshDraw(s, s.refreshes[r].grant, true, d)
    ensures k in s.access && s.access[k].refresh == r
    ensures var t := Rotate(s, r, d, now);
            var new' := AccessToken(s.access[k].grant, d);
            && t.access == (s.access - {k})[new' := Access(s.access[k].grant, now + 8 * HOUR, RefreshToken(d))]
            && t.refreshes.Keys == s.refreshes.Keys - {r} + {RefreshToken(d)}
            && |t.access| == |s.access|
  {
    hide AccessToken, RefreshToken;
    k :| k in s.access && s.access[k].refresh == r;
    assert Owners(s, r) == {k};
    PartnerGrant(s, k, r);
    var t := Rotate(s, r, d, now);
    var new' := AccessToken(s.access[k].grant, d);
    assert t.access.Keys == s.access.Keys - {k} + {new'};
  }

  // ---------- No rights appear or come back ----------

  /** All grants that some token of the store speaks for. */
  function Grants(s: State): set<Grant> {
    (set k | k in s.access :: s.access[k].grant) + (set r | r in s.refreshes :: s.refreshes[r].grant)
  }

  function Created(es: seq<Event>, n: nat): set<Grant>
    requires n <= |es|
  {
    set i | 0 <= i < n && es[i].Create? :: es[i].grant
  }

  lemma MintGrants(s: State, g: Grant, ttl: int, withRefresh: bool, d: Draw, now: int)
    ensures Grants(Mint(s, g, ttl, withRefresh, d, now)) <= Grants(s) + {g}
  {
    hide AccessToken, RefreshToken;
  }

  lemma LessGrants(s: State, t: State)
    requires forall k <- t.access :: k in s.access && t.access[k] == s.access[k]
    requires forall r <- t.refreshes :: r in s.refreshes && t.refreshes[r] == s.refreshes[r]
    ensures Grants(t) <= Grants(s)
  {
  }

  lemma RefreshGrant(s: State, r: string)
    requires r in s.refreshes
    ensures s.refreshes[r].grant in Grants(s)
  {
  }

  lemma StepGrants(s: State, e: Event)
    ensures Grants(Step(s, e)) <= Grants(s) + if e.Create? then {e.grant} else {}
  {
    hide Mint, Grants, Matches, AccessToken, RefreshToken;
    match e
    case Create(g, ttl, withRefresh, d, now) => MintGrants(s, g, ttl, withRefresh, d, now);
    case RotateToken(r, d, now) =>
      if Usable(s, r, now) {
        var t := State(s.access - Owners(s, r), s.refreshes - {r});
        LessGrants(s, t);
        MintGrants(t, s.refreshes[r].grant, 8 * HOUR, true, d, now);
        RefreshGrant(s, r);
      }
    case RevokeToken(_) => LessGrants(s, Step(s, e));
    case RevokeUser(_, _, _) => LessGrants(s, Step(s, e));
  }

  /** A token speaks for a user, client and scopes only if a token was created for exactly these. */
  lemma {:induction false} NoEscalation(es: seq<Event>, n: nat)
    requires n <= |es|
    ensures Grants(After(es[..n]).store) <= Created(es, n)
  {
    if n == 0 {
      assert es[..0] == [];
    } else {
      hide After, Step, Grants, Created, Issues;
      NoEscalation(es, n - 1);
      AfterLast(es, n - 1);
      StepGrants(After(es[..n - 1]).store, es[n - 1]);
      CreatedMore(es, n - 1);
    }
  }

  lemma CreatedMore(es: seq<Event>, n: nat)
    requires n < |es|
    ensures Created(es, n) <= Created(es, n + 1)
    ensures es[n].Create? ==> es[n].grant in Created(es, n + 1)
  {
  }

  /** After a grant was revoked, no token of that client for that user exists until one is created anew:
      exchanging refresh tokens cannot bring the grant back. */
  lemma {:induction false} GrantStaysRevoked(es: seq<Event>, i: nat, n: nat, g: Grant)
    requires i < n <= |es| && es[i].RevokeUser?
    requires forall j :: i < j < n && es[j].Create? ==>
               !Matches(es[j].grant, es[i].client, es[i].user, es[i].apps)
    requires g in Grants(After(es[..n]).store)
    ensures !Matches(g, es[i].client, es[i].user, es[i].apps)
    decreases n
  {
    hide After, Matches;
    AfterLast(es, n - 1);
    if i < n - 1 {
      hide Step, Grants;
      StepGrants(After(es[..n - 1]).store, es[n - 1]);
      if g in Grants(After(es[..n - 1]).store) {
        GrantStaysRevoked(es, i, n - 1, g);
      }
    }
  }
}
