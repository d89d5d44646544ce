/** User-to-server tokens and their refresh tokens (bleephub/gh_apps_user_tokens.go).
    Times are nanoseconds. Random draws are parameters; what is asked of them is that they be new. */
module UserTokens {
  import opened Options

  const HOUR := 3600 * 1000000000

  /** Whom a token speaks for: appId is set for a GitHub App, clientId for an OAuth App. */
  datatype Grant = Grant(userId: int, appId: int, clientId: string, scopes: string)

  datatype Access = Access(grant: Grant, expiresAt: int, refresh: string)

  datatype Refresh = Refresh(grant: Grant, expiresAt: int)

  datatype State = State(access: map<string, Access>, refreshes: map<string, Refresh>)

  /** The hexadecimal texts of the random bytes of one new pair. */
  datatype Draw = Draw(access: string, refresh: string)

  function AccessToken(g: Grant, d: Draw): string {
    (if g.appId > 0 then "ghu_" else "gho_") + d.access
  }

  function RefreshToken(d: Draw): string {
    "ghr_" + d.refresh
  }

  // ---------- What each operation does to the two maps ----------

  function Mint(s: State, g: Grant, ttl: int, withRefresh: bool, d: Draw, now: int): State {
    var expiresAt := now + if ttl <= 0 then 8 * HOUR else ttl;
    if withRefresh then
      State(s.access[AccessToken(g, d) := Access(g, expiresAt, RefreshToken(d))],
            s.refreshes[RefreshToken(d) := Refresh(g, now + 6 * 30 * 24 * HOUR)])
    else
      State(s.access[AccessToken(g, d) := Access(g, expiresAt, "")], s.refreshes)
  }

  function Revoke(s: State, token: string): State {
    if token !in s.access then s
    else State(s.access - {token}, s.refreshes - {s.access[token].refresh})
  }

  /** The access tokens paired with a refresh token: all of them, not just the first one found. */
  function Owners(s: State, r: string): set<string> {
    set k | k in s.access && s.access[k].refresh == r
  }

  predicate Usable(s: State, r: string, now: int) {
    r in s.refreshes && now <= s.refreshes[r].expiresAt
  }

  function Rotate(s: State, r: string, d: Draw, now: int): State {
    if !Usable(s, r, now) then s
    else Mint(State(s.access - Owners(s, r), s.refreshes - {r}), s.refreshes[r].grant, 8 * HOUR, true, d, now)
  }

  /** The grant is that of the client for the user; apps gives the app of a client id. */
  predicate Matches(g: Grant, client: string, user: int, apps: map<string, int>) {
    g.userId == user && (g.clientId == client || (g.appId > 0 && client in apps && apps[client] == g.appId))
  }

  function Hits(s: State, client: string, user: int, apps: map<string, int>): (r: set<string>)
    ensures r <= s.access.Keys
  {
    set k | k in s.access && Matches(s.access[k].grant, client, user, apps)
  }

  /** Every access token of the client and user goes, and every refresh token of that client and user. */
  function RevokeGrant(s: State, client: string, user: int, apps: map<string, int>): State {
    State(s.access - Hits(s, client, user, apps),
          map r | r in s.refreshes && !Matches(s.refreshes[r].grant, client, user, apps) :: s.refreshes[r])
  }

  // ---------- The pairing ----------

  /** An access token's refresh token is there and speaks for the same grant. */
  ghost predicate HasPartner(s: State, k: string)
    requires k in s.access
  {
    var r := s.access[k].refresh;
    r != "" ==> r in s.refreshes && s.refreshes[r].grant == s.access[k].grant
  }

  /** Refresh tokens are exactly the non-empty refresh values of access tokens, one each, for the same grant. */
  ghost predicate Paired(s: State) {
    && (forall k <- s.access :: HasPartner(s, k))
    && (forall k, l | k in s.access && l in s.access && s.access[k].refresh == s.access[l].refresh != "" :: k == l)
    && (forall r <- s.refreshes :: r != "" && exists k :: k in s.access && s.access[k].refresh == r)
  }

  ghost predicate FreshDraw(s: State, g: Grant, withRefresh: bool, d: Draw) {
    AccessToken(g, d) !in s.access && (withRefresh ==> RefreshToken(d) !in s.refreshes)
  }

  /** A new pair: the maps grow by one entry each, at keys that were free. */
  lemma AddPairKeeps(s: State, token: string, a: Access, r: string, rt: Refresh)
    requires Paired(s) && token !in s.access && r !in s.refreshes && r != "" && a.refresh == r && a.grant == rt.grant
    ensures Paired(State(s.access[token := a], s.refreshes[r := rt]))
  {
    var t := State(s.access[token := a], s.refreshes[r := rt]);
    assert forall k <- s.access :: HasPartner(s, k);
    forall q <- t.refreshes
      ensures q != "" && exists k :: k in t.access && t.access[k].refresh == q
    {
      var k := if q == r then token else var l :| l in s.access && s.access[l].refresh == q; l;
      assert k in t.access && t.access[k].refresh == q;
    }
  }

  lemma AddAccessKeeps(s: State, token: string, a: Access)
    requires Paired(s) && token !in s.access && a.refresh == ""
    ensures Paired(State(s.access[token := a], s.refreshes))
  {
    var t := State(s.access[token := a], s.refreshes);
    assert forall k <- s.access :: HasPartner(s, k);
    forall q <- t.refreshes
      ensures q != "" && exists k :: k in t.access && t.access[k].refresh == q
    {
      var l :| l in s.access && s.access[l].refresh == q;
      assert l in t.access && t.access[l].refresh == q;
    }
  }

  lemma MintKeeps(s: State, g: Grant, ttl: int, withRefresh: bool, d: Draw, now: int)
    requires Paired(s) && FreshDraw(s, g, withRefresh, d)
    ensures Paired(Mint(s, g, ttl, withRefresh, d, now))
  {
    hide Paired, AccessToken, HasPartner;
    var expiresAt := now + if ttl <= 0 then 8 * HOUR else ttl;
    if withRefresh {
      AddPairKeeps(s, AccessToken(g, d), Access(g, expiresAt, RefreshToken(d)), RefreshToken(d),
                   Refresh(g, now + 6 * 30 * 24 * HOUR));
    } else {
      AddAccessKeeps(s, AccessToken(g, d), Access(g, expiresAt, ""));
    }
  }

  /** r is the refresh token of one of the access tokens that go. */
  ghost predicate Orphaned(s: State, gone: set<string>, r: string) {
    exists k :: k in gone && k in s.access && s.access[k].refresh == r
  }

  /** Access tokens may go as long as exactly their refresh tokens go with them. */
  lemma DropKeeps(s: State, gone: set<string>, t: State)
    requires Paired(s) && t.access == s.access - gone
    requires forall r :: r in t.refreshes <==> r in s.refreshes && !Orphaned(s, gone, r)
    requires forall r <- t.refreshes :: t.refreshes[r] == s.refreshes[r]
    ensures Paired(t)
  {
    forall k <- t.access
      ensures HasPartner(t, k)
    {
      assert HasPartner(s, k);
    }
    forall r <- t.refreshes
      ensures r != "" && exists k :: k in t.access && t.access[k].refresh == r
    {
      var k :| k in s.access && s.access[k].refresh == r;
      assert k in t.access;
    }
  }

  lemma RevokeKeeps(s: State, token: string)
    requires Paired(s)
    ensures Paired(Revoke(s, token))
  {
    if token in s.access {
      var t := Revoke(s, token);
      var gone := {token};
      assert HasPartner(s, token);
      assert forall r :: Orphaned(s, gone, r) <==> r == s.access[token].refresh;
      DropKeeps(s, gone, t);
    }
  }

  lemma OwnerDropKeeps(s: State, r: string)
    requires Paired(s)
    ensures Paired(State(s.access - Owners(s, r), s.refreshes - {r}))
  {
    assert forall q :: Orphaned(s, Owners(s, r), q) ==> q == r;
    assert r in s.refreshes ==> Orphaned(s, Owners(s, r), r);
    DropKeeps(s, Owners(s, r), State(s.access - Owners(s, r), s.refreshes - {r}));
  }

  lemma RotateKeeps(s: State, r: string, d: Draw, now: int)
    requires Paired(s)
    requires Usable(s, r, now) ==> FreshDraw(s, s.refreshes[r].grant, true, d)
    ensures Paired(Rotate(s, r, d, now))
  {
    if Usable(s, r, now) {
      hide Mint, AccessToken, RefreshToken;
      OwnerDropKeeps(s, r);
      MintKeeps(State(s.access - Owners(s, r), s.refreshes - {r}), s.refreshes[r].grant, 8 * HOUR, true, d, now);
    }
  }

  /** A refresh token speaks for the grant of the access token it belongs to. */
  lemma PartnerGrant(s: State, k: string, r: string)
    requires Paired(s) && k in s.access && s.access[k].refresh == r && r in s.refreshes
    ensures s.refreshes[r].grant == s.access[k].grant
  {
    assert HasPartner(s, k);
  }

  /** Dropping the partners of the hit tokens drops exactly the refresh tokens of the client and user. */
  lemma HitPartners(s: State, client: string, user: int, apps: map<string, int>, r: string)
    requires Paired(s) && r in s.refreshes
    ensures Orphaned(s, Hits(s, client, user, apps), r) <==> Matches(s.refreshes[r].grant, client, user, apps)
  {
    hide Matches;
    var k :| k in s.access && s.access[k].refresh == r;
    PartnerGrant(s, k, r);
    forall l | l in s.access && s.access[l].refresh == r
      ensures l == k
    {
    }
  }

  lemma RevokeGrantKeeps(s: State, client: string, user: int, apps: map<string, int>)
    requires Paired(s)
    ensures Paired(RevokeGrant(s, client, user, apps))
  {
    hide Matches, Paired, Hits;
    forall r <- s.refreshes
      ensures Orphaned(s, Hits(s, client, user, apps), r) <==> Matches(s.refreshes[r].grant, client, user, apps)
    {
      HitPartners(s, client, user, apps, r);
    }
    DropKeeps(s, Hits(s, client, user, apps), RevokeGrant(s, client, user, apps));
  }

  // ---------- Revoking a grant, one token after the other ----------

  /** t is s without some access tokens and without exactly their refresh tokens. */
  ghost predicate Without(s: State, gone: set<string>, t: State) {
    && t.access == s.access - gone
    && (forall r :: r in t.refreshes <==> r in s.refreshes && !Orphaned(s, gone, r))
    && (forall r <- t.refreshes :: t.refreshes[r] == s.refreshes[r])
  }

  lemma VisitNone(s: State, hits: set<string>)
    requires hits <= s.access.Keys
    ensures |hits - s.access.Keys| == 0 && Without(s, hits - s.access.Keys, s)
  {
    assert hits - s.access.Keys == {};
  }

  /** One round of the loop over the access tokens, with the tokens of todo still to come. */
  lemma VisitOne(s: State, client: string, user: int, apps: map<string, int>, todo: set<string>, k: string, t: State)
    requires Paired(s) && k in todo && todo <= s.access.Keys && Without(s, Hits(s, client, user, apps) - todo, t)
    ensures k in t.access && "" !in t.refreshes
    ensures var hits := Hits(s, client, user, apps);
            if Matches(t.access[k].grant, client, user, apps) then
              && Without(s, hits - (todo - {k}), State(t.access - {k}, t.refreshes - {t.access[k].refresh}))
              && |hits - (todo - {k})| == |hits - todo| + 1
            else hits - (todo - {k}) == hits - todo
  {
    hide Matches;
    var hits := Hits(s, client, user, apps);
    if Matches(t.access[k].grant, client, user, apps) {
      assert hits - (todo - {k}) == (hits - todo) + {k};
      WithoutMore(s, hits - todo, k, t);
    } else {
      assert hits - (todo - {k}) == hits - todo;
    }
  }

  lemma VisitedAll(s: State, client: string, user: int, apps: map<string, int>, t: State)
    requires Paired(s) && Without(s, Hits(s, client, user, apps), t)
    ensures t == RevokeGrant(s, client, user, apps) && Paired(t)
  {
    hide *;
    WithoutHits(s, client, user, apps, t);
    RevokeGrantKeeps(s, client, user, apps);
  }

  lemma WithoutMore(s: State, gone: set<string>, k: string, t: State)
    requires Paired(s) && Without(s, gone, t) && k in s.access
    ensures Without(s, gone + {k}, State(t.access - {k}, t.refreshes - {s.access[k].refresh}))
  {
    assert t.access - {k} == s.access - (gone + {k});
    assert forall r :: Orphaned(s, gone + {k}, r) <==> Orphaned(s, gone, r) || r == s.access[k].refresh;
  }

  lemma WithoutHits(s: State, client: string, user: int, apps: map<string, int>, t: State)
    requires Paired(s) && Without(s, Hits(s, client, user, apps), t)
    ensures t == RevokeGrant(s, client, user, apps)
  {
    hide Paired, Matches, Orphaned, Hits;
    forall r <- s.refreshes
      ensures Orphaned(s, Hits(s, client, user, apps), r) <==> Matches(s.refreshes[r].grant, client, user, apps)
    {
      HitPartners(s, client, user, apps, r);
    }
    assert t.refreshes == RevokeGrant(s, client, user, apps).refreshes;
  }

  // ---------- The store ----------

  class TokenStore {
    var userTokens: map<string, Access>
    var refreshTokens: map<string, Refresh>

    ghost function Contents(): State
      reads this
    {
      State(userTokens, refreshTokens)
    }

    constructor ()
      ensures Contents() == State(map[], map[]) && Paired(Contents())
    {
      userTokens := map[];
      refreshTokens := map[];
    }

    method CreateUserToServerToken(g: Grant, ttl: int, withRefresh: bool, d: Draw, now: int)
      returns (token: string, refresh: Option<string>)
      requires Paired(Contents()) && FreshDraw(Contents(), g, withRefresh, d)
      modifies this
      ensures Contents() == Mint(old(Contents()), g, ttl, withRefresh, d, now)
      ensures Paired(Contents())
      ensures token == AccessToken(g, d) && refresh == if withRefresh then Some(RefreshToken(d)) else None
      ensures userTokens == old(userTokens)[token :=
                Access(g, now + if ttl <= 0 then 28800000000000 else ttl, if withRefresh then refresh.value else "")]
      ensures refreshTokens ==
              if withRefresh then old(refreshTokens)[refresh.value := Refresh(g, now + 15552000000000000)]
              else old(refreshTokens)
    {
      hide Paired, HasPartner;
      MintKeeps(Contents(), g, ttl, withRefresh, d, now);
      var lifetime := ttl;
      if lifetime <= 0 {
        lifetime := 8 * HOUR;
      }
      var prefix := "gho_";
      if g.appId > 0 {
        prefix := "ghu_";
      }
      token := prefix + d.access;
      var access := Access(g, now + lifetime, "");
      refresh := None;
      if withRefresh {
        var r := "ghr_" + d.refresh;
        refresh := Some(r);
        access := access.(refresh := r);
        refreshTokens := refreshTokens[r := Refresh(g, now + 6 * 30 * 24 * HOUR)];
      }
      userTokens := userTokens[token := access];
    }

    /** users is the user table; a token whose user is gone is found, without a user. */
    method LookupUserToServerToken<U>(token: string, now: int, users: map<int, U>) returns (r: Option<(Access, Option<U>)>)
      ensures r.Some? <==> token in userTokens && now <= userTokens[token].expiresAt
      ensures r.Some? ==> r.value.0 == userTokens[token]
      ensures r.Some? ==> r.value.1 == var id := userTokens[token].grant.userId; if id in users then Some(users[id]) else None
    {
      if token !in userTokens || now > userTokens[token].expiresAt {
        return None;
      }
      var access := userTokens[token];
      var user := None;
      if access.grant.userId in users {
        user := Some(users[access.grant.userId]);
      }
      return Some((access, user));
    }

    method RevokeUserToServerToken(token: string) returns (existed: bool)
      requires Paired(Contents())
      modifies this
      ensures Contents() == Revoke(old(Contents()), token) && Paired(Contents())
      ensures existed == (token in old(userTokens))
    {
      RevokeKeeps(Contents(), token);
      if token !in userTokens {
        return false;
      }
      assert "" !in refreshTokens;
      DropPair(token);
      return true;
    }

    /** The deletions that both revocations make for one access token. */
    method DropPair(k: string)
      requires k in userTokens && "" !in refreshTokens
      modifies this
      ensures Contents() == State(old(userTokens) - {k}, old(refreshTokens) - {old(userTokens)[k].refresh})
    {
      var v := userTokens[k];
      userTokens := userTokens - {k};
      if v.refresh != "" {
        refreshTokens := refreshTokens - {v.refresh};
      }
    }

    /** The loop of RotateUserToServerToken: the first owner met is deleted, and the pairing leaves no second one. */
    method DeleteOwner(r: string)
      requires Paired(Contents()) && r in refreshTokens
      modifies this`userTokens
      ensures Contents() == State(old(userTokens) - Owners(old(Contents()), r), old(refreshTokens))
    {
      var todo := userTokens.Keys;
      while todo != {}
        invariant userTokens == old(userTokens) && todo <= userTokens.Keys
        invariant forall k <- userTokens :: k !in todo ==> userTokens[k].refresh != r
        decreases todo
      {
        var k :| k in todo;
        if userTokens[k].refresh == r {
          assert Owners(old(Contents()), r) == {k};
          userTokens := userTokens - {k};
          break;
        }
        todo := todo - {k};
      }
    }

    /** The old pair goes and a new pair for the same grant comes, or nothing happens. */
    method RotateUserToServerToken(r: string, d: Draw, now: int) returns (pair: Option<(string, string)>)
      requires Paired(Contents())
      requires Usable(Contents(), r, now) ==> FreshDraw(Contents(), refreshTokens[r].grant, true, d)
      modifies this
      ensures Contents() == Rotate(old(Contents()), r, d, now) && Paired(Contents())
      ensures pair == if Usable(old(Contents()), r, now)
                      then Some((AccessToken(old(refreshTokens)[r].grant, d), RefreshToken(d))) else None
    {
      hide Mint, AccessToken, RefreshToken;
      RotateKeeps(Contents(), r, d, now);
      if r !in refreshTokens || now > refreshTokens[r].expiresAt {
        return None;
      }
      var rt := refreshTokens[r];
      DeleteOwner(r);
      refreshTokens := refreshTokens - {r};
      OwnerDropKeeps(old(Contents()), r);
      var token, refresh := CreateUserToServerToken(rt.grant, 8 * HOUR, true, d, now);
      return Some((token, refresh.value));
    }

    /** All tokens of the client for the user go, found through the access tokens; n counts the access tokens. */
    method RevokeUserGrant(client: string, user: int, apps: map<string, int>) returns (n: nat)
      requires Paired(Contents())
      modifies this
      ensures Contents() == RevokeGrant(old(Contents()), client, user, apps) && Paired(Contents())
      ensures n == |Hits(old(Contents()), client, user, apps)|
    {
      hide Paired, Matches, Without, Hits, RevokeGrant, Orphaned, Mint, Rotate, Revoke, Usable, Owners, HasPartner;
      ghost var s := Contents();
      ghost var hits := Hits(s, client, user, apps);
      n := 0;
      VisitNone(s, hits);
      var todo := userTokens.Keys;
      while todo != {}
        invariant todo <= s.access.Keys
        invariant n == |hits - todo| && Without(s, hits - todo, Contents())
        decreases todo
      {
        var k :| k in todo;
        VisitOne(s, client, user, apps, todo, k, Contents());
        var hit := IsHit(userTokens[k], client, user, apps);
        if hit {
          DropPair(k);
          n := n + 1;
        }
        todo := todo - {k};
      }
      assert hits - todo == hits;
      VisitedAll(s, client, user, apps, Contents());
    }

    /** Its test of one token. */
    method IsHit(v: Access, client: string, user: int, apps: map<string, int>) returns (hit: bool)
      ensures hit == Matches(v.grant, client, user, apps)
    {
      hit := false;
      if v.grant.userId == user {
        if v.grant.clientId == client {
          hit := true;
        } else if v.grant.appId > 0 {
          if client in apps && apps[client] == v.grant.appId {
            hit := true;
          }
        }
      }
    }
  }
}
