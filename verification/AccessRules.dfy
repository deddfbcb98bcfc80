/**
 What one request may do: a user's own access, narrowed by a token and by a role limit, and
 extended to previews. The loops are stated by their effect, the rank of the role they leave
 on each site and on the server.
 */
module AccessRules {
  import opened Basics

  /** A role as stored; anything unknown ranks below viewer. */
  datatype Role = NoRole | SitesRole | Viewer | Operator | Admin | Other(name: string)

  datatype Grant = Grant(site: string, role: Role)

  /** Server-wide, or limited to sites when the role is `SitesRole`. */
  datatype Access = Access(role: Role, sites: seq<Grant>)

  datatype User = User(role: Role, sites: seq<Grant>)

  /** A token's restriction; no role and no list restrict nothing. */
  datatype Token = Token(role: Role, siteIds: Option<seq<string>>)

  function Rank(r: Role): nat {
    match r
    case Viewer => 1
    case Operator => 2
    case Admin => 3
    case _ => 0
  }

  function Lesser(a: Role, b: Role): (r: Role)
    ensures Rank(r) == Min(Rank(a), Rank(b))
  {
    if Rank(a) <= Rank(b) then a else b
  }

  predicate Scoped(a: Access) {
    a.role == SitesRole
  }

  predicate Restricted(t: Token) {
    t.role != NoRole || t.siteIds.Some?
  }

  // ---- effect

  /** The best rank the grants give on a site. */
  function BestRank(grants: seq<Grant>, site: string): (r: nat)
    ensures r <= Rank(Admin)
  {
    if grants == [] then 0
    else
      var g := grants[|grants| - 1];
      Max(BestRank(grants[..|grants| - 1], site), if g.site == site then Rank(g.role) else 0)
  }

  function SiteRank(a: Access, site: string): nat {
    if Scoped(a) then BestRank(a.sites, site) else Rank(a.role)
  }

  function ServerRank(a: Access): nat {
    if Scoped(a) then 0 else Rank(a.role)
  }

  lemma {:induction false} BestRankIs(grants: seq<Grant>, site: string)
    ensures forall g :: g in grants && g.site == site ==> Rank(g.role) <= BestRank(grants, site)
    ensures BestRank(grants, site) > 0 ==>
              exists g :: g in grants && g.site == site && Rank(g.role) == BestRank(grants, site)
  {
    if grants != [] {
      BestRankIs(grants[..|grants| - 1], site);
      assert grants == grants[..|grants| - 1] + [grants[|grants| - 1]];
    }
  }

  lemma BestRankAppend(grants: seq<Grant>, g: Grant, site: string)
    ensures BestRank(grants + [g], site) == Max(BestRank(grants, site), if g.site == site then Rank(g.role) else 0)
  {
    assert (grants + [g])[..|grants|] == grants;
  }

  /** The role on one site is the strongest grant there, or the server-wide role. */
  method SiteRole(a: Access, site: string) returns (best: Role)
    ensures Rank(best) == SiteRank(a, site)
    ensures best != NoRole && Scoped(a) ==> Grant(site, best) in a.sites
  {
    if !Scoped(a) {
      return a.role;
    }
    best := NoRole;
    for i := 0 to |a.sites|
      invariant Rank(best) == BestRank(a.sites[..i], site)
      invariant best != NoRole ==> Grant(site, best) in a.sites
    {
      var g := a.sites[i];
      assert a.sites[..i + 1] == a.sites[..i] + [g];
      BestRankAppend(a.sites[..i], g, site);
      if g.site == site && Rank(g.role) > Rank(best) {
        best := g.role;
        assert Grant(site, best) == g;
      }
    }
    assert a.sites[..|a.sites|] == a.sites;
  }

  /** Grants count for at most operator. */
  function Capped(grants: seq<Grant>): seq<Grant> {
    if grants == [] then []
    else
      var g := grants[|grants| - 1];
      Capped(grants[..|grants| - 1]) + [Grant(g.site, Lesser(g.role, Operator))]
  }

  lemma {:induction false} CappedRank(grants: seq<Grant>, site: string)
    ensures BestRank(Capped(grants), site) == Min(BestRank(grants, site), Rank(Operator))
  {
    if grants != [] {
      CappedRank(grants[..|grants| - 1], site);
    }
  }

  method UserAccess(u: User) returns (a: Access)
    ensures a == if u.role == SitesRole then Access(SitesRole, Capped(u.sites)) else Access(u.role, [])
    ensures forall s :: SiteRank(a, s)
                     == if u.role == SitesRole then Min(BestRank(u.sites, s), Rank(Operator)) else Rank(u.role)
  {
    if u.role != SitesRole {
      return Access(u.role, []);
    }
    var grants := [];
    for i := 0 to |u.sites|
      invariant grants == Capped(u.sites[..i])
    {
      var g := u.sites[i];
      assert u.sites[..i + 1][..i] == u.sites[..i];
      grants := grants + [Grant(g.site, Lesser(g.role, Operator))];
    }
    assert u.sites[..|u.sites|] == u.sites;
    forall s ensures BestRank(grants, s) == Min(BestRank(u.sites, s), Rank(Operator)) {
      CappedRank(u.sites, s);
    }
    return Access(SitesRole, grants);
  }

  // ---- restriction

  /** The most a token's role leaves; without one it limits nothing. */
  function RoleLimit(t: Token): nat {
    if t.role == NoRole then Rank(Admin) else Rank(t.role)
  }

  predicate Covers(t: Token, site: string) {
    t.siteIds.None? || site in t.siteIds.value
  }

  /** The most a token leaves on a site to an access that is server-wide, or not. */
  function Ceiling(t: Token, wide: bool, site: string): nat {
    if !Restricted(t) then Rank(Admin)
    else if !Covers(t, site) then 0
    else Min(RoleLimit(t), if wide && t.siteIds.Some? then Rank(Operator) else Rank(Admin))
  }

  /** `b` is exactly the meet of `a` and the token, on every site and on the server. */
  ghost predicate Meets(a: Access, t: Token, b: Access) {
    && (forall s :: SiteRank(b, s) == Min(SiteRank(a, s), Ceiling(t, !Scoped(a), s)))
    && ServerRank(b) == (if t.siteIds.Some? then 0 else Min(ServerRank(a), RoleLimit(t)))
    && (Scoped(a) || t.siteIds.Some? ==> Scoped(b))
  }

  function Limited(r: Role, t: Token): (l: Role)
    ensures Rank(l) == Min(Rank(r), RoleLimit(t))
  {
    if t.role != NoRole then Lesser(r, t.role) else r
  }

  /** The access a request with this token has; without one it is the owner's. */
  method Restrict(a: Access, token: Option<Token>) returns (b: Access)
    ensures token.None? ==> b == a
    ensures token.Some? ==> Meets(a, token.value, b)
  {
    if token.None? || !Restricted(token.value) {
      return a;
    }
    var t := token.value;
    if !Scoped(a) && t.siteIds.None? {
      return Access(Limited(a.role, t), []);
    }
    var grants: seq<Grant>;
    if Scoped(a) {
      grants := NarrowGrants(a.sites, t);
    } else {
      grants := GrantEach(t.siteIds.value, Limited(Lesser(a.role, Operator), t));
    }
    return Access(SitesRole, grants);
  }

  method NarrowGrants(sites: seq<Grant>, t: Token) returns (grants: seq<Grant>)
    ensures forall s :: BestRank(grants, s) == if Covers(t, s) then Min(BestRank(sites, s), RoleLimit(t)) else 0
  {
    grants := [];
    for i := 0 to |sites|
      invariant forall s :: BestRank(grants, s)
                         == if Covers(t, s) then Min(BestRank(sites[..i], s), RoleLimit(t)) else 0
    {
      var g := sites[i];
      var next := if Covers(t, g.site) then grants + [Grant(g.site, Limited(g.role, t))] else grants;
      forall s ensures BestRank(next, s) == if Covers(t, s) then Min(BestRank(sites[..i + 1], s), RoleLimit(t)) else 0 {
        assert sites[..i + 1] == sites[..i] + [g];
        BestRankAppend(sites[..i], g, s);
        BestRankAppend(grants, Grant(g.site, Limited(g.role, t)), s);
      }
      grants := next;
    }
    assert sites[..|sites|] == sites;
  }

  method GrantEach(ids: seq<string>, role: Role) returns (grants: seq<Grant>)
    ensures forall s :: BestRank(grants, s) == if s in ids then Rank(role) else 0
  {
    grants := [];
    for i := 0 to |ids|
      invariant forall s :: BestRank(grants, s) == if s in ids[..i] then Rank(role) else 0
    {
      forall s ensures BestRank(grants + [Grant(ids[i], role)], s) == if s in ids[..i + 1] then Rank(role) else 0 {
        assert ids[..i + 1] == ids[..i] + [ids[i]];
        BestRankAppend(grants, Grant(ids[i], role), s);
      }
      grants := grants + [Grant(ids[i], role)];
    }
    assert ids[..|ids|] == ids;
  }

  /** The role limit another server's proxy sends, valid for the three real roles only. */
  method LimitAccess(a: Access, limit: Role) returns (b: Access, ok: bool)
    ensures ok <==> Rank(limit) > 0
    ensures ok ==> Meets(a, Token(limit, None), b)
    ensures !ok ==> b == a
  {
    match limit
    case Viewer | Operator | Admin =>
      b := Restrict(a, Some(Token(limit, None)));
      ok := true;
    case _ =>
      return a, false;
  }

  /** The rank two restrictions leave on a site, whichever comes first. */
  function BothCeilings(a: Access, t: Token, u: Token, s: string): nat {
    Min(SiteRank(a, s), Min(Ceiling(t, !Scoped(a), s), Ceiling(u, !Scoped(a), s)))
  }

  lemma TwiceRestricted(a: Access, t: Token, u: Token, at: Access, atu: Access, s: string)
    requires Meets(a, t, at) && Meets(at, u, atu)
    ensures SiteRank(atu, s) == BothCeilings(a, t, u, s)
    ensures ServerRank(atu)
         == if t.siteIds.Some? || u.siteIds.Some? then 0 else Min(ServerRank(a), Min(RoleLimit(t), RoleLimit(u)))
  {
    assert SiteRank(at, s) == Min(SiteRank(a, s), Ceiling(t, !Scoped(a), s));
    assert SiteRank(atu, s) == Min(SiteRank(at, s), Ceiling(u, !Scoped(at), s));
  }

  /** Two restrictions have the same effect in either order. */
  lemma RestrictionsCommute(a: Access, t: Token, u: Token, at: Access, atu: Access, au: Access, aut: Access, s: string)
    requires Meets(a, t, at) && Meets(at, u, atu) && Meets(a, u, au) && Meets(au, t, aut)
    ensures SiteRank(atu, s) == SiteRank(aut, s) && ServerRank(atu) == ServerRank(aut)
  {
    hide Meets;
    TwiceRestricted(a, t, u, at, atu, s);
    TwiceRestricted(a, u, t, au, aut, s);
  }

  // ---- previews

  /** The best rank grants give on `site` as a preview of the sites they are for. */
  function PreviewRank(grants: seq<Grant>, previews: string -> seq<string>, site: string): nat {
    if grants == [] then 0
    else
      var g := grants[|grants| - 1];
      Max(PreviewRank(grants[..|grants| - 1], previews, site), if site in previews(g.site) then Rank(g.role) else 0)
  }

  lemma {:induction false} PreviewRankIs(grants: seq<Grant>, previews: string -> seq<string>, site: string)
    ensures forall g :: g in grants && site in previews(g.site) ==> Rank(g.role) <= PreviewRank(grants, previews, site)
    ensures PreviewRank(grants, previews, site) > 0 ==>
              exists g :: g in grants && site in previews(g.site) && Rank(g.role) == PreviewRank(grants, previews, site)
  {
    if grants != [] {
      PreviewRankIs(grants[..|grants| - 1], previews, site);
      assert grants == grants[..|grants| - 1] + [grants[|grants| - 1]];
    }
  }

  /** The rank on a site once previews count as the sites they belong to. */
  function ExtendedRank(a: Access, previews: string -> seq<string>, s: string): nat {
    if Scoped(a) then Max(BestRank(a.sites, s), PreviewRank(a.sites, previews, s)) else Rank(a.role)
  }

  /** Extends an access to the previews of its sites, at the same roles. */
  method WithPreviews(a: Access, previews: string -> seq<string>) returns (b: Access)
    ensures forall s :: SiteRank(b, s) == ExtendedRank(a, previews, s)
    ensures b.role == a.role && (!Scoped(a) ==> b == a)
  {
    if !Scoped(a) {
      return a;
    }
    var sites := a.sites;
    for i := 0 to |a.sites|
      invariant forall s :: BestRank(sites, s) == Max(BestRank(a.sites, s), PreviewRank(a.sites[..i], previews, s))
    {
      var g := a.sites[i];
      ghost var before := sites;
      sites := AddPreviews(sites, previews(g.site), g.role);
      forall s ensures BestRank(sites, s) == Max(BestRank(a.sites, s), PreviewRank(a.sites[..i + 1], previews, s)) {
        assert a.sites[..i + 1][..i] == a.sites[..i];
        assert BestRank(before, s) == Max(BestRank(a.sites, s), PreviewRank(a.sites[..i], previews, s));
      }
    }
    assert a.sites[..|a.sites|] == a.sites;
    return Access(a.role, sites);
  }

  method AddPreviews(sites: seq<Grant>, ids: seq<string>, role: Role) returns (out: seq<Grant>)
    ensures forall s :: BestRank(out, s) == Max(BestRank(sites, s), if s in ids then Rank(role) else 0)
  {
    out := sites;
    for i := 0 to |ids|
      invariant forall s :: BestRank(out, s) == Max(BestRank(sites, s), if s in ids[..i] then Rank(role) else 0)
    {
      var g := Grant(ids[i], role);
      forall s ensures BestRank(out + [g], s) == Max(BestRank(sites, s), if s in ids[..i + 1] then Rank(role) else 0) {
        assert ids[..i + 1] == ids[..i] + [ids[i]];
        BestRankAppend(out, g, s);
      }
      out := out + [g];
    }
    assert ids[..|ids|] == ids;
  }

  // ---- the whole chain

  /** `b` allows no more than `a`, anywhere. */
  ghost predicate Within(b: Access, a: Access) {
    && (forall s :: SiteRank(b, s) <= SiteRank(a, s))
    && ServerRank(b) <= ServerRank(a)
    && (Scoped(a) ==> Scoped(b))
  }

  /** The site is one of the given ones or a preview of one. */
  predicate Reaches(ids: seq<string>, previews: string -> seq<string>, s: string) {
    s in ids || exists id :: id in ids && s in previews(id)
  }

  /** `p` is the site itself or one it is a preview of. */
  predicate CountsFor(p: string, previews: string -> seq<string>, s: string) {
    p == s || s in previews(p)
  }

  /** `n` is the best rank an access has on the site and on the sites it is a preview of. */
  ghost predicate BestOver(n: nat, a: Access, previews: string -> seq<string>, s: string) {
    && (forall p :: CountsFor(p, previews, s) ==> SiteRank(a, p) <= n)
    && (exists p :: CountsFor(p, previews, s) && SiteRank(a, p) == n)
  }

  /** Extended to previews, an access has exactly the best of its ranks on the site and its parents. */
  lemma ExtendedIsBest(a: Access, previews: string -> seq<string>, s: string)
    ensures BestOver(ExtendedRank(a, previews, s), a, previews, s)
  {
    var n := ExtendedRank(a, previews, s);
    assert CountsFor(s, previews, s);
    if Scoped(a) {
      PreviewRankIs(a.sites, previews, s);
      if PreviewRank(a.sites, previews, s) > BestRank(a.sites, s) {
        var g :| g in a.sites && s in previews(g.site) && Rank(g.role) == PreviewRank(a.sites, previews, s);
        BestRankIs(a.sites, g.site);
        NoBetter(a, previews, s, g.site);
        assert CountsFor(g.site, previews, s) && SiteRank(a, g.site) == n;
      } else {
        assert SiteRank(a, s) == n;
      }
      forall p | CountsFor(p, previews, s) ensures SiteRank(a, p) <= n {
        NoBetter(a, previews, s, p);
      }
    } else {
      assert SiteRank(a, s) == n;
    }
  }

  lemma NoBetter(a: Access, previews: string -> seq<string>, s: string, p: string)
    requires Scoped(a) && CountsFor(p, previews, s)
    ensures SiteRank(a, p) <= ExtendedRank(a, previews, s)
  {
    BestRankIs(a.sites, p);
    PreviewRankIs(a.sites, previews, s);
    if p != s && BestRank(a.sites, p) > 0 {
      var g :| g in a.sites && g.site == p && Rank(g.role) == BestRank(a.sites, p);
      assert s in previews(g.site);
    }
  }

  /** Extending to previews keeps a narrower access narrower. */
  lemma PreviewsMonotone(b: Access, a: Access, previews: string -> seq<string>, s: string)
    requires Within(b, a)
    ensures ExtendedRank(b, previews, s) <= ExtendedRank(a, previews, s)
  {
    assert SiteRank(b, s) <= SiteRank(a, s);
    if Scoped(b) && PreviewRank(b.sites, previews, s) > 0 {
      PreviewRankIs(b.sites, previews, s);
      var g :| g in b.sites && s in previews(g.site) && Rank(g.role) == PreviewRank(b.sites, previews, s);
      BestRankIs(b.sites, g.site);
      assert Rank(g.role) <= SiteRank(b, g.site) <= SiteRank(a, g.site);
      if Scoped(a) {
        BestRankIs(a.sites, g.site);
        var g' :| g' in a.sites && g'.site == g.site && Rank(g'.role) == BestRank(a.sites, g.site);
        PreviewRankIs(a.sites, previews, s);
      }
    }
  }

  /** A user's own rank on a site. */
  function UserRank(u: User, s: string): nat {
    if u.role == SitesRole then Min(BestRank(u.sites, s), Rank(Operator)) else Rank(u.role)
  }

  /** The most a request's token and role limit leave on a site; `wide` if its user is not limited to sites. */
  function Leaves(token: Option<Token>, limit: Option<Role>, wide: bool, s: string): nat {
    Min(if token.Some? then Ceiling(token.value, wide, s) else Rank(Admin),
        if limit.Some? then Rank(limit.value) else Rank(Admin))
  }

  /** The meet of user, token and limit on one site. */
  function MeetRank(u: User, token: Option<Token>, limit: Option<Role>, s: string): nat {
    Min(UserRank(u, s), Leaves(token, limit, u.role != SitesRole, s))
  }

  /** The meet on the server as a whole. */
  function ServerMeet(u: User, token: Option<Token>, limit: Option<Role>): nat {
    if u.role == SitesRole || (token.Some? && token.value.siteIds.Some?) then 0
    else Min(Rank(u.role), Min(if token.Some? then RoleLimit(token.value) else Rank(Admin),
                               if limit.Some? then Rank(limit.value) else Rank(Admin)))
  }

  /** `n` is the best meet of user, token and limit over a site and the sites it is a preview of. */
  ghost predicate BestMeet(n: nat, u: User, token: Option<Token>, limit: Option<Role>,
                           previews: string -> seq<string>, s: string)
  {
    && (forall p :: CountsFor(p, previews, s) ==> MeetRank(u, token, limit, p) <= n)
    && (exists p :: CountsFor(p, previews, s) && MeetRank(u, token, limit, p) == n)
  }

  lemma RankAtMostAdmin(a: Access, s: string)
    ensures SiteRank(a, s) <= Rank(Admin)
  {
  }

  /** User, then token, then role limit: exactly their meet, on every site and on the server. */
  method NarrowedAccess(u: User, token: Option<Token>, limit: Option<Role>) returns (acc: Access, ok: bool)
    ensures ok <==> limit.None? || Rank(limit.value) > 0
    ensures ok ==>
              && ServerRank(acc) == ServerMeet(u, token, limit)
              && forall s :: SiteRank(acc, s) == MeetRank(u, token, limit, s)
    ensures !ok ==>
              && ServerRank(acc) == ServerMeet(u, token, None)
              && forall s :: SiteRank(acc, s) == MeetRank(u, token, None, s)
  {
    hide BestRank, Capped, Meets, MeetRank, ServerMeet;
    var base := UserAccess(u);
    var acc0 := Restrict(base, token);
    acc, ok := acc0, true;
    if limit.Some? {
      acc, ok := LimitAccess(acc0, limit.value);
    }
    forall s ensures SiteRank(acc, s) == MeetRank(u, token, if ok then limit else None, s) {
      MeetOfThree(u, base, token, acc0, if ok then limit else None, acc, s);
    }
    MeetOfThree(u, base, token, acc0, if ok then limit else None, acc, "");
  }

  lemma MeetOfThree(u: User, base: Access, token: Option<Token>, acc0: Access, limit: Option<Role>, acc: Access,
                    s: string)
    requires SiteRank(base, s) == UserRank(u, s) && base.role == u.role
    requires token.None? ==> acc0 == base
    requires token.Some? ==> Meets(base, token.value, acc0)
    requires limit.None? ==> acc == acc0
    requires limit.Some? ==> Rank(limit.value) > 0 && Meets(acc0, Token(limit.value, None), acc)
    ensures SiteRank(acc, s) == MeetRank(u, token, limit, s) && ServerRank(acc) == ServerMeet(u, token, limit)
  {
    hide BestRank, SiteRank;
    RankAtMostAdmin(base, s);
    if token.Some? {
      assert SiteRank(acc0, s) == Min(SiteRank(base, s), Ceiling(token.value, !Scoped(base), s));
    }
    if limit.Some? {
      assert SiteRank(acc, s) == Min(SiteRank(acc0, s), Rank(limit.value));
    }
  }

  /**
   The access of a request: what user, token and role limit leave, extended to previews. On every site it is
   exactly the best of the three's meet there and on the sites it is a preview of, and on the server their meet:
   never more than the user has, than the token's role or than the limit.
   */
  method RequestAccess(u: User, token: Option<Token>, limit: Option<Role>, previews: string -> seq<string>)
    returns (acc: Access, ok: bool)
    ensures ok <==> limit.None? || Rank(limit.value) > 0
    ensures ok ==> ServerRank(acc) == ServerMeet(u, token, limit)
    ensures ok ==> forall s :: BestMeet(SiteRank(acc, s), u, token, limit, previews, s)
  {
    hide BestRank, PreviewRank, Capped, MeetRank, ServerMeet, ExtendedRank;
    var acc0;
    acc0, ok := NarrowedAccess(u, token, limit);
    acc := WithPreviews(acc0, previews);
    forall s ensures ok ==> BestMeet(SiteRank(acc, s), u, token, limit, previews, s) {
      ExtendedIsBest(acc0, previews, s);
      if ok {
        var n := ExtendedRank(acc0, previews, s);
        var p :| CountsFor(p, previews, s) && SiteRank(acc0, p) == n;
        assert CountsFor(p, previews, s) && MeetRank(u, token, limit, p) == n;
      }
    }
  }

  /** So a request never has more than its user with previews, nor than its token's role and its limit. */
  lemma RequestWithin(u: User, token: Option<Token>, limit: Option<Role>, previews: string -> seq<string>,
                      s: string, n: nat, own: nat)
    requires BestMeet(n, u, token, limit, previews, s) && BestMeet(own, u, None, None, previews, s)
    ensures n <= own && (limit.Some? ==> n <= Rank(limit.value)) && (token.Some? ==> n <= RoleLimit(token.value))
    ensures token.Some? && token.value.siteIds.Some? && n > 0 ==> Reaches(token.value.siteIds.value, previews, s)
  {
    hide BestRank, MeetRank;
    var p :| CountsFor(p, previews, s) && MeetRank(u, token, limit, p) == n;
    assert MeetRank(u, None, None, p) <= own;
    MeetWithin(u, token, limit, p);
  }

  lemma MeetWithin(u: User, token: Option<Token>, limit: Option<Role>, p: string)
    ensures var n := MeetRank(u, token, limit, p);
            && n <= MeetRank(u, None, None, p) && (limit.Some? ==> n <= Rank(limit.value))
            && (token.Some? ==> n <= RoleLimit(token.value) && (n > 0 ==> Covers(token.value, p)))
  {
    hide BestRank;
  }
}
