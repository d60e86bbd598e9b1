/** Which endpoints a request may see: the site context of a request, and the sets filtered by it. */
module SiteAccess {
  import opened Wrappers
  import opened Text
  import opened Permissions

  type SiteId = int

  datatype User = User(name: string, superuser: bool)

  datatype Membership = Membership(granted: set<Permission>, joined: int)

  datatype Site = Site(name: string, active: bool)

  /** A user has at most one membership in a site. */
  datatype Db = Db(sites: map<SiteId, Site>, memberships: map<(string, SiteId), Membership>,
                   endpoints: map<string, Option<SiteId>>)

  function ActiveSites(db: Db): set<SiteId> {
    set s | s in db.sites && db.sites[s].active
  }

  /** The active sites the user is a member of. */
  function MemberSites(db: Db, u: User): set<SiteId> {
    set s | s in db.sites && db.sites[s].active && (u.name, s) in db.memberships
  }

  function SitesWithPermission(db: Db, u: User, p: Permission): set<SiteId> {
    if u.superuser then ActiveSites(db)
    else set s | s in MemberSites(db, u) && p in db.memberships[(u.name, s)].granted
  }

  function AllEndpoints(db: Db): set<string> {
    set e | e in db.endpoints
  }

  function EndpointsOf(db: Db, sites: set<SiteId>): set<string> {
    set e | e in db.endpoints && db.endpoints[e].Some? && db.endpoints[e].value in sites
  }

  function UnassignedEndpoints(db: Db): set<string> {
    set e | e in db.endpoints && db.endpoints[e].None?
  }

  // ---- the order of names

  /** The order of strings by the code points of their characters. */
  predicate NotAfter(a: string, b: string) {
    a == [] || (b != [] && (a[0] < b[0] || (a[0] == b[0] && NotAfter(a[1..], b[1..]))))
  }

  /** A string comes no later than the strings it begins, and than those that have a greater character
      at the first place where they differ. */
  lemma {:induction false} NotAfterExactly(a: string, b: string, k: nat)
    requires k <= |a| && k <= |b| && a[..k] == b[..k]
    requires k < |a| && k < |b| ==> a[k] != b[k]
    ensures k == |a| ==> NotAfter(a, b)
    ensures k < |a| && k == |b| ==> !NotAfter(a, b)
    ensures k < |a| && k < |b| ==> (NotAfter(a, b) <==> a[k] < b[k])
  {
    if k > 0 {
      assert a[0] == a[..k][0] == b[..k][0] == b[0];
      assert a[1..][..k - 1] == a[..k][1..] && b[1..][..k - 1] == b[..k][1..];
      NotAfterExactly(a[1..], b[1..], k - 1);
    }
  }

  lemma {:induction false} NotAfterTotal(a: string, b: string)
    ensures NotAfter(a, b) || NotAfter(b, a)
    ensures NotAfter(a, b) && NotAfter(b, a) ==> a == b
  {
    if a != [] && b != [] && a[0] == b[0] {
      NotAfterTotal(a[1..], b[1..]);
      assert a == [a[0]] + a[1..] && b == [b[0]] + b[1..];
    }
  }

  lemma {:induction false} NotAfterTransitive(a: string, b: string, c: string)
    requires NotAfter(a, b) && NotAfter(b, c)
    ensures NotAfter(a, c)
  {
    if a != [] && a[0] == b[0] == c[0] {
      NotAfterTransitive(a[1..], b[1..], c[1..]);
    }
  }

  // ---- the context of a request

  datatype Key = NoKey | AllKey | UnassignedKey | SiteKey(id: SiteId)

  /** What the session holds as the chosen site; `Other` is text that is not a site number. */
  datatype Chosen = Nothing | All | Unassigned | Id(id: SiteId) | Other

  /** `membership` is None when the request carries none, else the permissions it grants. */
  datatype Context = Context(key: Key, site: Option<SiteId>, membership: Option<set<Permission>>, available: set<SiteId>)

  function Available(db: Db, u: User): set<SiteId> {
    if u.superuser then ActiveSites(db) else MemberSites(db, u)
  }

  /** The membership that is listed first: the one joined last. */
  predicate IsFirstMembership(db: Db, u: User, s: SiteId) {
    && s in MemberSites(db, u)
    && forall t :: t in MemberSites(db, u) ==> db.memberships[(u.name, t)].joined <= db.memberships[(u.name, s)].joined
  }

  /** The active site that is listed first: the one with the least name. */
  predicate IsFirstSite(db: Db, s: SiteId) {
    s in ActiveSites(db) && forall t :: t in ActiveSites(db) ==> NotAfter(db.sites[s].name, db.sites[t].name)
  }

  /** _get_default_site: nothing, or a first site with its key, and for a member the membership. */
  ghost predicate IsDefault(db: Db, u: User, c: Context) {
    && c.available == Available(db, u)
    && if Available(db, u) == {} then c.key == NoKey && c.site == None && c.membership == None
       else
         && c.site.Some? && c.key == SiteKey(c.site.value)
         && if u.superuser then IsFirstSite(db, c.site.value) && c.membership == None
            else IsFirstMembership(db, u, c.site.value)
                 && c.membership == Some(db.memberships[(u.name, c.site.value)].granted)
  }

  /** The contexts the middleware may give a request whose session holds `chosen`. */
  ghost predicate IsContext(db: Db, u: User, chosen: Chosen, c: Context) {
    match chosen
    case Nothing => IsDefault(db, u, c)
    case All => c == Context(AllKey, None, None, Available(db, u))
    case Unassigned => u.superuser && c == Context(UnassignedKey, None, None, Available(db, u))
    case Id(s) =>
      if s !in Available(db, u) then IsDefault(db, u, c)
      else c == Context(SiteKey(s), Some(s), if u.superuser then None else Some(db.memberships[(u.name, s)].granted),
                        Available(db, u))
    case Other => false
  }

  // ---- permissions and endpoints

  function HasSitePermission(db: Db, u: User, c: Context, p: Permission): bool {
    if u.superuser then true
    else if c.key == AllKey then SitesWithPermission(db, u, p) != {}
    else c.membership.Some? && p in c.membership.value
  }

  function SiteFilteredEndpoints(db: Db, u: User, c: Context, p: Option<Permission>): set<string> {
    if c.key == UnassignedKey then if u.superuser then UnassignedEndpoints(db) else {}
    else if u.superuser then
      if c.key == AllKey then AllEndpoints(db)
      else if c.site.Some? then EndpointsOf(db, {c.site.value}) else {}
    else if c.key == AllKey then
      EndpointsOf(db, if p.None? then c.available else SitesWithPermission(db, u, p.value))
    else if c.site.None? then {}
    else if p.Some? && !HasSitePermission(db, u, c, p.value) then {}
    else EndpointsOf(db, {c.site.value})
  }

  /** What a non-superuser may see at most: endpoints of active sites with a membership that grants
      the permission, or with any membership if none is asked for. */
  function Allowed(db: Db, u: User, p: Option<Permission>): set<string>
    requires !u.superuser
  {
    EndpointsOf(db, if p.None? then MemberSites(db, u) else SitesWithPermission(db, u, p.value))
  }

  /** Whatever the session holds, a non-superuser sees nothing outside the allowed endpoints; a
      revoked or inactive choice falls back to a site of the user's own. */
  lemma NothingBeyondMemberships(db: Db, u: User, chosen: Chosen, c: Context, p: Option<Permission>)
    requires !u.superuser && IsContext(db, u, chosen, c)
    ensures SiteFilteredEndpoints(db, u, c, p) <= Allowed(db, u, p)
  {
  }

  /** The user's membership in active site `s` grants `p`, or is there at all if none is asked for. */
  predicate Grants(db: Db, u: User, s: SiteId, p: Option<Permission>) {
    && s in db.sites && db.sites[s].active && (u.name, s) in db.memberships
    && (p.Some? ==> p.value in db.memberships[(u.name, s)].granted)
  }

  /** The site of a request that a user may be given: active, and one of the user's own. */
  lemma ContextSite(db: Db, u: User, chosen: Chosen, c: Context)
    requires IsContext(db, u, chosen, c)
    ensures c.key.SiteKey? <==> c.site.Some?
    ensures c.site.Some? ==>
              && c.key == SiteKey(c.site.value) && c.site.value in db.sites && db.sites[c.site.value].active
              && (!u.superuser ==> Grants(db, u, c.site.value, None)
                                   && c.membership == Some(db.memberships[(u.name, c.site.value)].granted))
    ensures chosen.Id? && chosen.id in db.sites && db.sites[chosen.id].active && (u.superuser || Grants(db, u, chosen.id, None)) ==>
              c.key == SiteKey(chosen.id)
    ensures chosen == All <==> c.key == AllKey
    ensures c.key == UnassignedKey <==> chosen == Unassigned && u.superuser
  {
  }

  /** Which endpoints a request shows, in every context: a superuser sees all, the unassigned, or the
      site's; any other user those of the memberships, or of the one site, that grant the permission. */
  lemma VisibleExactly(db: Db, u: User, chosen: Chosen, c: Context, p: Option<Permission>, e: string)
    requires IsContext(db, u, chosen, c)
    ensures e in SiteFilteredEndpoints(db, u, c, p) <==>
            e in db.endpoints &&
            match c.key
            case NoKey => false
            case UnassignedKey => u.superuser && db.endpoints[e] == None
            case AllKey => u.superuser || (db.endpoints[e].Some? && Grants(db, u, db.endpoints[e].value, p))
            case SiteKey(s) => db.endpoints[e] == Some(s) && (u.superuser || Grants(db, u, s, p))
  {
    ContextSite(db, u, chosen, c);
  }

  /** When a permission holds in the context of a request: always for a superuser; with all sites
      chosen exactly when some active membership grants it; with one site when that membership does. */
  lemma PermissionExactly(db: Db, u: User, chosen: Chosen, c: Context, p: Permission)
    requires IsContext(db, u, chosen, c)
    ensures HasSitePermission(db, u, c, p) <==>
            u.superuser ||
            match c.key
            case AllKey => exists s :: s in db.sites && Grants(db, u, s, Some(p))
            case SiteKey(s) => Grants(db, u, s, Some(p))
            case _ => false
  {
    ContextSite(db, u, chosen, c);
    NotEmpty(SitesWithPermission(db, u, p));
    assert forall s :: s in MemberSites(db, u) && p in db.memberships[(u.name, s)].granted <==> Grants(db, u, s, Some(p));
    assert !u.superuser ==> forall s :: s in SitesWithPermission(db, u, p) <==> Grants(db, u, s, Some(p));
  }

  /** An endpoint in sight implies the permission to see it. */
  lemma SeeingImpliesPermission(db: Db, u: User, chosen: Chosen, c: Context, p: Permission)
    requires IsContext(db, u, chosen, c) && SiteFilteredEndpoints(db, u, c, Some(p)) != {}
    ensures HasSitePermission(db, u, c, p)
  {
    if !u.superuser && c.key == AllKey {
      var e :| e in SiteFilteredEndpoints(db, u, c, Some(p));
      assert db.endpoints[e].value in SitesWithPermission(db, u, p);
    }
  }

  /** Endpoint `e` is seen with site `s` chosen. */
  ghost predicate SeenAt(db: Db, u: User, s: SiteId, p: Permission, e: string) {
    exists c :: IsContext(db, u, Id(s), c) && e in SiteFilteredEndpoints(db, u, c, Some(p))
  }

  /** The "all" view of a non-superuser is the disjoint union of the single-site views: an endpoint
      is in it exactly when it is seen at one of the user's active sites, and then at no other. */
  lemma AllIsDisjointUnion(db: Db, u: User, p: Permission, c: Context, e: string)
    requires !u.superuser && IsContext(db, u, All, c)
    ensures e in SiteFilteredEndpoints(db, u, c, Some(p)) <==>
            exists s :: s in MemberSites(db, u) && SeenAt(db, u, s, p, e)
    ensures forall s, t :: s in MemberSites(db, u) && t in MemberSites(db, u) && SeenAt(db, u, s, p, e) ==>
              SeenAt(db, u, t, p, e) ==> s == t
  {
    if e in SiteFilteredEndpoints(db, u, c, Some(p)) {
      var s := db.endpoints[e].value;
      var at := Context(SiteKey(s), Some(s), Some(db.memberships[(u.name, s)].granted), Available(db, u));
      assert IsContext(db, u, Id(s), at) && e in SiteFilteredEndpoints(db, u, at, Some(p));
      assert SeenAt(db, u, s, p, e);
    }
    forall s | s in MemberSites(db, u) && SeenAt(db, u, s, p, e)
      ensures db.endpoints[e] == Some(s) && e in SiteFilteredEndpoints(db, u, c, Some(p))
    {
      var at :| IsContext(db, u, Id(s), at) && e in SiteFilteredEndpoints(db, u, at, Some(p));
      assert s in SitesWithPermission(db, u, p);
    }
  }

  // ---- the middleware

  lemma NotEmpty(sites: set<SiteId>)
    ensures sites == {} || exists s :: s in sites
  {
    assert (forall s :: s !in sites) ==> sites == {};
  }

  lemma {:induction false} FirstMembershipExists(db: Db, u: User, sites: set<SiteId>)
    requires sites != {} && sites <= MemberSites(db, u)
    ensures exists s :: LastJoined(db, u, sites, s)
  {
    NotEmpty(sites);
    var s :| s in sites;
    var rest := sites - {s};
    if rest == {} {
      assert sites == {s};
      assert LastJoined(db, u, sites, s);
    } else {
      FirstMembershipExists(db, u, rest);
      var t :| LastJoined(db, u, rest, t);
      assert sites == rest + {s};
      assert LastJoined(db, u, sites, if db.memberships[(u.name, t)].joined < db.memberships[(u.name, s)].joined then s else t);
    }
  }

  predicate LastJoined(db: Db, u: User, sites: set<SiteId>, s: SiteId)
    requires sites <= MemberSites(db, u)
  {
    s in sites && forall t :: t in sites ==> db.memberships[(u.name, t)].joined <= db.memberships[(u.name, s)].joined
  }

  predicate LeastName(db: Db, sites: set<SiteId>, s: SiteId)
    requires sites <= ActiveSites(db)
  {
    s in sites && forall t :: t in sites ==> NotAfter(db.sites[s].name, db.sites[t].name)
  }

  lemma {:induction false} FirstSiteExists(db: Db, sites: set<SiteId>)
    requires sites != {} && sites <= ActiveSites(db)
    ensures exists s :: LeastName(db, sites, s)
  {
    NotEmpty(sites);
    var s :| s in sites;
    var rest := sites - {s};
    NotAfterTotal(db.sites[s].name, db.sites[s].name);
    if rest == {} {
      assert sites == {s};
      assert LeastName(db, sites, s);
    } else {
      FirstSiteExists(db, rest);
      var t :| LeastName(db, rest, t);
      assert sites == rest + {s};
      var a, b := db.sites[s].name, db.sites[t].name;
      NotAfterTotal(a, b);
      if NotAfter(a, b) {
        forall v | v in rest ensures NotAfter(a, db.sites[v].name) {
          NotAfterTransitive(a, b, db.sites[v].name);
        }
        assert LeastName(db, sites, s);
      } else {
        assert LeastName(db, sites, t);
      }
    }
  }

  class Request {
    var site: Option<SiteId>
    var siteMembership: Option<set<Permission>>
    var currentSiteKey: Key
    var availableSites: set<SiteId>
    var chosen: Chosen  // current_site_id of the session

    constructor (chosen: Chosen)
      ensures this.chosen == chosen && Carried() == Context(NoKey, None, None, {})
    {
      site, siteMembership, currentSiteKey, availableSites := None, None, NoKey, {};
      this.chosen := chosen;
    }

    function Carried(): Context
      reads this
    {
      Context(currentSiteKey, site, siteMembership, availableSites)
    }

    /** _get_default_site, with the assignment of what it returns. */
    method UseDefaultSite(db: Db, u: User)
      requires availableSites == Available(db, u) && currentSiteKey == NoKey && siteMembership == None
      modifies this
      ensures IsDefault(db, u, Carried())
      ensures site.Some? && !u.superuser ==>
                && Grants(db, u, site.value, None)
                && forall s :: s in db.sites && Grants(db, u, s, None) ==>
                     db.memberships[(u.name, s)].joined <= db.memberships[(u.name, site.value)].joined
      ensures chosen == if Available(db, u) == {} then old(chosen) else Id(site.value)
    {
      if availableSites == {} {
        site := None;
        return;
      }
      var first: SiteId;
      if u.superuser {
        FirstSiteExists(db, ActiveSites(db));
        ghost var s :| LeastName(db, ActiveSites(db), s);
        assert IsFirstSite(db, s);
        first :| first in ActiveSites(db)
                 && forall t :: t in ActiveSites(db) ==> NotAfter(db.sites[first].name, db.sites[t].name);
      } else {
        FirstMembershipExists(db, u, MemberSites(db, u));
        ghost var s :| LastJoined(db, u, MemberSites(db, u), s);
        assert IsFirstMembership(db, u, s);
        first :| first in MemberSites(db, u)
                 && forall t :: t in MemberSites(db, u) ==>
                      db.memberships[(u.name, t)].joined <= db.memberships[(u.name, first)].joined;
        siteMembership := Some(db.memberships[(u.name, first)].granted);
      }
      site := Some(first);
      currentSiteKey := SiteKey(first);
      chosen := Id(first);
      assert forall s :: s in db.sites && Grants(db, u, s, None) <==> s in MemberSites(db, u);
    }

    /** SiteContextMiddleware for an authenticated user. The session it leaves names the site in use,
        so the next request gets the same context. */
    method SetContext(db: Db, u: User) returns (ok: bool)
      requires Carried() == Context(NoKey, None, None, {})
      modifies this
      ensures ok <==> !old(chosen).Other? && (old(chosen).Unassigned? ==> u.superuser)
      ensures ok ==> IsContext(db, u, old(chosen), Carried())
      ensures ok && currentSiteKey.SiteKey? ==> chosen == Id(currentSiteKey.id) && IsContext(db, u, chosen, Carried())
    {
      availableSites := Available(db, u);
      match chosen {
        case Nothing => UseDefaultSite(db, u);
        case All => currentSiteKey := AllKey;
        case Unassigned =>
          if !u.superuser {
            return false;
          }
          currentSiteKey := UnassignedKey;
        case Other => return false;
        case Id(s) =>
          if u.superuser {
            if s in ActiveSites(db) {
              site := Some(s);
              currentSiteKey := SiteKey(s);
            } else {
              UseDefaultSite(db, u);
            }
          } else if s in db.sites && db.sites[s].active && (u.name, s) in db.memberships {
            site := Some(s);
            siteMembership := Some(db.memberships[(u.name, s)].granted);
            currentSiteKey := SiteKey(s);
          } else {
            UseDefaultSite(db, u);
          }
      }
      ok := true;
    }
  }
}
