/** Loading a scenario: the reconciliation of sites, users, memberships and devices with a file. */
module Scenario {
  import opened Wrappers
  import opened Text
  import opened Permissions

  // ---- the database

  const ADMIN := "ADMIN"
  const USER := "USER"

  datatype Site = Site(description: string, active: bool)
  datatype User = User(superuser: bool, staff: bool)
  datatype Membership = Membership(role: string, granted: set<Permission>)
  datatype Device = Device(site: Option<string>, registered: bool)

  /** Memberships are keyed by user name and site name. Passwords are left out. */
  datatype Db = Db(sites: map<string, Site>, users: map<string, User>,
                   memberships: map<(string, string), Membership>, devices: map<string, Device>)

  // ---- the scenario file

  datatype SiteEntry = SiteEntry(name: string, description: string)

  /** `permissions` holds what the file spells out; an absent role is `None`. */
  datatype MemberEntry = MemberEntry(site: string, role: Option<string>, permissions: map<Permission, bool>)

  datatype UserEntry = UserEntry(username: string, password: string, superuser: bool, sites: seq<MemberEntry>)

  datatype Assignment = Assignment(site: string, devices: seq<int>)

  datatype Config = Config(sites: seq<SiteEntry>, users: seq<UserEntry>, assignments: seq<Assignment>, count: int)

  // ---- a membership row

  /** What the role grants when a row is created without saying otherwise. */
  function RoleDefaults(role: string): set<Permission> {
    {ViewOverview, ViewDataAnalysis} + if role == ADMIN then {ViewFirmware, ManageFirmware, PerformOperations} else {}
  }

  /** apply_role_defaults(preserve_explicit=True): only the fields not given keep to the role. */
  function WithRoleDefaults(m: Membership, explicit: set<Permission>): Membership {
    m.(granted := set p | p in PERMISSIONS && if p in explicit then p in m.granted else p in RoleDefaults(m.role))
  }

  function RoleOf(e: MemberEntry): string {
    if e.role.Some? then e.role.value else USER
  }

  function DefaultFor(p: Permission, role: string): bool {
    match p
    case ViewOverview => true
    case ViewDataAnalysis => true
    case ManageDevices => false
    case _ => role == ADMIN
  }

  /** The row the entry asks for: each permission as spelled out, or by role. */
  function Wanted(e: MemberEntry): Membership {
    Membership(RoleOf(e), set p | p in PERMISSIONS &&
      if p in e.permissions then e.permissions[p] else DefaultFor(p, RoleOf(e)))
  }

  /** update_or_create: a new row goes through the role defaults, an old one does not. All six
      fields are given explicitly, so it makes no difference. */
  function Upserted(ms: map<(string, string), Membership>, key: (string, string), e: MemberEntry): map<(string, string), Membership> {
    ms[key := if key in ms then Wanted(e) else WithRoleDefaults(Wanted(e), PERMISSIONS)]
  }

  lemma CreatedOrUpdatedAlike(ms: map<(string, string), Membership>, key: (string, string), e: MemberEntry)
    ensures Upserted(ms, key, e) == ms[key := Wanted(e)]
  {
    assert WithRoleDefaults(Wanted(e), PERMISSIONS).granted == Wanted(e).granted;
  }

  /** What a membership line of the file grants: each permission as spelled out; where the file is
      silent, every role may view overview and data analysis, ADMIN also view and manage firmware and
      perform operations, and no role manage devices. The role is USER unless the line says else. */
  lemma WantedExactly(e: MemberEntry, p: Permission)
    ensures Wanted(e).role == if e.role.Some? then e.role.value else "USER"
    ensures p in Wanted(e).granted <==>
            if p in e.permissions then e.permissions[p]
            else p in {ViewOverview, ViewDataAnalysis} ||
                 (e.role == Some("ADMIN") && p in {ViewFirmware, ManageFirmware, PerformOperations})
  {
  }

  /** A membership that is created with some permissions given keeps those, and gets the others by
      its role, in the same way. */
  lemma RoleDefaultsExactly(m: Membership, explicit: set<Permission>, p: Permission)
    ensures WithRoleDefaults(m, explicit).role == m.role
    ensures p in WithRoleDefaults(m, explicit).granted <==>
            if p in explicit then p in m.granted
            else p in {ViewOverview, ViewDataAnalysis} ||
                 (m.role == "ADMIN" && p in {ViewFirmware, ManageFirmware, PerformOperations})
  {
  }

  // ---- the loops

  function LoadSites(sites: map<string, Site>, entries: seq<SiteEntry>): map<string, Site> {
    if entries == [] then sites
    else
      var e := entries[|entries| - 1];
      LoadSites(sites, entries[..|entries| - 1])[e.name := Site(e.description, true)]
  }

  function Upsert(ms: map<(string, string), Membership>, user: string, entries: seq<MemberEntry>): map<(string, string), Membership> {
    if entries == [] then ms
    else
      var e := entries[|entries| - 1];
      Upserted(Upsert(ms, user, entries[..|entries| - 1]), (user, e.site), e)
  }

  function SiteNames(entries: seq<MemberEntry>): set<string> {
    set i | 0 <= i < |entries| :: entries[i].site
  }

  function LoadMemberships(ms: map<(string, string), Membership>, u: UserEntry): map<(string, string), Membership> {
    if u.superuser then map k | k in ms && k.0 != u.username :: ms[k]
    else
      var added := Upsert(ms, u.username, u.sites);
      map k | k in added && (k.0 != u.username || k.1 in SiteNames(u.sites)) :: added[k]
  }

  function LoadUsers(db: Db, entries: seq<UserEntry>): Db {
    if entries == [] then db
    else
      var d, u := LoadUsers(db, entries[..|entries| - 1]), entries[|entries| - 1];
      d.(users := d.users[u.username := User(u.superuser, u.superuser)],
         memberships := LoadMemberships(d.memberships, u))
  }

  function DeviceName(id: int): string {
    "urn:imei:" + Signed(id)
  }

  /** get_or_create with this site, or a move of the existing device. */
  function Assigned(devices: map<string, Device>, id: int, site: string): map<string, Device> {
    var name := DeviceName(id);
    devices[name := if name in devices then devices[name].(site := Some(site)) else Device(Some(site), false)]
  }

  function Created(devices: map<string, Device>, id: int): map<string, Device> {
    if DeviceName(id) in devices then devices else devices[DeviceName(id) := Device(None, false)]
  }

  function MovesTo(a: Assignment): seq<(int, string)> {
    seq(|a.devices|, i requires 0 <= i < |a.devices| => (a.devices[i], a.site))
  }

  /** The assignments to known sites, as one list of moves. */
  function Moves(assignments: seq<Assignment>, known: set<string>): seq<(int, string)> {
    if assignments == [] then []
    else
      var a := assignments[|assignments| - 1];
      Moves(assignments[..|assignments| - 1], known) +
      if a.site in known then MovesTo(a) else []
  }

  function AssignAll(devices: map<string, Device>, moves: seq<(int, string)>): map<string, Device> {
    if moves == [] then devices
    else Assigned(AssignAll(devices, moves[..|moves| - 1]), moves[|moves| - 1].0, moves[|moves| - 1].1)
  }

  /** Every device id the file mentions, also under unknown sites. */
  function Mentioned(assignments: seq<Assignment>): set<int> {
    set i, j | 0 <= i < |assignments| && 0 <= j < |assignments[i].devices| :: assignments[i].devices[j]
  }

  function CreateAll(devices: map<string, Device>, mentioned: set<int>, n: nat): map<string, Device> {
    if n == 0 then devices
    else
      var before := CreateAll(devices, mentioned, n - 1);
      if n in mentioned then before else Created(before, n)
  }

  function KnownSites(c: Config): set<string> {
    set i | 0 <= i < |c.sites| :: c.sites[i].name
  }

  function LoadDevices(devices: map<string, Device>, c: Config): map<string, Device> {
    if c.count == 0 then devices
    else
      var placed := AssignAll(devices, Moves(c.assignments, KnownSites(c)));
      if c.count < 0 then placed else CreateAll(placed, Mentioned(c.assignments), c.count)
  }

  /** Everything a load can complain about. */
  predicate Valid(c: Config) {
    && c.sites != [] && c.users != []
    && (forall i :: 0 <= i < |c.sites| ==> c.sites[i].name != "")
    && (forall i :: 0 <= i < |c.users| ==> UserValid(c, c.users[i]))
  }

  predicate UserValid(c: Config, u: UserEntry) {
    && u.username != "" && u.password != ""
    && (!u.superuser ==> forall j :: 0 <= j < |u.sites| ==> u.sites[j].site in KnownSites(c))
  }

  lemma KnownSite(c: Config, name: string)
    ensures name in KnownSites(c) <==> exists s :: s in c.sites && s.name == name
  {
    if s :| s in c.sites && s.name == name {
      var i :| 0 <= i < |c.sites| && c.sites[i] == s;
    }
  }

  /** A file can be loaded exactly if it has sites and users, no site without a name, no user without
      a name or a password, and no membership of an ordinary user in a site it does not define. */
  lemma ValidExactly(c: Config)
    ensures Valid(c) <==>
            && |c.sites| > 0 && |c.users| > 0
            && (forall s :: s in c.sites ==> s.name != "")
            && (forall u :: u in c.users ==>
                  && u.username != "" && u.password != ""
                  && (!u.superuser ==> forall e :: e in u.sites ==> exists s :: s in c.sites && s.name == e.site))
  {
    forall name: string ensures name in KnownSites(c) <==> exists s :: s in c.sites && s.name == name {
      KnownSite(c, name);
    }
    forall u | u in c.users
      ensures UserValid(c, u) <==>
              && u.username != "" && u.password != ""
              && (!u.superuser ==> forall e :: e in u.sites ==> exists s :: s in c.sites && s.name == e.site)
    {
      assert forall j :: 0 <= j < |u.sites| ==> u.sites[j] in u.sites;
    }
    assert forall i :: 0 <= i < |c.sites| ==> c.sites[i] in c.sites;
    assert forall i :: 0 <= i < |c.users| ==> c.users[i] in c.users;
  }

  /** The database a valid file leads to. */
  function Loaded(db: Db, c: Config): Db {
    var d := LoadUsers(db.(sites := LoadSites(db.sites, c.sites)), c.users);
    d.(devices := LoadDevices(d.devices, c))
  }

  // ---- what the loops amount to

  function Without(ms: map<(string, string), Membership>, users: set<string>): map<(string, string), Membership> {
    map k | k in ms && k.0 !in users :: ms[k]
  }

  /** The memberships of one entry; a site that is listed twice keeps its last line. */
  function EntryRows(u: UserEntry): map<(string, string), Membership> {
    if u.superuser then map[] else RowsOf(u.username, u.sites)
  }

  function RowsOf(user: string, entries: seq<MemberEntry>): map<(string, string), Membership> {
    if entries == [] then map[]
    else
      var e := entries[|entries| - 1];
      RowsOf(user, entries[..|entries| - 1])[(user, e.site) := Wanted(e)]
  }

  lemma {:induction false} RowsKeys(user: string, entries: seq<MemberEntry>, k: (string, string))
    ensures k in RowsOf(user, entries) <==> k.0 == user && k.1 in SiteNames(entries)
  {
    if entries != [] {
      var n := |entries| - 1;
      RowsKeys(user, entries[..n], k);
      assert SiteNames(entries) == SiteNames(entries[..n]) + {entries[n].site};
    }
  }

  lemma {:induction false} UpsertRows(ms: map<(string, string), Membership>, user: string, entries: seq<MemberEntry>)
    ensures Upsert(ms, user, entries) == ms + RowsOf(user, entries)
  {
    if entries != [] {
      var n := |entries| - 1;
      UpsertRows(ms, user, entries[..n]);
      CreatedOrUpdatedAlike(Upsert(ms, user, entries[..n]), (user, entries[n].site), entries[n]);
    }
  }

  /** One user entry replaces all memberships of its user. */
  lemma MembershipsReplaced(ms: map<(string, string), Membership>, u: UserEntry)
    ensures LoadMemberships(ms, u) == Without(ms, {u.username}) + EntryRows(u)
  {
    if !u.superuser {
      UpsertRows(ms, u.username, u.sites);
      forall k: (string, string)
        ensures k in RowsOf(u.username, u.sites) <==> k.0 == u.username && k.1 in SiteNames(u.sites)
      {
        RowsKeys(u.username, u.sites, k);
      }
    }
  }

  function UserNames(entries: seq<UserEntry>): set<string> {
    set i | 0 <= i < |entries| :: entries[i].username
  }

  /** The last entry of a user counts. */
  function LastEntry(entries: seq<UserEntry>, user: string): Option<UserEntry> {
    if entries == [] then None
    else if entries[|entries| - 1].username == user then Some(entries[|entries| - 1])
    else LastEntry(entries[..|entries| - 1], user)
  }

  lemma {:induction false} LastEntryKnown(entries: seq<UserEntry>, user: string)
    ensures LastEntry(entries, user).Some? <==> user in UserNames(entries)
    ensures LastEntry(entries, user).Some? ==> LastEntry(entries, user).value.username == user
  {
    if entries != [] {
      var n := |entries| - 1;
      LastEntryKnown(entries[..n], user);
      assert UserNames(entries) == UserNames(entries[..n]) + {entries[n].username};
    }
  }

  /** Users and memberships after all entries, key by key: what the last entry of the user says,
      or what was there before if the file does not name the user. */
  lemma {:induction false} UsersLoaded(db: Db, entries: seq<UserEntry>, user: string, site: string)
    ensures var d := LoadUsers(db, entries);
            var last := LastEntry(entries, user);
            && d.sites == db.sites && d.devices == db.devices
            && (if last.Some?
                then && user in d.users && d.users[user] == User(last.value.superuser, last.value.superuser)
                     && ((user, site) in d.memberships <==> (user, site) in EntryRows(last.value))
                     && ((user, site) in d.memberships ==> d.memberships[(user, site)] == EntryRows(last.value)[(user, site)])
                else && (user in d.users <==> user in db.users)
                     && (user in d.users ==> d.users[user] == db.users[user])
                     && ((user, site) in d.memberships <==> (user, site) in db.memberships)
                     && ((user, site) in d.memberships ==> d.memberships[(user, site)] == db.memberships[(user, site)]))
  {
    if entries != [] {
      var n := |entries| - 1;
      var u, before := entries[n], LoadUsers(db, entries[..n]);
      UsersLoaded(db, entries[..n], user, site);
      MembershipsReplaced(before.memberships, u);
      if !u.superuser {
        RowsKeys(u.username, u.sites, (user, site));
      }
    }
  }

  /** After a load, the memberships of every user the file names are exactly those of the user's
      last entry with the permissions written there, none for a superuser; whatever the database
      held before. All other users keep theirs. */
  lemma MembershipsExactlyAsConfigured(db: Db, c: Config, user: string, site: string)
    ensures var d := Loaded(db, c);
            match LastEntry(c.users, user)
            case None =>
              && ((user, site) in d.memberships <==> (user, site) in db.memberships)
              && ((user, site) in d.memberships ==> d.memberships[(user, site)] == db.memberships[(user, site)])
            case Some(u) =>
              && ((user, site) in d.memberships <==> !u.superuser && site in SiteNames(u.sites))
              && ((user, site) in d.memberships ==> exists j: nat :: LastLine(u.sites, site, j) && d.memberships[(user, site)] == Wanted(u.sites[j]))
  {
    UsersLoaded(db.(sites := LoadSites(db.sites, c.sites)), c.users, user, site);
    LastEntryKnown(c.users, user);
    var last := LastEntry(c.users, user);
    if last.Some? && !last.value.superuser {
      RowsKeys(user, last.value.sites, (user, site));
      if site in SiteNames(last.value.sites) {
        var j := RowOfLastLine(user, last.value.sites, site);
      }
    }
  }

  /** Line `j` is the last that names `site`. */
  predicate LastLine(entries: seq<MemberEntry>, site: string, j: nat) {
    j < |entries| && entries[j].site == site && forall i :: j < i < |entries| ==> entries[i].site != site
  }

  lemma {:induction false} RowOfLastLine(user: string, entries: seq<MemberEntry>, site: string) returns (j: nat)
    requires site in SiteNames(entries)
    ensures LastLine(entries, site, j)
    ensures (user, site) in RowsOf(user, entries) && RowsOf(user, entries)[(user, site)] == Wanted(entries[j])
  {
    var n := |entries| - 1;
    if entries[n].site == site {
      j := n;
    } else {
      assert SiteNames(entries) == SiteNames(entries[..n]) + {entries[n].site};
      j := RowOfLastLine(user, entries[..n], site);
    }
  }

  // ---- loading twice

  function LastSite(entries: seq<SiteEntry>, name: string): Option<Site> {
    if entries == [] then None
    else if entries[|entries| - 1].name == name then Some(Site(entries[|entries| - 1].description, true))
    else LastSite(entries[..|entries| - 1], name)
  }

  lemma {:induction false} SitesLoaded(sites: map<string, Site>, entries: seq<SiteEntry>, name: string)
    ensures var after, last := LoadSites(sites, entries), LastSite(entries, name);
            if last.Some? then name in after && after[name] == last.value
            else (name in after <==> name in sites) && (name in after ==> after[name] == sites[name])
  {
    if entries != [] {
      SitesLoaded(sites, entries[..|entries| - 1], name);
    }
  }

  function LastMove(moves: seq<(int, string)>, name: string): Option<string> {
    if moves == [] then None
    else if DeviceName(moves[|moves| - 1].0) == name then Some(moves[|moves| - 1].1)
    else LastMove(moves[..|moves| - 1], name)
  }

  lemma {:induction false} DevicesAssigned(devices: map<string, Device>, moves: seq<(int, string)>, name: string)
    ensures var after, last := AssignAll(devices, moves), LastMove(moves, name);
            if last.Some?
            then name in after && after[name] == Device(last, name in devices && devices[name].registered)
            else (name in after <==> name in devices) && (name in after ==> after[name] == devices[name])
  {
    if moves != [] {
      DevicesAssigned(devices, moves[..|moves| - 1], name);
    }
  }

  predicate IsPlaceholder(mentioned: set<int>, n: nat, name: string) {
    exists i :: 1 <= i <= n && i !in mentioned && DeviceName(i) == name
  }

  lemma {:induction false} DevicesCreated(devices: map<string, Device>, mentioned: set<int>, n: nat, name: string)
    ensures var after := CreateAll(devices, mentioned, n);
            && (name in after <==> name in devices || IsPlaceholder(mentioned, n, name))
            && (name in after ==> after[name] == if name in devices then devices[name] else Device(None, false))
  {
    if n > 0 {
      DevicesCreated(devices, mentioned, n - 1, name);
      assert IsPlaceholder(mentioned, n, name) <==>
             IsPlaceholder(mentioned, n - 1, name) || (n !in mentioned && DeviceName(n) == name);
    }
  }

  lemma DeviceNamesDiffer(a: int, b: int)
    ensures DeviceName(a) == DeviceName(b) <==> a == b
  {
    SignedReads(a);
    SignedReads(b);
    assert DeviceName(a)[9..] == Signed(a) && DeviceName(b)[9..] == Signed(b);
  }

  lemma {:induction false} LastMoveConcat(a: seq<(int, string)>, b: seq<(int, string)>, name: string)
    ensures LastMove(a + b, name) == if LastMove(b, name).Some? then LastMove(b, name) else LastMove(a, name)
  {
    if b == [] {
      assert a + b == a;
    } else {
      assert (a + b)[..|a + b| - 1] == a + b[..|b| - 1];
      LastMoveConcat(a, b[..|b| - 1], name);
    }
  }

  lemma LastMoveOneMore(moves: seq<(int, string)>, id: int, site: string, name: string)
    ensures LastMove(moves + [(id, site)], name) == if DeviceName(id) == name then Some(site) else LastMove(moves, name)
  {
    assert (moves + [(id, site)])[..|moves|] == moves;
  }

  lemma MovesOneMore(site: string, devices: seq<int>, id: int)
    ensures MovesTo(Assignment(site, devices + [id])) == MovesTo(Assignment(site, devices)) + [(id, site)]
  {
  }

  lemma {:induction false} LastMoveAmong(site: string, devices: seq<int>, id: int, name: string)
    requires forall k :: DeviceName(k) == name <==> k == id
    ensures LastMove(MovesTo(Assignment(site, devices)), name) == if id in devices then Some(site) else None
  {
    if devices != [] {
      var before, last := devices[..|devices| - 1], devices[|devices| - 1];
      assert devices == before + [last];
      LastMoveAmong(site, before, id, name);
      MovesOneMore(site, before, last);
      LastMoveOneMore(MovesTo(Assignment(site, before)), last, site, name);
    }
  }

  lemma {:induction false} LastMoveTo(a: Assignment, id: int)
    ensures LastMove(MovesTo(a), DeviceName(id)) == if id in a.devices then Some(a.site) else None
  {
    forall k ensures DeviceName(k) == DeviceName(id) <==> k == id {
      DeviceNamesDiffer(k, id);
    }
    LastMoveAmong(a.site, a.devices, id, DeviceName(id));
    assert a == Assignment(a.site, a.devices);
  }

  /** The site of the last line that is under a known site and names the device. */
  function LastLineFor(assignments: seq<Assignment>, known: set<string>, id: int): Option<string> {
    if assignments == [] then None
    else
      var a := assignments[|assignments| - 1];
      if a.site in known && id in a.devices then Some(a.site)
      else LastLineFor(assignments[..|assignments| - 1], known, id)
  }

  lemma {:induction false} MovesFollowLines(assignments: seq<Assignment>, known: set<string>, id: int)
    ensures LastMove(Moves(assignments, known), DeviceName(id)) == LastLineFor(assignments, known, id)
  {
    if assignments != [] {
      var before, a := assignments[..|assignments| - 1], assignments[|assignments| - 1];
      MovesFollowLines(before, known, id);
      LastMoveConcat(Moves(before, known), if a.site in known then MovesTo(a) else [], DeviceName(id));
      LastMoveTo(a, id);
    }
  }

  /** Where a device is after a load that counts devices: on the site of the last line that names it
      under a site of the file; if there is none, it stays as it was, or is created without a site if
      its number is counted and the file does not mention it at all. */
  lemma DevicesExactly(devices: map<string, Device>, c: Config, id: int)
    requires c.count != 0
    ensures var after, name := LoadDevices(devices, c), "urn:imei:" + Signed(id);
            match LastLineFor(c.assignments, KnownSites(c), id)
            case Some(site) =>
              name in after && after[name] == Device(Some(site), name in devices && devices[name].registered)
            case None =>
              if name in devices then name in after && after[name] == devices[name]
              else (name in after <==> 1 <= id <= c.count && id !in Mentioned(c.assignments))
                   && (name in after ==> after[name] == Device(None, false))
  {
    var moves, mentioned, name := Moves(c.assignments, KnownSites(c)), Mentioned(c.assignments), DeviceName(id);
    MovesFollowLines(c.assignments, KnownSites(c), id);
    DevicesAssigned(devices, moves, name);
    if c.count > 0 {
      DevicesCreated(AssignAll(devices, moves), mentioned, c.count, name);
      forall i | 1 <= i <= c.count ensures DeviceName(i) == name <==> i == id {
        DeviceNamesDiffer(i, id);
      }
    }
  }

  /** A name that is not the name of a numbered device is left alone, and so is everything if no
      devices are counted. */
  lemma OtherDevices(devices: map<string, Device>, c: Config, name: string)
    requires c.count == 0 || forall id :: DeviceName(id) != name
    ensures name in LoadDevices(devices, c) <==> name in devices
    ensures name in devices ==> LoadDevices(devices, c)[name] == devices[name]
  {
    if c.count != 0 {
      var moves := Moves(c.assignments, KnownSites(c));
      NoMove(moves, name);
      DevicesAssigned(devices, moves, name);
      if c.count > 0 {
        DevicesCreated(AssignAll(devices, moves), Mentioned(c.assignments), c.count, name);
      }
    }
  }

  lemma {:induction false} NoMove(moves: seq<(int, string)>, name: string)
    requires forall id :: DeviceName(id) != name
    ensures LastMove(moves, name).None?
  {
    if moves != [] {
      NoMove(moves[..|moves| - 1], name);
    }
  }

  lemma DevicesTwice(devices: map<string, Device>, c: Config)
    ensures LoadDevices(LoadDevices(devices, c), c) == LoadDevices(devices, c)
  {
    var once := LoadDevices(devices, c);
    var twice := LoadDevices(once, c);
    if c.count != 0 {
      var moves, mentioned := Moves(c.assignments, KnownSites(c)), Mentioned(c.assignments);
      forall name: string
        ensures name in once <==> name in twice
        ensures name in once ==> twice[name] == once[name]
      {
        DevicesAssigned(devices, moves, name);
        DevicesAssigned(once, moves, name);
        if c.count > 0 {
          DevicesCreated(AssignAll(devices, moves), mentioned, c.count, name);
          DevicesCreated(AssignAll(once, moves), mentioned, c.count, name);
        }
      }
      assert once.Keys == twice.Keys;
    }
  }

  lemma SitesTwice(sites: map<string, Site>, entries: seq<SiteEntry>)
    ensures LoadSites(LoadSites(sites, entries), entries) == LoadSites(sites, entries)
  {
    var once := LoadSites(sites, entries);
    var twice := LoadSites(once, entries);
    forall name: string
      ensures name in once <==> name in twice
      ensures name in once ==> twice[name] == once[name]
    {
      SitesLoaded(sites, entries, name);
      SitesLoaded(once, entries, name);
    }
    assert once.Keys == twice.Keys;
  }

  /** After a load a site of the file has the description of its last entry and is active; all other
      sites are as before. */
  lemma SitesExactly(db: Db, c: Config, name: string)
    ensures var after := Loaded(db, c).sites;
            if exists i: nat :: LastSiteEntry(c.sites, name, i)
            then name in after && after[name].active
                 && exists i: nat :: LastSiteEntry(c.sites, name, i) && after[name].description == c.sites[i].description
            else (name in after <==> name in db.sites) && (name in after ==> after[name] == db.sites[name])
  {
    UsersLoaded(db.(sites := LoadSites(db.sites, c.sites)), c.users, "", "");
    SitesLoaded(db.sites, c.sites, name);
    var i := LastSiteIs(c.sites, name);
  }

  predicate LastSiteEntry(entries: seq<SiteEntry>, name: string, i: nat) {
    i < |entries| && entries[i].name == name && forall k :: i < k < |entries| ==> entries[k].name != name
  }

  lemma {:induction false} LastSiteIs(entries: seq<SiteEntry>, name: string) returns (i: nat)
    ensures if LastSite(entries, name).Some?
            then LastSiteEntry(entries, name, i) && LastSite(entries, name).value == Site(entries[i].description, true)
            else forall k: nat :: !LastSiteEntry(entries, name, k)
  {
    i := 0;
    if entries != [] {
      var n := |entries| - 1;
      if entries[n].name == name {
        i := n;
      } else {
        i := LastSiteIs(entries[..n], name);
        if LastSite(entries, name).None? {
          forall k: nat ensures !LastSiteEntry(entries, name, k) {
            assert !LastSiteEntry(entries[..n], name, k);
          }
        }
      }
    }
  }

  lemma UsersTwice(db: Db, entries: seq<UserEntry>)
    ensures LoadUsers(LoadUsers(db, entries), entries) == LoadUsers(db, entries)
  {
    var once := LoadUsers(db, entries);
    var twice := LoadUsers(once, entries);
    forall user: string, site: string
      ensures (user in once.users <==> user in twice.users) && (user in once.users ==> twice.users[user] == once.users[user])
      ensures (user, site) in once.memberships <==> (user, site) in twice.memberships
      ensures (user, site) in once.memberships ==> twice.memberships[(user, site)] == once.memberships[(user, site)]
    {
      UsersLoaded(db, entries, user, site);
      UsersLoaded(once, entries, user, site);
    }
    forall user: string ensures (user in once.users <==> user in twice.users) && (user in once.users ==> twice.users[user] == once.users[user]) {
      UsersLoaded(db, entries, user, "");
      UsersLoaded(once, entries, user, "");
    }
    assert once.users == twice.users;
    forall k: (string, string) ensures k in once.memberships <==> k in twice.memberships {
      assert k == (k.0, k.1);
    }
    assert once.memberships.Keys == twice.memberships.Keys;
    UsersLoaded(db, entries, "", "");
    UsersLoaded(once, entries, "", "");
  }

  /** The users loop does not look at sites or devices. */
  lemma {:induction false} UsersIndependent(db: Db, other: Db, entries: seq<UserEntry>)
    requires other.users == db.users && other.memberships == db.memberships
    ensures LoadUsers(other, entries) == LoadUsers(db, entries).(sites := other.sites, devices := other.devices)
  {
    if entries != [] {
      UsersIndependent(db, other, entries[..|entries| - 1]);
    }
  }

  /** Loading a scenario twice leaves the database as loading it once does. */
  lemma LoadingTwiceIsLoadingOnce(db: Db, c: Config)
    ensures Loaded(Loaded(db, c), c) == Loaded(db, c)
  {
    var once := Loaded(db, c);
    var s := db.(sites := LoadSites(db.sites, c.sites));
    var d := LoadUsers(s, c.users);
    UsersLoaded(s, c.users, "", "");
    SitesTwice(db.sites, c.sites);
    UsersTwice(s, c.users);
    UsersIndependent(d, once.(sites := LoadSites(once.sites, c.sites)), c.users);
    DevicesTwice(d.devices, c);
  }

  lemma AssignOneMore(devices: map<string, Device>, moves: seq<(int, string)>, move: (int, string))
    ensures AssignAll(devices, moves + [move]) == Assigned(AssignAll(devices, moves), move.0, move.1)
  {
    assert (moves + [move])[..|moves|] == moves;
  }

  lemma {:induction false} AssignConcat(devices: map<string, Device>, a: seq<(int, string)>, b: seq<(int, string)>)
    ensures AssignAll(devices, a + b) == AssignAll(AssignAll(devices, a), b)
  {
    if b == [] {
      assert a + b == a;
    } else {
      var rest, last := b[..|b| - 1], b[|b| - 1];
      calc {
        AssignAll(devices, a + b);
        { assert a + b == a + rest + [last]; }
        AssignAll(devices, a + rest + [last]);
        { AssignOneMore(devices, a + rest, last); }
        Assigned(AssignAll(devices, a + rest), last.0, last.1);
        { AssignConcat(devices, a, rest); }
        Assigned(AssignAll(AssignAll(devices, a), rest), last.0, last.1);
        { AssignOneMore(AssignAll(devices, a), rest, last); }
        AssignAll(AssignAll(devices, a), rest + [last]);
        { assert b == rest + [last]; }
        AssignAll(AssignAll(devices, a), b);
      }
    }
  }

  // ---- the command

  class Command {
    var sites: map<string, Site>
    var users: map<string, User>
    var memberships: map<(string, string), Membership>
    var devices: map<string, Device>

    function State(): Db
      reads this
    {
      Db(sites, users, memberships, devices)
    }

    constructor (db: Db)
      ensures State() == db
    {
      sites, users, memberships, devices := db.sites, db.users, db.memberships, db.devices;
    }

    method ApplySites(entries: seq<SiteEntry>) returns (ok: bool, known: set<string>)
      modifies this`sites
      ensures ok <==> forall i :: 0 <= i < |entries| ==> entries[i].name != ""
      ensures ok ==> sites == LoadSites(old(sites), entries)
      ensures ok ==> known == set i | 0 <= i < |entries| :: entries[i].name
    {
      known := {};
      for i := 0 to |entries|
        invariant sites == LoadSites(old(sites), entries[..i])
        invariant forall j :: 0 <= j < i ==> entries[j].name != ""
        invariant known == set j | 0 <= j < i :: entries[j].name
      {
        if entries[i].name == "" {
          return false, known;
        }
        sites := sites[entries[i].name := Site(entries[i].description, true)];
        known := known + {entries[i].name};
        assert entries[..i + 1][..i] == entries[..i];
      }
      assert entries[..|entries|] == entries;
      ok := true;
    }

    method ApplyMemberships(u: UserEntry, known: set<string>) returns (ok: bool)
      modifies this`memberships
      ensures ok <==> u.superuser || forall j :: 0 <= j < |u.sites| ==> u.sites[j].site in known
      ensures ok ==> memberships == LoadMemberships(old(memberships), u)
    {
      if u.superuser {
        memberships := map k | k in memberships && k.0 != u.username :: memberships[k];
        return true;
      }
      var desired: set<string> := {};
      for j := 0 to |u.sites|
        invariant memberships == Upsert(old(memberships), u.username, u.sites[..j])
        invariant desired == SiteNames(u.sites[..j])
        invariant forall i :: 0 <= i < j ==> u.sites[i].site in known
      {
        var e := u.sites[j];
        if e.site !in known {
          return false;
        }
        assert u.sites[..j + 1][..j] == u.sites[..j];
        assert SiteNames(u.sites[..j + 1]) == SiteNames(u.sites[..j]) + {e.site};
        desired := desired + {e.site};
        memberships := Upserted(memberships, (u.username, e.site), e);
      }
      assert u.sites[..|u.sites|] == u.sites;
      memberships := map k | k in memberships && (k.0 != u.username || k.1 in desired) :: memberships[k];
      ok := true;
    }

    method ApplyUsers(entries: seq<UserEntry>, c: Config) returns (ok: bool)
      requires entries == c.users
      modifies this`users, this`memberships
      ensures ok <==> forall i :: 0 <= i < |entries| ==> UserValid(c, entries[i])
      ensures ok ==> State() == LoadUsers(old(State()), entries)
    {
      ghost var db := State();
      for i := 0 to |entries|
        invariant State() == LoadUsers(db, entries[..i])
        invariant forall j :: 0 <= j < i ==> UserValid(c, entries[j])
      {
        var u := entries[i];
        if u.username == "" || u.password == "" {
          assert !UserValid(c, entries[i]);
          return false;
        }
        users := users[u.username := User(u.superuser, u.superuser)];
        var known := ApplyMemberships(u, KnownSites(c));
        if !known {
          assert !UserValid(c, entries[i]);
          return false;
        }
        assert entries[..i + 1][..i] == entries[..i];
      }
      assert entries[..|entries|] == entries;
      ok := true;
    }

    /** The devices of one known site. */
    method Place(a: Assignment)
      modifies this`devices
      ensures devices == AssignAll(old(devices), MovesTo(a))
    {
      for j := 0 to |a.devices|
        invariant devices == AssignAll(old(devices), MovesTo(a)[..j])
      {
        assert MovesTo(a)[..j + 1][..j] == MovesTo(a)[..j];
        devices := Assigned(devices, a.devices[j], a.site);
      }
      assert MovesTo(a)[..|a.devices|] == MovesTo(a);
    }

    method ApplyAssignments(assignments: seq<Assignment>, known: set<string>)
      modifies this`devices
      ensures devices == AssignAll(old(devices), Moves(assignments, known))
    {
      for i := 0 to |assignments|
        invariant devices == AssignAll(old(devices), Moves(assignments[..i], known))
      {
        assert assignments[..i + 1][..i] == assignments[..i];
        if assignments[i].site in known {
          AssignConcat(old(devices), Moves(assignments[..i], known), MovesTo(assignments[i]));
          Place(assignments[i]);
        } else {
          assert Moves(assignments[..i + 1], known) == Moves(assignments[..i], known);
        }
      }
      assert assignments[..|assignments|] == assignments;
    }

    method ApplyDevices(c: Config)
      modifies this`devices
      ensures devices == LoadDevices(old(devices), c)
    {
      if c.count == 0 {
        return;
      }
      ApplyAssignments(c.assignments, KnownSites(c));
      var mentioned := Mentioned(c.assignments);
      ghost var placed := devices;
      var n := 0;
      while n < c.count
        invariant 0 <= n && (n <= c.count || n == 0)
        invariant devices == CreateAll(placed, mentioned, n)
      {
        n := n + 1;
        if n !in mentioned {
          devices := Created(devices, n);
        }
      }
    }

    /** The whole command in one transaction: a valid file is loaded, any other changes nothing. */
    method Handle(c: Config) returns (ok: bool)
      modifies this
      ensures ok <==> Valid(c)
      ensures State() == if ok then Loaded(old(State()), c) else old(State())
    {
      var before := State();
      if c.sites == [] || c.users == [] {
        return false;
      }
      var known;
      ok, known := ApplySites(c.sites);
      if ok {
        ok := ApplyUsers(c.users, c);
        if ok {
          ghost var d := State();
          UsersLoaded(before.(sites := sites), c.users, "", "");
          ApplyDevices(c);
        }
      }
      if !ok {
        sites, users, memberships, devices := before.sites, before.users, before.memberships, before.devices;
      }
    }
  }
}
