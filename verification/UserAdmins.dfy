/**
 Changes to the users of a server: updates and deletions by an administrator, creation, and
 what a single sign-on does to a user. None of them removes the last enabled administrator,
 and a change is refused for that reason exactly when it would.
 */
module UserAdmins {
  import opened Basics
  import opened AccessRules

  datatype Uid = Uid(uuid: string)

  /** What of a user's record these rules read. */
  datatype Account = Account(name: string, role: Role, sites: seq<Grant>, disabled: bool)

  type Users = map<Uid, Account>

  predicate EnabledAdmin(a: Account) {
    a.role == Admin && !a.disabled
  }

  ghost predicate HasAdmin(users: Users) {
    exists id :: id in users && EnabledAdmin(users[id])
  }

  /** No one but `id` is an enabled administrator. */
  predicate LastAdmin(users: Users, id: Uid) {
    forall other :: other in users && other != id ==> !EnabledAdmin(users[other])
  }

  // ---- validation of roles and grants

  predicate ValidRole(r: Role) {
    r == Admin || r == Operator || r == Viewer || r == SitesRole
  }

  /**
   A known role; the sites role has grants and no other does: for distinct sites that exist, as viewer or operator.
   */
  predicate ValidAccess(role: Role, grants: seq<Grant>, siteExists: string -> bool) {
    && ValidRole(role)
    && (role != SitesRole ==> grants == [])
    && (role == SitesRole ==>
          && grants != []
          && (forall i :: 0 <= i < |grants| ==>
                (grants[i].role == Viewer || grants[i].role == Operator) && grants[i].site != ""
                && siteExists(grants[i].site))
          && (forall i, j :: 0 <= i < j < |grants| ==> grants[i].site != grants[j].site))
  }

  /** Checks grant by grant, remembering the sites seen. */
  method CheckUserAccess(role: Role, grants: seq<Grant>, siteExists: string -> bool) returns (ok: bool)
    ensures ok <==> ValidAccess(role, grants, siteExists)
  {
    if !ValidRole(role) {
      return false;
    }
    if role != SitesRole {
      return |grants| == 0;
    }
    if |grants| == 0 {
      return false;
    }
    var seen: set<string> := {};
    for i := 0 to |grants|
      invariant seen == set j | 0 <= j < i :: grants[j].site
      invariant forall j :: 0 <= j < i ==>
                  (grants[j].role == Viewer || grants[j].role == Operator) && grants[j].site != ""
                  && siteExists(grants[j].site)
      invariant forall j, k :: 0 <= j < k < i ==> grants[j].site != grants[k].site
    {
      var g := grants[i];
      if g.role != Viewer && g.role != Operator {
        return false;
      }
      if g.site == "" || !siteExists(g.site) {
        return false;
      }
      if g.site in seen {
        var j :| 0 <= j < i && grants[j].site == g.site;
        return false;
      }
      seen := seen + {g.site};
    }
    return true;
  }

  // ---- single sign-on

  datatype RoleRule = RoleRule(value: string, role: Role)

  datatype SsoSettings = SsoSettings(autoCreate: bool, mapsRoles: bool, roleMap: seq<RoleRule>, defaultRole: Role)

  predicate Matches(rule: RoleRule, values: seq<string>, same: (string, string) -> bool) {
    exists i :: 0 <= i < |values| && same(values[i], rule.value)
  }

  /** Rules are tried in order, each against all values; `same` compares without regard to case. */
  function MappedRole(rules: seq<RoleRule>, values: seq<string>, same: (string, string) -> bool): Role {
    if rules == [] then NoRole
    else if Matches(rules[0], values, same) then rules[0].role
    else MappedRole(rules[1..], values, same)
  }

  method FindMappedRole(rules: seq<RoleRule>, values: seq<string>, same: (string, string) -> bool) returns (r: Role)
    ensures r == MappedRole(rules, values, same)
  {
    for i := 0 to |rules|
      invariant MappedRole(rules, values, same) == MappedRole(rules[i..], values, same)
    {
      assert rules[i..][0] == rules[i] && rules[i..][1..] == rules[i + 1..];
      for j := 0 to |values|
        invariant forall x :: 0 <= x < j ==> !same(values[x], rules[i].value)
      {
        if same(values[j], rules[i].value) {
          return rules[i].role;
        }
      }
    }
    assert rules[|rules|..] == [];
    return NoRole;
  }

  // ---- operations

  datatype Update = Update(role: Option<Role>, sites: Option<seq<Grant>>, disabled: Option<bool>)

  datatype Outcome = Done | NotFound | Invalid | IsLastAdmin | OwnAccount | Refused | KeptAdmin

  /** The record an update asks for. */
  function Wanted(u: Account, change: Update): Account {
    var role := if change.role.Some? then change.role.value else u.role;
    var kept := if change.role.Some? && role != SitesRole then [] else u.sites;
    var sites := if change.sites.Some? then change.sites.value else kept;
    u.(role := role, sites := sites, disabled := if change.disabled.Some? then change.disabled.value else u.disabled)
  }

  predicate ChangesAccess(change: Update) {
    change.role.Some? || change.sites.Some?
  }

  function ApplyUpdate(users: Users, id: Uid, change: Update, siteExists: string -> bool): (Users, Outcome) {
    if id !in users then (users, NotFound)
    else
      var u, w := users[id], Wanted(users[id], change);
      if ChangesAccess(change) && !ValidAccess(w.role, w.sites, siteExists) then (users, Invalid)
      else if ChangesAccess(change) && w.role != Admin && u.role == Admin && LastAdmin(users, id) then
        (users, IsLastAdmin)
      else if change.disabled == Some(true) && w.role == Admin && LastAdmin(users, id) then (users, IsLastAdmin)
      else (users[id := w], Done)
  }

  function ApplyDelete(users: Users, actor: Uid, id: Uid): (Users, Outcome) {
    if id == actor then (users, OwnAccount)
    else if id !in users then (users, NotFound)
    else if users[id].role == Admin && LastAdmin(users, id) then (users, IsLastAdmin)
    else (users - {id}, Done)
  }

  /** The role a known user gets at a sign-in; `NoRole` leaves a site-scoped user alone and refuses another. */
  function RoleAtSignIn(u: Account, cfg: SsoSettings, mapped: Role): Role {
    if mapped == NoRole && u.role != SitesRole then cfg.defaultRole else mapped
  }

  /** `found` is a user of the given name, compared without regard to case, or there is none. */
  ghost predicate IsUserNamed(users: Users, name: string, same: (string, string) -> bool, found: Option<Uid>) {
    match found
    case Some(id) => id in users && same(users[id].name, name)
    case None => forall id :: id in users ==> !same(users[id].name, name)
  }

  /** A sign-in vouched for by the identity provider: `found` is the user of that name, `newId` a new id. */
  function ApplySso(users: Users, cfg: SsoSettings, found: Option<Uid>, name: string, mapped: Role,
                    newId: Uid): (Users, Outcome)
  {
    if found.None? then
      var role := if cfg.mapsRoles && mapped != NoRole then mapped else cfg.defaultRole;
      if !cfg.autoCreate || role == NoRole || !(2 <= |name| <= 64) then (users, Refused)
      else (users[newId := Account(name, role, [], false)], Done)
    else if found.value !in users then (users, NotFound)
    else
      var id, u := found.value, users[found.value];
      var role := RoleAtSignIn(u, cfg, mapped);
      if u.disabled then (users, Refused)
      else if !cfg.mapsRoles then (users, Done)
      else if role == NoRole && u.role != SitesRole then (users, Refused)
      else if role == NoRole || role == u.role then (users, Done)
      else if u.role == Admin && LastAdmin(users, id) then (users, KeptAdmin)
      else (users[id := u.(role := role, sites := [])], Done)
  }

  datatype Op =
    | UpdateOp(id: Uid, change: Update, siteExists: string -> bool)
    | DeleteOp(actor: Uid, id: Uid)
    | SsoOp(cfg: SsoSettings, found: Option<Uid>, name: string, mapped: Role, newId: Uid)
    | CreateOp(id: Uid, account: Account)

  function Apply(users: Users, op: Op): Users {
    match op
    case UpdateOp(id, change, siteExists) => ApplyUpdate(users, id, change, siteExists).0
    case DeleteOp(actor, id) => ApplyDelete(users, actor, id).0
    case SsoOp(cfg, found, name, mapped, newId) =>
      if newId in users then users else ApplySso(users, cfg, found, name, mapped, newId).0
    case CreateOp(id, account) => if id in users then users else users[id := account]
  }

  function Run(users: Users, ops: seq<Op>): Users {
    if ops == [] then users else Apply(Run(users, ops[..|ops| - 1]), ops[|ops| - 1])
  }

  // ---- theorems

  /** With an enabled administrator about, changing one record leaves one unless it was the last and stops being one. */
  lemma OneChange(users: Users, id: Uid, account: Account)
    requires HasAdmin(users)
    ensures HasAdmin(users[id := account]) <==> EnabledAdmin(account) || !LastAdmin(users, id)
  {
    var after := users[id := account];
    if EnabledAdmin(account) {
      assert id in after && EnabledAdmin(after[id]);
    } else if !LastAdmin(users, id) {
      var other :| other in users && other != id && EnabledAdmin(users[other]);
      assert other in after && EnabledAdmin(after[other]);
    }
  }

  lemma OneGone(users: Users, id: Uid)
    requires HasAdmin(users)
    ensures HasAdmin(users - {id}) <==> !LastAdmin(users, id)
  {
    var after := users - {id};
    if !LastAdmin(users, id) {
      var other :| other in users && other != id && EnabledAdmin(users[other]);
      assert other in after && EnabledAdmin(after[other]);
    }
  }

  /** The only enabled administrator is one himself. */
  lemma LastIsEnabled(users: Users, id: Uid)
    requires HasAdmin(users) && LastAdmin(users, id)
    ensures id in users && EnabledAdmin(users[id])
  {
    var x :| x in users && EnabledAdmin(users[x]);
  }

  lemma OneMore(users: Users, id: Uid, account: Account)
    requires HasAdmin(users) && id !in users
    ensures HasAdmin(users[id := account])
  {
    OneChange(users, id, account);
    var x :| x in users && EnabledAdmin(users[x]);
    assert !LastAdmin(users, id);
  }

  /** A valid update is refused exactly when the record it asks for would leave no enabled administrator. */
  lemma UpdateRefusedExactly(users: Users, id: Uid, change: Update, siteExists: string -> bool)
    requires HasAdmin(users) && id in users
    requires ChangesAccess(change) ==>
               ValidAccess(Wanted(users[id], change).role, Wanted(users[id], change).sites, siteExists)
    ensures ApplyUpdate(users, id, change, siteExists).1 == IsLastAdmin <==>
              !HasAdmin(users[id := Wanted(users[id], change)])
    ensures HasAdmin(ApplyUpdate(users, id, change, siteExists).0)
  {
    OneChange(users, id, Wanted(users[id], change));
    if LastAdmin(users, id) {
      LastIsEnabled(users, id);
    }
  }

  /** Deleting someone else is refused exactly when no enabled administrator would be left. */
  lemma DeleteRefusedExactly(users: Users, actor: Uid, id: Uid)
    requires HasAdmin(users) && id in users && id != actor
    ensures ApplyDelete(users, actor, id).1 == IsLastAdmin <==> !HasAdmin(users - {id})
    ensures HasAdmin(ApplyDelete(users, actor, id).0)
  {
    OneGone(users, id);
    if LastAdmin(users, id) {
      LastIsEnabled(users, id);
    }
  }

  lemma SsoKeepsAdmin(users: Users, cfg: SsoSettings, found: Option<Uid>, name: string, mapped: Role, newId: Uid)
    requires HasAdmin(users) && newId !in users
    ensures HasAdmin(ApplySso(users, cfg, found, name, mapped, newId).0)
    ensures ApplySso(users, cfg, found, name, mapped, newId).1 == KeptAdmin ==>
              found.Some? && found.value in users
              && var role := RoleAtSignIn(users[found.value], cfg, mapped);
                 !HasAdmin(users[found.value := users[found.value].(role := role, sites := [])])
  {
    if found.Some? && found.value in users {
      var u := users[found.value];
      OneChange(users, found.value, u.(role := RoleAtSignIn(u, cfg, mapped), sites := []));
      if LastAdmin(users, found.value) {
        LastIsEnabled(users, found.value);
      }
    } else {
      var role := if cfg.mapsRoles && mapped != NoRole then mapped else cfg.defaultRole;
      OneMore(users, newId, Account(name, role, [], false));
    }
  }

  lemma ApplyKeepsAdmin(users: Users, op: Op)
    requires HasAdmin(users)
    ensures HasAdmin(Apply(users, op))
  {
    hide HasAdmin;
    match op
    case UpdateOp(id, change, siteExists) =>
      if ApplyUpdate(users, id, change, siteExists).0 != users {
        UpdateRefusedExactly(users, id, change, siteExists);
      }
    case DeleteOp(actor, id) =>
      if ApplyDelete(users, actor, id).0 != users {
        DeleteRefusedExactly(users, actor, id);
      }
    case SsoOp(cfg, found, name, mapped, newId) =>
      if newId !in users {
        SsoKeepsAdmin(users, cfg, found, name, mapped, newId);
      }
    case CreateOp(id, account) =>
      if id !in users {
        OneMore(users, id, account);
      }
  }

  /** From any users with an enabled administrator, every sequence of changes leaves one. */
  lemma {:induction false} AdminRemains(users: Users, ops: seq<Op>)
    requires HasAdmin(users)
    ensures HasAdmin(Run(users, ops))
  {
    if ops != [] {
      AdminRemains(users, ops[..|ops| - 1]);
      ApplyKeepsAdmin(Run(users, ops[..|ops| - 1]), ops[|ops| - 1]);
    }
  }

  // ---- the store of users

  class UserStore {
    var users: Users

    constructor (users: Users)
      ensures this.users == users
    {
      this.users := users;
    }

    /** Looks through all users for another enabled administrator. */
    method IsLast(id: Uid) returns (last: bool)
      ensures last <==> LastAdmin(users, id)
    {
      var left := users.Keys;
      while left != {}
        invariant left <= users.Keys
        invariant forall x :: x in users && x !in left && x != id ==> !EnabledAdmin(users[x])
        decreases |left|
      {
        var x :| x in left;
        if x != id && users[x].role == Admin && !users[x].disabled {
          return false;
        }
        left := left - {x};
      }
      return true;
    }

    method UpdateUser(id: Uid, change: Update, siteExists: string -> bool) returns (outcome: Outcome)
      modifies this
      ensures (users, outcome) == ApplyUpdate(old(users), id, change, siteExists)
    {
      if id !in users {
        return NotFound;
      }
      var u := users[id];
      if change.role.Some? || change.sites.Some? {
        var role, sites := u.role, u.sites;
        if change.role.Some? {
          role := change.role.value;
          if role != SitesRole {
            sites := [];
          }
        }
        if change.sites.Some? {
          sites := change.sites.value;
        }
        var ok := CheckUserAccess(role, sites, siteExists);
        if !ok {
          return Invalid;
        }
        if role != Admin && u.role == Admin {
          var last := IsLast(id);
          if last {
            return IsLastAdmin;
          }
        }
        u := u.(role := role, sites := sites);
      }
      if change.disabled.Some? {
        if change.disabled.value && u.role == Admin {
          var last := IsLast(id);
          if last {
            return IsLastAdmin;
          }
        }
        u := u.(disabled := change.disabled.value);
      }
      users := users[id := u];
      return Done;
    }

    method DeleteUser(actor: Uid, id: Uid) returns (outcome: Outcome)
      modifies this
      ensures (users, outcome) == ApplyDelete(old(users), actor, id)
    {
      if id == actor {
        return OwnAccount;
      }
      if id !in users {
        return NotFound;
      }
      if users[id].role == Admin {
        var last := IsLast(id);
        if last {
          return IsLastAdmin;
        }
      }
      users := users - {id};
      return Done;
    }

    /** Looks a user up by name. */
    method FindUser(name: string, same: (string, string) -> bool) returns (found: Option<Uid>)
      ensures IsUserNamed(users, name, same, found)
    {
      var left := users.Keys;
      while left != {}
        invariant left <= users.Keys
        invariant forall id :: id in users && id !in left ==> !same(users[id].name, name)
        decreases |left|
      {
        var id :| id in left;
        if same(users[id].name, name) {
          return Some(id);
        }
        left := left - {id};
      }
      return None;
    }

    /** What a single sign-on does to the users: an unknown one may be created, a known one's role worked out anew. */
    method SsoLogin(cfg: SsoSettings, name: string, sameName: (string, string) -> bool,
                    values: seq<string>, same: (string, string) -> bool, newId: Uid)
      returns (outcome: Outcome, ghost found: Option<Uid>)
      requires newId !in users
      modifies this
      ensures IsUserNamed(old(users), name, sameName, found)
      ensures (users, outcome) == ApplySso(old(users), cfg, found, name, MappedRole(cfg.roleMap, values, same), newId)
    {
      var user := FindUser(name, sameName);
      found := user;
      if user.None? {
        if !cfg.autoCreate {
          return Refused, found;
        }
        var role := NoRole;
        if cfg.mapsRoles {
          role := FindMappedRole(cfg.roleMap, values, same);
        }
        if role == NoRole {
          role := cfg.defaultRole;
        }
        if role == NoRole || |name| < 2 || |name| > 64 {
          return Refused, found;
        }
        users := users[newId := Account(name, role, [], false)];
        return Done, found;
      }
      var u := users[user.value];
      if u.disabled {
        return Refused, found;
      }
      if cfg.mapsRoles {
        var role := FindMappedRole(cfg.roleMap, values, same);
        if role == NoRole && u.role != SitesRole {
          role := cfg.defaultRole;
        }
        if role == NoRole && u.role != SitesRole {
          return Refused, found;
        }
        if role != NoRole && role != u.role {
          if u.role == Admin {
            var last := IsLast(user.value);
            if last {
              return KeptAdmin, found;
            }
          }
          users := users[user.value := u.(role := role, sites := [])];
        }
      }
      return Done, found;
    }
  }
}
