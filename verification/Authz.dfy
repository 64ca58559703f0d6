/**
 * Permission resolution: the join of assignments and role permissions, grouped into a map, cached
 * per user, and decided by scope.
 */
module Authz {
  import opened Common

  type UserId = string
  type RoleId = nat
  type Permission = string

  const WILDCARD := "*"
  const CACHE_TTL_MS := 300_000

  datatype ScopeType = Global | Self | Team | Dept | Region
  datatype Scope = Scope(kind: ScopeType, id: Option<string>)

  datatype Resource = Resource(ownerId: Option<UserId>, teamId: Option<string>, deptId: Option<string>,
                               region: Option<string>)

  datatype Role = Role(id: RoleId, key: string, system: bool)
  datatype RolePermission = RolePermission(role: RoleId, permission: Permission)
  datatype Assignment = Assignment(id: nat, user: UserId, role: RoleId, scope: Scope, expiresAt: Option<int>)

  // `claims` is employees.roles.
  datatype Tables = Tables(
    roles: seq<Role>,
    rolePermissions: seq<RolePermission>,
    assignments: seq<Assignment>,
    claims: map<UserId, seq<string>>)

  // A row of the join, and what resolve() makes of all of them.
  datatype Row = Row(permission: Permission, scope: Scope)
  type Effective = map<Permission, seq<Scope>>

  datatype Entry = Entry(value: Effective, until: int)

  // ---- Scopes ----

  predicate Covers(grant: Scope, resource: Resource, principal: UserId) {
    match grant.kind
    case Global => true
    case Self => resource.ownerId == Some(principal)
    case Team => grant.id.Some? && grant.id == resource.teamId
    case Dept => grant.id.Some? && grant.id == resource.deptId
    case Region => grant.id.Some? && grant.id == resource.region
  }

  /** What a grant in this scope is for, by the resource's own attributes. */
  predicate InScope(grant: Scope, resource: Resource, principal: UserId) {
    || grant.kind == Global
    || (grant.kind == Self && resource.ownerId.Some? && resource.ownerId.value == principal)
    || (grant.kind == Team && resource.teamId.Some? && grant.id == resource.teamId)
    || (grant.kind == Dept && resource.deptId.Some? && grant.id == resource.deptId)
    || (grant.kind == Region && resource.region.Some? && grant.id == resource.region)
  }

  // ---- The join ----

  predicate Live(a: Assignment, now: int) {
    a.expiresAt.None? || a.expiresAt.value > now
  }

  function RowsOfRole(rolePermissions: seq<RolePermission>, role: RoleId, scope: Scope): seq<Row> {
    if rolePermissions == [] then []
    else
      var last := rolePermissions[|rolePermissions| - 1];
      RowsOfRole(rolePermissions[..|rolePermissions| - 1], role, scope)
      + if last.role == role then [Row(last.permission, scope)] else []
  }

  function Join(assignments: seq<Assignment>, rolePermissions: seq<RolePermission>, user: UserId, now: int): seq<Row> {
    if assignments == [] then []
    else
      var last := assignments[|assignments| - 1];
      Join(assignments[..|assignments| - 1], rolePermissions, user, now)
      + if last.user == user && Live(last, now) then RowsOfRole(rolePermissions, last.role, last.scope) else []
  }

  function ScopesIn(effective: Effective, permission: Permission): seq<Scope> {
    if permission in effective then effective[permission] else []
  }

  function Group(rows: seq<Row>): Effective {
    if rows == [] then map[]
    else
      var last := rows[|rows| - 1];
      var before := Group(rows[..|rows| - 1]);
      before[last.permission := ScopesIn(before, last.permission) + [last.scope]]
  }

  /** The true effective permissions of a user at an instant. */
  function EffectiveAt(tables: Tables, user: UserId, now: int): Effective {
    Group(Join(tables.assignments, tables.rolePermissions, user, now))
  }

  /** check()'s decision on a resolved map. */
  predicate Allows(effective: Effective, permission: Permission, resource: Option<Resource>,
                   principal: Option<UserId>)
  {
    var grants := ScopesIn(effective, WILDCARD) + ScopesIn(effective, permission);
    && grants != []
    && (resource.Some? && principal.Some? ==> exists g :: g in grants && Covers(g, resource.value, principal.value))
  }

  // ---- The service ----

  // What the next resolve() of a user answers, given whether the database is up.
  function Answer(tables: Tables, cache: map<UserId, Entry>, user: UserId, now: int, dbOk: bool): Effective {
    if user in cache && now < cache[user].until then cache[user].value
    else if dbOk then EffectiveAt(tables, user, now)
    else map[]
  }

  class AuthzService {
    var tables: Tables
    var cache: map<UserId, Entry>

    constructor (tables: Tables)
      ensures this.tables == tables && cache == map[]
    {
      this.tables := tables;
      cache := map[];
    }

    /** Nothing else runs between the cache miss and the store; AuthzStaleness separates them. */
    method Resolve(user: UserId, now: int, dbOk: bool) returns (effective: Effective)
      modifies `cache
      ensures effective == Answer(tables, old(cache), user, now, dbOk)
      ensures cache == if (user in old(cache) && now < old(cache)[user].until) || !dbOk then old(cache)
                       else old(cache)[user := Entry(EffectiveAt(tables, user, now), now + CACHE_TTL_MS)]
      ensures var live := user in old(cache) && now < old(cache)[user].until;
              && (live ==> effective == old(cache)[user].value && cache == old(cache))
              && (!live && !dbOk ==> effective == map[] && cache == old(cache))
              && (!live && dbOk ==> effective == EffectiveAt(tables, user, now)
                                    && cache == old(cache)[user := Entry(effective, now + 300_000)])
    {
      if user in cache && now < cache[user].until {
        return cache[user].value;
      }
      if !dbOk {
        return map[];
      }
      var rows := Join(tables.assignments, tables.rolePermissions, user, now);
      effective := map[];
      for i := 0 to |rows|
        invariant effective == Group(rows[..i])
      {
        var row := rows[i];
        assert rows[..i + 1][..i] == rows[..i];
        if row.permission !in effective {
          effective := effective[row.permission := []];
        }
        effective := effective[row.permission := effective[row.permission] + [row.scope]];
      }
      assert rows[..|rows|] == rows;
      cache := cache[user := Entry(effective, now + CACHE_TTL_MS)];
    }

    method Invalidate(user: UserId)
      modifies `cache
      ensures cache == old(cache) - {user}
    {
      cache := cache - {user};
    }

    method AnyMatches(grants: seq<Scope>, resource: Resource, principal: UserId) returns (some: bool)
      ensures some <==> exists g :: g in grants && InScope(g, resource, principal)
    {
      for i := 0 to |grants|
        invariant forall j :: 0 <= j < i ==> !InScope(grants[j], resource, principal)
      {
        if Covers(grants[i], resource, principal) {
          assert InScope(grants[i], resource, principal);
          return true;
        }
      }
      some := false;
    }

    method Check(user: UserId, permission: Permission, resource: Option<Resource>, principal: Option<UserId>,
                 now: int, dbOk: bool)
      returns (allowed: bool)
      modifies `cache
      ensures allowed == Allows(Answer(tables, old(cache), user, now, dbOk), permission, resource, principal)
      ensures !dbOk && (user in old(cache) ==> old(cache)[user].until <= now) ==> !allowed
    {
      var effective := Resolve(user, now, dbOk);
      var grants := ScopesIn(effective, WILDCARD) + ScopesIn(effective, permission);
      if |grants| == 0 {
        return false;
      }
      if resource.None? || principal.None? {
        return true;
      }
      allowed := AnyMatches(grants, resource.value, principal.value);
    }
  }

  // ---- Resolution is exact ----

  lemma {:induction false} RowsOfRoleExact(rolePermissions: seq<RolePermission>, role: RoleId, scope: Scope, row: Row)
    ensures row in RowsOfRole(rolePermissions, role, scope)
            <==> row.scope == scope && RolePermission(role, row.permission) in rolePermissions
  {
    if rolePermissions != [] {
      var init := rolePermissions[..|rolePermissions| - 1];
      RowsOfRoleExact(init, role, scope, row);
      assert rolePermissions == init + [rolePermissions[|rolePermissions| - 1]];
    }
  }

  // The assignments that give `user` a permission in a scope.
  predicate Gives(a: Assignment, rolePermissions: seq<RolePermission>, user: UserId, now: int, row: Row) {
    a.user == user && Live(a, now) && a.scope == row.scope && RolePermission(a.role, row.permission) in rolePermissions
  }

  ghost predicate Given(assignments: seq<Assignment>, rolePermissions: seq<RolePermission>, user: UserId, now: int,
                        row: Row)
  {
    exists a :: a in assignments && Gives(a, rolePermissions, user, now, row)
  }

  lemma GivenAppend(init: seq<Assignment>, last: Assignment, rolePermissions: seq<RolePermission>,
                    user: UserId, now: int, row: Row)
    ensures Given(init + [last], rolePermissions, user, now, row)
            <==> Given(init, rolePermissions, user, now, row) || Gives(last, rolePermissions, user, now, row)
  {
    if Gives(last, rolePermissions, user, now, row) {
      assert last in init + [last];
    }
    if Given(init, rolePermissions, user, now, row) {
      var a :| a in init && Gives(a, rolePermissions, user, now, row);
      assert a in init + [last];
    }
  }

  lemma {:induction false} JoinExact(assignments: seq<Assignment>, rolePermissions: seq<RolePermission>,
                                     user: UserId, now: int, row: Row)
    ensures row in Join(assignments, rolePermissions, user, now)
            <==> Given(assignments, rolePermissions, user, now, row)
  {
    if assignments != [] {
      var init, last := assignments[..|assignments| - 1], assignments[|assignments| - 1];
      JoinExact(init, rolePermissions, user, now, row);
      RowsOfRoleExact(rolePermissions, last.role, last.scope, row);
      assert assignments == init + [last];
      GivenAppend(init, last, rolePermissions, user, now, row);
    }
  }

  /** Grouping loses and duplicates nothing: each row appears under its permission as often as in the join. */
  lemma {:induction false} GroupExact(rows: seq<Row>, permission: Permission, scope: Scope)
    ensures multiset(ScopesIn(Group(rows), permission))[scope] == multiset(rows)[Row(permission, scope)]
    ensures permission in Group(rows) <==> ScopesIn(Group(rows), permission) != []
  {
    if rows != [] {
      GroupExact(rows[..|rows| - 1], permission, scope);
      assert rows == rows[..|rows| - 1] + [rows[|rows| - 1]];
    }
  }

  lemma EffectiveExact(tables: Tables, user: UserId, now: int, permission: Permission, scope: Scope)
    ensures scope in ScopesIn(EffectiveAt(tables, user, now), permission)
            <==> exists a :: a in tables.assignments
                             && Gives(a, tables.rolePermissions, user, now, Row(permission, scope))
  {
    var rows := Join(tables.assignments, tables.rolePermissions, user, now);
    GroupExact(rows, permission, scope);
    JoinExact(tables.assignments, tables.rolePermissions, user, now, Row(permission, scope));
    assert scope in ScopesIn(Group(rows), permission) <==> scope in multiset(ScopesIn(Group(rows), permission));
    assert Row(permission, scope) in rows <==> Row(permission, scope) in multiset(rows);
  }

  /** An unexpired assignment whose role carries the permission or the wildcard, and whose scope the resource is in. */
  ghost predicate Entitles(a: Assignment, tables: Tables, user: UserId, permission: Permission,
                           resource: Option<Resource>, principal: Option<UserId>, now: int) {
    && a.user == user && (a.expiresAt.Some? ==> now < a.expiresAt.value)
    && (RolePermission(a.role, permission) in tables.rolePermissions
        || RolePermission(a.role, "*") in tables.rolePermissions)
    && (resource.Some? && principal.Some? ==> InScope(a.scope, resource.value, principal.value))
  }

  /**
   * On fresh data check() answers exactly from the tables; the scope is compared only when both a
   * resource and a principal are given.
   */
  lemma CheckIff(tables: Tables, user: UserId, permission: Permission, resource: Option<Resource>,
                 principal: Option<UserId>, now: int)
    ensures Allows(EffectiveAt(tables, user, now), permission, resource, principal)
            <==> exists a :: a in tables.assignments && Entitles(a, tables, user, permission, resource, principal, now)
  {
    var effective := EffectiveAt(tables, user, now);
    var grants := ScopesIn(effective, WILDCARD) + ScopesIn(effective, permission);
    if exists a :: a in tables.assignments && Entitles(a, tables, user, permission, resource, principal, now) {
      var a :| a in tables.assignments && Entitles(a, tables, user, permission, resource, principal, now);
      var key := if RolePermission(a.role, permission) in tables.rolePermissions then permission else WILDCARD;
      assert Gives(a, tables.rolePermissions, user, now, Row(key, a.scope));
      EffectiveExact(tables, user, now, key, a.scope);
      assert a.scope in grants;
    }
    if Allows(effective, permission, resource, principal) {
      var g := grants[0];
      if resource.Some? && principal.Some? {
        g :| g in grants && Covers(g, resource.value, principal.value);
      }
      var key := if g in ScopesIn(effective, permission) then permission else WILDCARD;
      EffectiveExact(tables, user, now, key, g);
      var a :| a in tables.assignments && Gives(a, tables.rolePermissions, user, now, Row(key, g));
      assert Entitles(a, tables, user, permission, resource, principal, now);
    }
  }

  // ---- What a scope looks at ----

  // Resources that agree in the one attribute a scope of this kind is about.
  predicate Agree(kind: ScopeType, r: Resource, r': Resource) {
    match kind
    case Global => true
    case Self => r.ownerId == r'.ownerId
    case Team => r.teamId == r'.teamId
    case Dept => r.deptId == r'.deptId
    case Region => r.region == r'.region
  }

  /**
   * A user all of whose assignments are of one scope kind gets the same answer for resources that agree in the
   * attribute of that kind, whatever their other attributes.
   */
  lemma OneAttributeDecides(tables: Tables, user: UserId, permission: Permission, kind: ScopeType,
                            r: Resource, r': Resource, principal: UserId, now: int)
    requires forall a :: a in tables.assignments && a.user == user ==> a.scope.kind == kind
    requires Agree(kind, r, r')
    ensures Allows(EffectiveAt(tables, user, now), permission, Some(r), Some(principal))
            <==> Allows(EffectiveAt(tables, user, now), permission, Some(r'), Some(principal))
  {
    SameAnswer(tables, user, permission, kind, r, r', principal, now);
    SameAnswer(tables, user, permission, kind, r', r, principal, now);
  }

  lemma SameAnswer(tables: Tables, user: UserId, permission: Permission, kind: ScopeType,
                   r: Resource, r': Resource, principal: UserId, now: int)
    requires forall a :: a in tables.assignments && a.user == user ==> a.scope.kind == kind
    requires Agree(kind, r, r')
    ensures Allows(EffectiveAt(tables, user, now), permission, Some(r), Some(principal))
            ==> Allows(EffectiveAt(tables, user, now), permission, Some(r'), Some(principal))
  {
    CheckIff(tables, user, permission, Some(r), Some(principal), now);
    CheckIff(tables, user, permission, Some(r'), Some(principal), now);
    if exists a :: a in tables.assignments && Entitles(a, tables, user, permission, Some(r), Some(principal), now) {
      var a :| a in tables.assignments && Entitles(a, tables, user, permission, Some(r), Some(principal), now);
      assert Entitles(a, tables, user, permission, Some(r'), Some(principal), now);
    }
  }

  // A user with one permission in one scope.
  function Alone(user: UserId, permission: Permission, scope: Scope): Tables {
    Tables([Role(0, "role", false)], [RolePermission(0, permission)], [Assignment(0, user, 0, scope, None)], map[])
  }

  /** What check() answers to that user. */
  predicate May(user: UserId, permission: Permission, scope: Scope, r: Resource, now: int) {
    Allows(EffectiveAt(Alone(user, permission, scope), user, now), permission, Some(r), Some(user))
  }

  lemma AloneAllows(user: UserId, permission: Permission, scope: Scope, r: Resource, now: int)
    ensures May(user, permission, scope, r, now) <==> InScope(scope, r, user)
  {
    var tables := Alone(user, permission, scope);
    CheckIff(tables, user, permission, Some(r), Some(user), now);
    var a := Assignment(0, user, 0, scope, None);
    assert a in tables.assignments && RolePermission(0, permission) in tables.rolePermissions;
    if InScope(scope, r, user) {
      assert Entitles(a, tables, user, permission, Some(r), Some(user), now);
    }
  }

  /** A global grant is for everything, one for oneself for what one owns, whoever's name the other attributes carry. */
  lemma GlobalAndSelf(user: UserId, permission: Permission, r: Resource, now: int)
    ensures May(user, permission, Scope(Global, None), r, now)
    ensures May(user, permission, Scope(Self, None), r, now) <==> r.ownerId == Some(user)
  {
    AloneAllows(user, permission, Scope(Global, None), r, now);
    AloneAllows(user, permission, Scope(Self, None), r, now);
  }

  /** A grant for a team, department or region is for the resources of exactly that one, and none that has none. */
  lemma OneGroupOnly(user: UserId, permission: Permission, id: string, r: Resource, now: int)
    ensures May(user, permission, Scope(Team, Some(id)), r, now) <==> r.teamId == Some(id)
    ensures May(user, permission, Scope(Dept, Some(id)), r, now) <==> r.deptId == Some(id)
    ensures May(user, permission, Scope(Region, Some(id)), r, now) <==> r.region == Some(id)
  {
    AloneAllows(user, permission, Scope(Team, Some(id)), r, now);
    AloneAllows(user, permission, Scope(Dept, Some(id)), r, now);
    AloneAllows(user, permission, Scope(Region, Some(id)), r, now);
  }
}
