/**
 * Administrative RBAC: granting and revoking scoped assignments, reconciling a user's global roles with
 * what an identity provider asserts, and keeping the role claims and the permission cache in step.
 */
module AuthzAdmin {
  import opened Common
  import opened Authz

  const GLOBAL := Scope(Global, None)

  datatype Refusal = RoleNotFound | CannotGrant | ScopeIdRequired | AssignmentNotFound | RoleKeyTaken
                   | PermissionNotFound | DuplicatePermission

  datatype Outcome<T> = Ok(value: T) | Error(refusal: Refusal)

  // ---- Sorted claims ----

  /** Strict lexicographic order, as the default sort compares strings. */
  predicate Before(a: string, b: string) {
    if b == [] then false
    else if a == [] then true
    else if a[0] != b[0] then a[0] < b[0]
    else Before(a[1..], b[1..])
  }

  lemma {:induction false} BeforeIsTotal(a: string, b: string)
    ensures a == b || Before(a, b) || Before(b, a)
  {
    if a != [] && b != [] && a[0] == b[0] {
      BeforeIsTotal(a[1..], b[1..]);
      assert a == [a[0]] + a[1..] && b == [b[0]] + b[1..];
    }
  }

  lemma {:induction false} BeforeIsTransitive(a: string, b: string, c: string)
    requires Before(a, b) && Before(b, c)
    ensures Before(a, c)
  {
    if a != [] && a[0] == b[0] == c[0] {
      BeforeIsTransitive(a[1..], b[1..], c[1..]);
    }
  }

  lemma {:induction false} BeforeIsIrreflexive(a: string)
    ensures !Before(a, a)
  {
    if a != [] {
      BeforeIsIrreflexive(a[1..]);
    }
  }

  /** The order of a dictionary: the shorter of two that agree comes first, or else the first difference decides. */
  lemma {:induction false} BeforeIsLexicographic(a: string, b: string)
    ensures Before(a, b) <==> exists n: nat :: FirstDiffer(a, b, n)
  {
    if a != [] && b != [] && a[0] == b[0] {
      BeforeIsLexicographic(a[1..], b[1..]);
      if n: nat :| FirstDiffer(a[1..], b[1..], n) {
        assert a[..n + 1] == [a[0]] + a[1..][..n] && b[..n + 1] == [b[0]] + b[1..][..n];
        assert FirstDiffer(a, b, n + 1);
      }
      if n: nat :| FirstDiffer(a, b, n) {
        assert a[1..][..n - 1] == a[..n][1..] && b[1..][..n - 1] == b[..n][1..];
        assert FirstDiffer(a[1..], b[1..], n - 1);
      }
    } else if Before(a, b) {
      assert FirstDiffer(a, b, 0);
    } else {
      forall n | 0 < n <= |a| && n < |b| ensures a[..n] != b[..n] {
        assert a[..n][0] == a[0] && b[..n][0] == b[0];
      }
    }
  }

  predicate FirstDiffer(a: string, b: string, n: nat) {
    && n <= |a| && n < |b| && a[..n] == b[..n]
    && (n < |a| ==> a[n] < b[n])
  }

  ghost predicate Sorted(keys: seq<string>) {
    forall i, j :: 0 <= i < j < |keys| ==> Before(keys[i], keys[j])
  }

  function Insert(key: string, keys: seq<string>): seq<string> {
    if keys == [] then [key]
    else if key == keys[0] then keys
    else if Before(key, keys[0]) then [key] + keys
    else [keys[0]] + Insert(key, keys[1..])
  }

  function SortDistinct(keys: seq<string>): seq<string> {
    if keys == [] then [] else Insert(keys[|keys| - 1], SortDistinct(keys[..|keys| - 1]))
  }

  lemma {:induction false} InsertSorts(key: string, keys: seq<string>)
    requires Sorted(keys)
    ensures Sorted(Insert(key, keys))
    ensures forall k :: k in Insert(key, keys) <==> k == key || k in keys
  {
    if keys != [] && key != keys[0] {
      assert keys == [keys[0]] + keys[1..];
      if Before(key, keys[0]) {
        forall j | 0 <= j < |keys| ensures Before(key, keys[j]) {
          if j > 0 {
            BeforeIsTransitive(key, keys[0], keys[j]);
          }
        }
      } else {
        BeforeIsTotal(key, keys[0]);
        InsertSorts(key, keys[1..]);
        var rest := Insert(key, keys[1..]);
        forall j | 0 <= j < |rest| ensures Before(keys[0], rest[j]) {
          assert rest[j] in rest;
        }
      }
    }
  }

  lemma {:induction false} SortDistinctSorts(keys: seq<string>)
    ensures Sorted(SortDistinct(keys))
    ensures forall k :: k in SortDistinct(keys) <==> k in keys
  {
    if keys != [] {
      SortDistinctSorts(keys[..|keys| - 1]);
      InsertSorts(keys[|keys| - 1], SortDistinct(keys[..|keys| - 1]));
      assert keys == keys[..|keys| - 1] + [keys[|keys| - 1]];
    }
  }

  /** A strictly sorted list is determined by its elements, so it does not matter how the database orders its rows. */
  lemma {:induction false} SortedIsUnique(a: seq<string>, b: seq<string>)
    requires Sorted(a) && Sorted(b) && forall k :: k in a <==> k in b
    ensures a == b
  {
    NotEmptyEither(a, b);
    NotEmptyEither(b, a);
    if a != [] {
      assert a[0] in b;
      assert b[0] in a;
      SortedHeads(a, b);
      forall k ensures k in a[1..] <==> k in b[1..] {
        TailMembers(a, k);
        TailMembers(b, k);
      }
      SortedIsUnique(a[1..], b[1..]);
      assert a == [a[0]] + a[1..] && b == [b[0]] + b[1..];
    }
  }

  lemma NotEmptyEither(a: seq<string>, b: seq<string>)
    requires forall k :: k in a ==> k in b
    ensures a != [] ==> b != []
  {
    if a != [] {
      assert a[0] in b;
    }
  }

  lemma SortedHeads(a: seq<string>, b: seq<string>)
    requires Sorted(a) && Sorted(b) && a != [] && b != [] && a[0] in b && b[0] in a
    ensures a[0] == b[0]
  {
    var i :| 0 <= i < |b| && b[i] == a[0];
    var j :| 0 <= j < |a| && a[j] == b[0];
    if i > 0 && j > 0 {
      BeforeIsTransitive(a[0], b[0], a[0]);
      BeforeIsIrreflexive(a[0]);
    }
  }

  lemma TailMembers(a: seq<string>, k: string)
    requires Sorted(a) && a != []
    ensures k in a[1..] <==> k in a && k != a[0]
  {
    BeforeIsIrreflexive(a[0]);
    assert a == [a[0]] + a[1..];
  }

  // ---- Table operations ----

  predicate SamePlace(a: Assignment, user: UserId, role: RoleId, scope: Scope) {
    a.user == user && a.role == role && a.scope == scope
  }

  predicate HasEquivalent(rows: seq<Assignment>, user: UserId, role: RoleId, scope: Scope) {
    exists a :: a in rows && SamePlace(a, user, role, scope)
  }

  /** An insert that finds an equivalent row keeps it, expired or not. */
  function Assigned(rows: seq<Assignment>, a: Assignment): seq<Assignment> {
    if HasEquivalent(rows, a.user, a.role, a.scope) then rows else rows + [a]
  }

  function Without(rows: seq<Assignment>, ids: set<nat>): seq<Assignment> {
    Filter(NotAmong(ids), rows)
  }

  function NotAmong(ids: set<nat>): Assignment -> bool {
    (a: Assignment) => a.id !in ids
  }

  function KeysOf(roles: seq<Role>, role: RoleId): seq<string> {
    if roles == [] then []
    else KeysOf(roles[..|roles| - 1], role) + if roles[|roles| - 1].id == role then [roles[|roles| - 1].key] else []
  }

  function ActiveKeyRows(rows: seq<Assignment>, roles: seq<Role>, user: UserId, now: int): seq<string> {
    if rows == [] then []
    else
      var last := rows[|rows| - 1];
      ActiveKeyRows(rows[..|rows| - 1], roles, user, now)
      + if last.user == user && Live(last, now) then KeysOf(roles, last.role) else []
  }

  function Claims(t: Tables, user: UserId, now: int): seq<string> {
    SortDistinct(ActiveKeyRows(t.assignments, t.roles, user, now))
  }

  /** The employee's row carries the claims; a user without one has nothing to update. */
  function WithClaims(t: Tables, user: UserId, now: int): Tables {
    if user in t.claims then t.(claims := t.claims[user := Claims(t, user, now)]) else t
  }

  // ---- What every operation keeps ----

  predicate ValidScope(scope: Scope) {
    if scope.kind == Global || scope.kind == Self then scope.id.None? else scope.id.Some? && scope.id.value != ""
  }

  predicate HasRole(roles: seq<Role>, id: RoleId) {
    exists r :: r in roles && r.id == id
  }

  ghost predicate ValidRows(rows: seq<Assignment>, nextId: nat) {
    && (forall i :: 0 <= i < |rows| ==> rows[i].id < nextId && ValidScope(rows[i].scope))
    && (forall i, j :: 0 <= i < j < |rows| ==> rows[i].id != rows[j].id)
    && (forall i, j :: 0 <= i < j < |rows| ==> !SamePlace(rows[i], rows[j].user, rows[j].role, rows[j].scope))
  }

  ghost predicate ValidRoles(t: Tables, nextRole: nat) {
    && (forall i :: 0 <= i < |t.roles| ==> t.roles[i].id < nextRole)
    && (forall i, j :: 0 <= i < j < |t.roles| ==> t.roles[i].id != t.roles[j].id && t.roles[i].key != t.roles[j].key)
    && (forall a :: a in t.assignments ==> HasRole(t.roles, a.role))
    && (forall p :: p in t.rolePermissions ==> HasRole(t.roles, p.role))
  }

  // ---- Reconciliation ----

  function IdByKey(roles: seq<Role>, key: string): Option<RoleId> {
    if roles == [] then None
    else if roles[|roles| - 1].key == key then Some(roles[|roles| - 1].id)
    else IdByKey(roles[..|roles| - 1], key)
  }

  /** The requested roles that exist, each once, in the order they were first asked for. */
  function Desired(roles: seq<Role>, keys: seq<string>): seq<RoleId> {
    if keys == [] then []
    else
      var before := Desired(roles, keys[..|keys| - 1]);
      var id := IdByKey(roles, keys[|keys| - 1]);
      if id.Some? && id.value !in before then before + [id.value] else before
  }

  predicate IsGlobalOf(a: Assignment, user: UserId) {
    a.user == user && a.scope.kind == Global
  }

  predicate HasGlobal(rows: seq<Assignment>, user: UserId, role: RoleId) {
    exists a :: a in rows && IsGlobalOf(a, user) && a.role == role
  }

  function GlobalsOf(rows: seq<Assignment>, user: UserId): seq<Assignment> {
    Filter(GlobalTo(user), rows)
  }

  function GlobalTo(user: UserId): Assignment -> bool {
    (a: Assignment) => IsGlobalOf(a, user)
  }

  function Kept(rows: seq<Assignment>, user: UserId, desired: seq<RoleId>): seq<Assignment> {
    Filter(Keeps(user, desired), rows)
  }

  function Keeps(user: UserId, desired: seq<RoleId>): Assignment -> bool {
    (a: Assignment) => IsGlobalOf(a, user) ==> a.role in desired
  }

  function Missing(rows: seq<Assignment>, user: UserId, desired: seq<RoleId>, nextId: nat): seq<Assignment> {
    if desired == [] then []
    else
      var before := Missing(rows, user, desired[..|desired| - 1], nextId);
      var role := desired[|desired| - 1];
      before + if HasGlobal(rows, user, role) then [] else [Assignment(nextId + |before|, user, role, GLOBAL, None)]
  }

  function Reconciled(rows: seq<Assignment>, user: UserId, desired: seq<RoleId>, nextId: nat): seq<Assignment> {
    Kept(rows, user, desired) + Missing(rows, user, desired, nextId)
  }

  /** The rows reconciliation may not touch: other users', and scoped ones. */
  function Untouched(rows: seq<Assignment>, user: UserId): seq<Assignment> {
    Filter(NotGlobalTo(user), rows)
  }

  function NotGlobalTo(user: UserId): Assignment -> bool {
    (a: Assignment) => !IsGlobalOf(a, user)
  }

  lemma {:induction false} DesiredOnce(roles: seq<Role>, keys: seq<string>)
    ensures Distinct(Desired(roles, keys))
  {
    if keys != [] {
      DesiredOnce(roles, keys[..|keys| - 1]);
    }
  }

  lemma {:induction false} DesiredNames(roles: seq<Role>, keys: seq<string>, role: RoleId)
    ensures role in Desired(roles, keys) <==> exists k :: k in keys && IdByKey(roles, k) == Some(role)
  {
    if keys != [] {
      var init, last := keys[..|keys| - 1], keys[|keys| - 1];
      DesiredNames(roles, init, role);
      assert keys == init + [last];
      if exists k :: k in keys && IdByKey(roles, k) == Some(role) {
        var k :| k in keys && IdByKey(roles, k) == Some(role);
        assert k in init || k == last;
      }
      if exists k :: k in init && IdByKey(roles, k) == Some(role) {
        var k :| k in init && IdByKey(roles, k) == Some(role);
        assert k in keys;
      }
      assert last in keys;
    }
  }

  /** Keys are unique, so a key names the role that has it. */
  lemma {:induction false} IdByKeyExact(roles: seq<Role>, key: string, id: RoleId)
    requires forall i, j :: 0 <= i < j < |roles| ==> roles[i].key != roles[j].key
    ensures IdByKey(roles, key) == Some(id) <==> exists r :: r in roles && r.key == key && r.id == id
  {
    if roles != [] {
      var init, last := roles[..|roles| - 1], roles[|roles| - 1];
      IdByKeyExact(init, key, id);
      assert roles == init + [last];
      if exists r :: r in roles && r.key == key && r.id == id {
        var r :| r in roles && r.key == key && r.id == id;
        assert r in init || r == last;
        if last.key == key {
          assert r !in init;
        } else {
          assert r in init;
        }
      }
      if last.key == key && last.id == id {
        assert last in roles;
      }
    }
  }

  ghost predicate Grants(rows: seq<Assignment>, role: RoleId) {
    exists a :: a in rows && a.role == role
  }

  lemma GrantsConcat(a: seq<Assignment>, b: seq<Assignment>, role: RoleId)
    ensures Grants(a + b, role) <==> Grants(a, role) || Grants(b, role)
  {
    if Grants(a, role) {
      var r :| r in a && r.role == role;
      assert r in a + b;
    }
    if Grants(b, role) {
      var r :| r in b && r.role == role;
      assert r in a + b;
    }
  }

  lemma {:induction false} MissingExact(rows: seq<Assignment>, user: UserId, desired: seq<RoleId>, nextId: nat,
                                        role: RoleId)
    ensures Grants(Missing(rows, user, desired, nextId), role) <==> role in desired && !HasGlobal(rows, user, role)
    ensures forall a :: a in Missing(rows, user, desired, nextId) ==>
              a.user == user && a.scope == GLOBAL && a.expiresAt.None? && a.id >= nextId
  {
    if desired != [] {
      var init, last := desired[..|desired| - 1], desired[|desired| - 1];
      MissingExact(rows, user, init, nextId, role);
      assert desired == init + [last];
      var before := Missing(rows, user, init, nextId);
      var added := Assignment(nextId + |before|, user, last, GLOBAL, None);
      if !HasGlobal(rows, user, last) {
        GrantsConcat(before, [added], role);
        assert added in [added];
      } else {
        assert Missing(rows, user, desired, nextId) == before;
      }
    }
  }

  /**
   * Reconciliation leaves the user with global assignments exactly for the desired roles. A row that was
   * there is kept as it was, an expired one included; new rows do not expire; other rows, in order, are untouched.
   */
  lemma ReconciledExact(rows: seq<Assignment>, user: UserId, desired: seq<RoleId>, nextId: nat)
    requires forall a :: a in rows ==> a.id < nextId
    ensures var after := Reconciled(rows, user, desired, nextId);
            && (forall role :: HasGlobal(after, user, role) <==> role in desired)
            && Untouched(after, user) == Untouched(rows, user)
            && (forall a :: a in rows && IsGlobalOf(a, user) ==> (a in after <==> a.role in desired))
            && (forall a :: a in after && a !in rows ==>
                  a.user == user && a.scope == GLOBAL && a.expiresAt.None? && !HasGlobal(rows, user, a.role))
  {
    var kept, missing := Kept(rows, user, desired), Missing(rows, user, desired, nextId);
    var after := kept + missing;
    forall role ensures HasGlobal(after, user, role) <==> role in desired {
      MissingExact(rows, user, desired, nextId, role);
      if role in desired {
        if HasGlobal(rows, user, role) {
          var a :| a in rows && IsGlobalOf(a, user) && a.role == role;
          FilterMember(Keeps(user, desired), rows, a);
          assert a in after;
        } else {
          assert Grants(missing, role);
          var a :| a in missing && a.role == role;
          assert a in after;
        }
      }
      if HasGlobal(after, user, role) {
        var a :| a in after && IsGlobalOf(a, user) && a.role == role;
        FilterMember(Keeps(user, desired), rows, a);
        assert a in missing ==> Grants(missing, role);
      }
    }
    FilterConcat(NotGlobalTo(user), kept, missing);
    FilterTwice(Keeps(user, desired), NotGlobalTo(user), NotGlobalTo(user), rows);
    MissingExact(rows, user, desired, nextId, 0);
    FilterNone(NotGlobalTo(user), missing);
    forall a | a in rows && IsGlobalOf(a, user)
      ensures a in after <==> a.role in desired
    {
      FilterMember(Keeps(user, desired), rows, a);
      MissingExact(rows, user, desired, nextId, a.role);
    }
    forall a | a in after && a !in rows
      ensures a.user == user && a.scope == GLOBAL && a.expiresAt.None? && !HasGlobal(rows, user, a.role)
    {
      FilterMember(Keeps(user, desired), rows, a);
      MissingExact(rows, user, desired, nextId, a.role);
    }
  }

  lemma {:induction false} MissesNone(rows: seq<Assignment>, user: UserId, desired: seq<RoleId>, nextId: nat)
    requires forall role :: role in desired ==> HasGlobal(rows, user, role)
    ensures Missing(rows, user, desired, nextId) == []
  {
    if desired != [] {
      MissesNone(rows, user, desired[..|desired| - 1], nextId);
      assert desired[|desired| - 1] in desired;
    }
  }

  /** Reconciling again with the same keys changes nothing. */
  lemma ReconciledIsIdempotent(rows: seq<Assignment>, user: UserId, desired: seq<RoleId>, nextId: nat, nextId': nat)
    requires forall a :: a in rows ==> a.id < nextId
    ensures var after := Reconciled(rows, user, desired, nextId);
            Reconciled(after, user, desired, nextId') == after
  {
    var after := Reconciled(rows, user, desired, nextId);
    ReconciledExact(rows, user, desired, nextId);
    forall a | a in after && IsGlobalOf(a, user) ensures a.role in desired {
      assert HasGlobal(after, user, a.role);
    }
    FilterAll(Keeps(user, desired), after);
    MissesNone(after, user, desired, nextId');
  }

  // ---- Every operation keeps the tables valid ----

  lemma ValidAppend(rows: seq<Assignment>, a: Assignment, nextId: nat)
    requires ValidRows(rows, nextId) && a.id < nextId && ValidScope(a.scope)
    requires forall r :: r in rows ==> r.id != a.id && !SamePlace(r, a.user, a.role, a.scope)
    ensures ValidRows(rows + [a], nextId)
  {
    forall i, j | 0 <= i < j < |rows + [a]|
      ensures (rows + [a])[i].id != (rows + [a])[j].id
              && !SamePlace((rows + [a])[i], (rows + [a])[j].user, (rows + [a])[j].role, (rows + [a])[j].scope)
    {
      if j == |rows| {
        assert rows[i] in rows;
      }
    }
  }

  lemma ValidPrefix(rows: seq<Assignment>, nextId: nat)
    requires rows != [] && ValidRows(rows, nextId)
    ensures ValidRows(rows[..|rows| - 1], nextId)
    ensures forall r :: r in rows[..|rows| - 1] ==>
              var last := rows[|rows| - 1]; r.id != last.id && !SamePlace(r, last.user, last.role, last.scope)
  {
  }

  /** One row per user, role and scope: an insert that finds an equivalent row adds none. */
  lemma AssignedIsValid(rows: seq<Assignment>, a: Assignment, nextId: nat)
    requires ValidRows(rows, nextId) && a.id == nextId && ValidScope(a.scope)
    ensures ValidRows(Assigned(rows, a), nextId + 1)
    ensures HasEquivalent(rows, a.user, a.role, a.scope) ==> ValidRows(Assigned(rows, a), nextId)
  {
    assert ValidRows(rows, nextId + 1);
    if !HasEquivalent(rows, a.user, a.role, a.scope) {
      ValidAppend(rows, a, nextId + 1);
    }
  }

  /** Deleting rows keeps one row per user, role and scope. */
  lemma {:induction false} FilterIsValid(keep: Assignment -> bool, rows: seq<Assignment>, nextId: nat)
    requires ValidRows(rows, nextId)
    ensures ValidRows(Filter(keep, rows), nextId)
  {
    if rows != [] {
      var init, last := rows[..|rows| - 1], rows[|rows| - 1];
      ValidPrefix(rows, nextId);
      FilterIsValid(keep, init, nextId);
      if keep(last) {
        forall r: Assignment | r in Filter(keep, init) ensures r in init {
          FilterMember(keep, init, r);
        }
        ValidAppend(Filter(keep, init), last, nextId);
      } else {
        assert Filter(keep, rows) == Filter(keep, init);
      }
    }
  }

  /** Deleting by id removes exactly the row with the id. */
  lemma WithoutExact(rows: seq<Assignment>, id: nat, nextId: nat)
    requires ValidRows(rows, nextId)
    ensures ValidRows(Without(rows, {id}), nextId)
    ensures forall a :: a in Without(rows, {id}) <==> a in rows && a.id != id
  {
    FilterIsValid(NotAmong({id}), rows, nextId);
    forall a ensures a in Without(rows, {id}) <==> a in rows && a.id != id {
      FilterMember(NotAmong({id}), rows, a);
    }
  }

  lemma NewRowIsValid(rows: seq<Assignment>, a: Assignment)
    requires ValidRows(rows, a.id) && ValidScope(a.scope)
    requires forall r :: r in rows ==> !SamePlace(r, a.user, a.role, a.scope)
    ensures ValidRows(rows + [a], a.id + 1)
  {
    forall r | r in rows ensures r.id < a.id {
      var i :| 0 <= i < |rows| && rows[i] == r;
    }
    ValidAppend(rows, a, a.id + 1);
  }

  lemma NewRowAtEnd(front: seq<Assignment>, back: seq<Assignment>, a: Assignment)
    requires ValidRows(front + back, a.id) && ValidScope(a.scope)
    requires forall r :: r in front + back ==> !SamePlace(r, a.user, a.role, a.scope)
    ensures ValidRows(front + (back + [a]), a.id + 1)
  {
    NewRowIsValid(front + back, a);
    assert front + (back + [a]) == front + back + [a];
  }

  // A role not granted so far has no equivalent row.
  lemma NotYetThere(rows: seq<Assignment>, user: UserId, all: seq<RoleId>, init: seq<RoleId>, nextId: nat, role: RoleId)
    requires !HasGlobal(rows, user, role) && role !in init
    ensures forall r :: r in Kept(rows, user, all) + Missing(rows, user, init, nextId) ==>
              !SamePlace(r, user, role, GLOBAL)
  {
    MissingExact(rows, user, init, nextId, role);
    forall r | r in Kept(rows, user, all) ensures !SamePlace(r, user, role, GLOBAL) {
      FilterMember(Keeps(user, all), rows, r);
    }
    forall r | r in Missing(rows, user, init, nextId) ensures r.role != role {
      assert !Grants(Missing(rows, user, init, nextId), role);
    }
  }

  lemma LastIsNew(ids: seq<RoleId>)
    requires ids != [] && Distinct(ids)
    ensures Distinct(ids[..|ids| - 1]) && ids[|ids| - 1] !in ids[..|ids| - 1]
  {
  }

  /** Reconciliation keeps one row per user, role and scope. */
  lemma {:induction false} ReconciledIsValid(rows: seq<Assignment>, user: UserId, all: seq<RoleId>,
                                             desired: seq<RoleId>, nextId: nat)
    requires ValidRows(rows, nextId) && Distinct(desired)
    ensures ValidRows(Kept(rows, user, all) + Missing(rows, user, desired, nextId),
                      nextId + |Missing(rows, user, desired, nextId)|)
  {
    if desired == [] {
      FilterIsValid(Keeps(user, all), rows, nextId);
      assert Kept(rows, user, all) + [] == Kept(rows, user, all);
    } else {
      var init, role := desired[..|desired| - 1], desired[|desired| - 1];
      LastIsNew(desired);
      ReconciledIsValid(rows, user, all, init, nextId);
      LastMissing(rows, user, desired, nextId);
      var before := Missing(rows, user, init, nextId);
      if HasGlobal(rows, user, role) {
        assert Missing(rows, user, desired, nextId) == before;
      } else {
        LastRoleIsValid(rows, user, all, init, role, nextId);
        ValidUnderEquality(Kept(rows, user, all), Missing(rows, user, desired, nextId), nextId + |before| + 1,
                           before + [Assignment(nextId + |before|, user, role, GLOBAL, None)]);
      }
    }
  }

  lemma ValidUnderEquality(front: seq<Assignment>, back: seq<Assignment>, n: nat, back': seq<Assignment>)
    requires back == back' && ValidRows(front + back', n)
    ensures ValidRows(front + back, n)
  {
  }

  lemma LastMissing(rows: seq<Assignment>, user: UserId, desired: seq<RoleId>, nextId: nat)
    requires desired != []
    ensures var role := desired[|desired| - 1];
            var before := Missing(rows, user, desired[..|desired| - 1], nextId);
            Missing(rows, user, desired, nextId)
            == if HasGlobal(rows, user, role) then before
               else before + [Assignment(nextId + |before|, user, role, GLOBAL, None)]
  {
  }

  lemma LastRoleIsValid(rows: seq<Assignment>, user: UserId, all: seq<RoleId>, init: seq<RoleId>, role: RoleId,
                        nextId: nat)
    requires role !in init && !HasGlobal(rows, user, role)
    requires var before := Missing(rows, user, init, nextId);
             ValidRows(Kept(rows, user, all) + before, nextId + |before|)
    ensures var before := Missing(rows, user, init, nextId);
            ValidRows(Kept(rows, user, all) + (before + [Assignment(nextId + |before|, user, role, GLOBAL, None)]),
                      nextId + |before| + 1)
  {
    var before := Missing(rows, user, init, nextId);
    NotYetThere(rows, user, all, init, nextId, role);
    NewRowAtEnd(Kept(rows, user, all), before, Assignment(nextId + |before|, user, role, GLOBAL, None));
  }

  // ---- Claims ----

  lemma {:induction false} KeysOfExact(roles: seq<Role>, role: RoleId, key: string)
    ensures key in KeysOf(roles, role) <==> exists r :: r in roles && r.id == role && r.key == key
  {
    if roles != [] {
      var init, last := roles[..|roles| - 1], roles[|roles| - 1];
      KeysOfExact(init, role, key);
      assert roles == init + [last];
      if exists r :: r in init && r.id == role && r.key == key {
        var r :| r in init && r.id == role && r.key == key;
        assert r in roles;
      }
      assert last in roles;
    }
  }

  /** The user has an unexpired assignment of a role with this key. */
  ghost predicate Carries(rows: seq<Assignment>, roles: seq<Role>, user: UserId, now: int, key: string) {
    exists a :: a in rows && a.user == user && Live(a, now) && key in KeysOf(roles, a.role)
  }

  lemma {:induction false} ActiveKeysExact(rows: seq<Assignment>, roles: seq<Role>, user: UserId, now: int, key: string)
    ensures key in ActiveKeyRows(rows, roles, user, now) <==> Carries(rows, roles, user, now, key)
  {
    if rows != [] {
      var init, last := rows[..|rows| - 1], rows[|rows| - 1];
      ActiveKeysExact(init, roles, user, now, key);
      assert rows == init + [last];
      assert last in rows;
      if Carries(init, roles, user, now, key) {
        var a :| a in init && a.user == user && Live(a, now) && key in KeysOf(roles, a.role);
        assert a in rows;
      }
    }
  }

  /** The claims are the distinct keys of the roles held through unexpired assignments, sorted. */
  lemma ClaimsExact(t: Tables, user: UserId, now: int)
    ensures Sorted(Claims(t, user, now))
    ensures forall key :: key in Claims(t, user, now) <==> Carries(t.assignments, t.roles, user, now, key)
  {
    SortDistinctSorts(ActiveKeyRows(t.assignments, t.roles, user, now));
    forall key ensures key in Claims(t, user, now) <==> Carries(t.assignments, t.roles, user, now, key) {
      ActiveKeysExact(t.assignments, t.roles, user, now, key);
    }
  }

  // ---- Calls ----

  /** The scope a command means: null ids for global and self, a required id for the rest. */
  function ScopeOf(scopeType: Option<ScopeType>, scopeId: Option<string>): Option<Scope> {
    var kind := if scopeType.Some? then scopeType.value else Global;
    if kind == Global || kind == Self then Some(Scope(kind, None))
    else if scopeId.None? || scopeId.value == "" then None
    else Some(Scope(kind, scopeId))
  }

  /** The escalation guard on a resolved map: the wildcard, or every permission the role carries. */
  predicate CanGrant(t: Tables, effective: Effective, role: RoleId) {
    WILDCARD in effective || forall p :: p in t.rolePermissions && p.role == role ==> p.permission in effective
  }

  function AssignRefusal(t: Tables, effective: Effective, role: RoleId, scope: Option<Scope>): Option<Refusal> {
    if !HasRole(t.roles, role) then Some(RoleNotFound)
    else if !CanGrant(t, effective, role) then Some(CannotGrant)
    else if scope.None? then Some(ScopeIdRequired)
    else None
  }

  function AfterAssign(t: Tables, a: Assignment, now: int): Tables {
    WithClaims(t.(assignments := Assigned(t.assignments, a)), a.user, now)
  }

  function FindAssignment(rows: seq<Assignment>, id: nat): Option<Assignment> {
    if rows == [] then None
    else if rows[|rows| - 1].id == id then Some(rows[|rows| - 1])
    else FindAssignment(rows[..|rows| - 1], id)
  }

  function AfterRevoke(t: Tables, id: nat, now: int): Tables {
    var found := FindAssignment(t.assignments, id);
    if found.None? then t else WithClaims(t.(assignments := Without(t.assignments, {id})), found.value.user, now)
  }

  function AfterSync(t: Tables, user: UserId, keys: seq<string>, nextId: nat, now: int): Tables {
    WithClaims(t.(assignments := Reconciled(t.assignments, user, Desired(t.roles, keys), nextId)), user, now)
  }

  predicate HasDuplicates(permissions: seq<Permission>) {
    exists i, j :: 0 <= i < j < |permissions| && permissions[i] == permissions[j]
  }

  /** A list without repetition is as long as the set of what it lists. */
  lemma {:induction false} DuplicatesShrink(permissions: seq<Permission>)
    ensures |set p | p in permissions| <= |permissions|
    ensures HasDuplicates(permissions) <==> |set p | p in permissions| < |permissions|
  {
    if permissions != [] {
      var init, last := permissions[..|permissions| - 1], permissions[|permissions| - 1];
      DuplicatesShrink(init);
      assert permissions == init + [last];
      assert (set p | p in permissions) == (set p | p in init) + {last};
      if last in init {
        var i :| 0 <= i < |init| && init[i] == last;
        assert permissions[i] == permissions[|init|];
      } else if HasDuplicates(permissions) {
        var i, j :| 0 <= i < j < |permissions| && permissions[i] == permissions[j];
        assert j < |init| && init[i] == init[j];
      } else {
        assert forall i, j :: 0 <= i < j < |init| ==> permissions[i] != permissions[j];
      }
    }
  }

  function CreateRefusal(t: Tables, catalog: set<Permission>, key: string,
                         permissions: seq<Permission>): Option<Refusal>
  {
    if exists r :: r in t.roles && r.key == key then Some(RoleKeyTaken)
    else if exists p :: p in permissions && p !in catalog then Some(PermissionNotFound)
    else if HasDuplicates(permissions) then Some(DuplicatePermission)
    else None
  }

  function AfterCreate(t: Tables, id: RoleId, key: string, permissions: seq<Permission>): Tables {
    var carried := seq(|permissions|, i requires 0 <= i < |permissions| => RolePermission(id, permissions[i]));
    t.(roles := t.roles + [Role(id, key, false)], rolePermissions := t.rolePermissions + carried)
  }

  class AuthzAdminService {
    const authz: AuthzService
    const catalog: set<Permission>
    var nextId: nat
    var nextRole: nat

    constructor (authz: AuthzService, catalog: set<Permission>, nextId: nat, nextRole: nat)
      requires ValidRows(authz.tables.assignments, nextId) && ValidRoles(authz.tables, nextRole)
      ensures this.authz == authz && Valid()
    {
      this.authz, this.catalog, this.nextId, this.nextRole := authz, catalog, nextId, nextRole;
    }

    ghost predicate Valid()
      reads this, authz
    {
      ValidRows(authz.tables.assignments, nextId) && ValidRoles(authz.tables, nextRole)
    }

    method FindEquivalent(user: UserId, role: RoleId, scope: Scope) returns (found: Option<Assignment>)
      ensures found.Some? ==> found.value in authz.tables.assignments && SamePlace(found.value, user, role, scope)
      ensures found.None? ==> !HasEquivalent(authz.tables.assignments, user, role, scope)
      ensures found.Some? ==> found.value.user == user && found.value.role == role && found.value.scope == scope
      ensures found.None? ==> forall a :: a in authz.tables.assignments ==>
                a.user != user || a.role != role || a.scope != scope
    {
      var rows := authz.tables.assignments;
      for i := 0 to |rows|
        invariant forall j :: 0 <= j < i ==> !SamePlace(rows[j], user, role, scope)
      {
        if SamePlace(rows[i], user, role, scope) {
          return Some(rows[i]);
        }
      }
      found := None;
    }

    ghost predicate RowsValid()
      reads this, authz
    {
      ValidRows(authz.tables.assignments, nextId)
    }

    method Assign(user: UserId, role: RoleId, scope: Scope, expiresAt: Option<int>) returns (a: Assignment)
      requires RowsValid() && ValidScope(scope)
      modifies authz`tables, `nextId
      ensures RowsValid()
      ensures var row := Assignment(old(nextId), user, role, scope, expiresAt);
              authz.tables == old(authz.tables).(assignments := Assigned(old(authz.tables).assignments, row))
      ensures nextId == old(nextId) + if HasEquivalent(old(authz.tables).assignments, user, role, scope) then 0 else 1
      ensures a in authz.tables.assignments && SamePlace(a, user, role, scope)
    {
      var row := Assignment(nextId, user, role, scope, expiresAt);
      AssignedIsValid(authz.tables.assignments, row, nextId);
      var existing := FindEquivalent(user, role, scope);
      if existing.Some? {
        return existing.value;
      }
      authz.tables := authz.tables.(assignments := authz.tables.assignments + [row]);
      nextId := nextId + 1;
      return row;
    }

    method Revoke(id: nat)
      requires RowsValid()
      modifies authz`tables
      ensures RowsValid()
      ensures authz.tables == old(authz.tables).(assignments := Without(old(authz.tables).assignments, {id}))
    {
      WithoutExact(authz.tables.assignments, id, nextId);
      authz.tables := authz.tables.(assignments := Without(authz.tables.assignments, {id}));
    }

    method SyncEmployeeRoleClaims(user: UserId, now: int) returns (keys: seq<string>)
      modifies authz`tables
      ensures keys == Claims(old(authz.tables), user, now) && authz.tables == WithClaims(old(authz.tables), user, now)
    {
      keys := SortDistinct(ActiveKeyRows(authz.tables.assignments, authz.tables.roles, user, now));
      if user in authz.tables.claims {
        authz.tables := authz.tables.(claims := authz.tables.claims[user := keys]);
      }
    }

    /** What follows every change to a user's assignments. */
    method Refresh(user: UserId, now: int) returns (keys: seq<string>)
      requires RowsValid()
      modifies authz
      ensures RowsValid() && Current(user)
      ensures keys == Claims(old(authz.tables), user, now) && authz.tables == WithClaims(old(authz.tables), user, now)
    {
      keys := SyncEmployeeRoleClaims(user, now);
      authz.Invalidate(user);
    }

    method AssignRole(user: UserId, role: RoleId, scopeType: Option<ScopeType>, scopeId: Option<string>,
                      expiresAt: Option<int>, actor: UserId, now: int, dbOk: bool) returns (r: Outcome<Assignment>)
      requires Valid()
      modifies authz, `nextId
      ensures Valid()
      ensures var answer := Answer(old(authz.tables), old(authz.cache), actor, now, dbOk);
              var refusal := AssignRefusal(old(authz.tables), answer, role, ScopeOf(scopeType, scopeId));
              if refusal.Some? then r == Error(refusal.value) && authz.tables == old(authz.tables)
              else && r.Ok? && r.value in authz.tables.assignments
                   && SamePlace(r.value, user, role, ScopeOf(scopeType, scopeId).value)
                   && authz.tables == AfterAssign(old(authz.tables),
                        Assignment(old(nextId), user, role, ScopeOf(scopeType, scopeId).value, expiresAt), now)
                   && Current(user)
      ensures r.Ok? ==> var scope := r.value.scope;
                && scope.kind == (if scopeType.Some? then scopeType.value else Global)
                && (scope.kind in {Team, Dept, Region} ==> scope.id == scopeId && scope.id.Some?)
                && (scope.kind in {Global, Self} ==> scope.id.None?)
      ensures var t := old(authz.tables); var answer := Answer(t, old(authz.cache), actor, now, dbOk);
              var mayGrant := "*" in answer || forall p :: p in t.rolePermissions && p.role == role ==>
                                                p.permission in answer;
              var groupless := scopeType.Some? && scopeType.value in {Team, Dept, Region}
                               && (scopeId.None? || scopeId.value == "");
              if forall x :: x in t.roles ==> x.id != role then r == Error(RoleNotFound)
              else if !mayGrant then r == Error(CannotGrant)
              else if groupless then r == Error(ScopeIdRequired)
              else r.Ok?
    {
      if !HasRole(authz.tables.roles, role) {
        return Error(RoleNotFound);
      }
      var effective := authz.Resolve(actor, now, dbOk);
      if !CanGrant(authz.tables, effective, role) {
        return Error(CannotGrant);
      }
      var scope := ScopeOf(scopeType, scopeId);
      if scope.None? {
        return Error(ScopeIdRequired);
      }
      r := Grant(user, role, scope.value, expiresAt, now);
    }

    method Grant(user: UserId, role: RoleId, scope: Scope, expiresAt: Option<int>, now: int)
      returns (r: Outcome<Assignment>)
      requires Valid() && ValidScope(scope) && HasRole(authz.tables.roles, role)
      modifies authz, `nextId
      ensures Valid()
      ensures r.Ok? && r.value in authz.tables.assignments && SamePlace(r.value, user, role, scope)
      ensures authz.tables == AfterAssign(old(authz.tables), Assignment(old(nextId), user, role, scope, expiresAt), now)
      ensures Current(user)
    {
      AssignedRoles(authz.tables, Assignment(nextId, user, role, scope, expiresAt), now, nextRole);
      var assignment := Assign(user, role, scope, expiresAt);
      var _ := Refresh(user, now);
      return Ok(assignment);
    }

    /** The next resolve of this user reads the tables as they are now, whenever it comes. */
    ghost predicate Current(user: UserId)
      reads authz
    {
      forall later :: Answer(authz.tables, authz.cache, user, later, true) == EffectiveAt(authz.tables, user, later)
    }

    method RevokeAssignment(id: nat, now: int) returns (refusal: Option<Refusal>)
      requires Valid()
      modifies authz
      ensures Valid()
      ensures authz.tables == AfterRevoke(old(authz.tables), id, now)
      ensures var found := FindAssignment(old(authz.tables).assignments, id);
              if found.None? then refusal == Some(AssignmentNotFound) && authz.cache == old(authz.cache)
              else refusal.None? && Current(found.value.user)
    {
      var found := FindAssignment(authz.tables.assignments, id);
      if found.None? {
        return Some(AssignmentNotFound);
      }
      WithoutExact(authz.tables.assignments, id, nextId);
      Revoke(id);
      var _ := Refresh(found.value.user, now);
      RolesStayValid(old(authz.tables), authz.tables, nextRole);
      return None;
    }

    method CreateRole(key: string, permissions: seq<Permission>) returns (r: Outcome<RoleId>)
      requires Valid()
      modifies authz`tables, `nextRole
      ensures Valid()
      ensures var refusal := CreateRefusal(old(authz.tables), catalog, key, permissions);
              if refusal.Some? then r == Error(refusal.value) && authz.tables == old(authz.tables)
              else r == Ok(old(nextRole))
                   && authz.tables == AfterCreate(old(authz.tables), old(nextRole), key, permissions)
      ensures if exists x :: x in old(authz.tables).roles && x.key == key then r == Error(RoleKeyTaken)
              else if exists p :: p in permissions && p !in catalog then r == Error(PermissionNotFound)
              else if |set p | p in permissions| < |permissions| then r == Error(DuplicatePermission)
              else r.Ok?
    {
      var refusal := CreateRefusal(authz.tables, catalog, key, permissions);
      DuplicatesShrink(permissions);
      if refusal.Some? {
        return Error(refusal.value);
      }
      var id := nextRole;
      CreatedIsValid(authz.tables, id, key, permissions);
      authz.tables := AfterCreate(authz.tables, id, key, permissions);
      nextRole := nextRole + 1;
      return Ok(id);
    }

    method SyncUserRolesByKeys(user: UserId, roleKeys: seq<string>, now: int) returns (finalKeys: seq<string>)
      requires Valid()
      modifies authz, `nextId
      ensures Valid()
      ensures authz.tables == AfterSync(old(authz.tables), user, roleKeys, old(nextId), now)
      ensures finalKeys == Claims(authz.tables, user, now)
      ensures Current(user)
    {
      ghost var rows, id0 := authz.tables.assignments, nextId;
      var desired := DesiredRoleIds(roleKeys);
      DesiredOnce(authz.tables.roles, roleKeys);
      ReconciledRoles(authz.tables, user, roleKeys, nextId, nextRole, now);
      var currentGlobal := GlobalsOf(authz.tables.assignments, user);
      var currentRoleIds := set a | a in currentGlobal :: a.role;
      forall a ensures a in currentGlobal <==> a in rows && IsGlobalOf(a, user) {
        FilterMember(GlobalTo(user), rows, a);
      }
      CurrentRoles(rows, user, currentGlobal);
      GrantMissing(user, desired, currentRoleIds);
      ghost var missing := Missing(rows, user, desired, id0);
      forall a | a in missing ensures a.id >= id0 {
        MissingExact(rows, user, desired, id0, a.role);
      }
      RevokeExtra(user, desired, currentGlobal, rows, missing, id0);
      finalKeys := Refresh(user, now);
      assert authz.tables == AfterSync(old(authz.tables), user, roleKeys, id0, now);
    }

    method DesiredRoleIds(roleKeys: seq<string>) returns (desired: seq<RoleId>)
      ensures desired == Desired(authz.tables.roles, roleKeys)
    {
      desired := [];
      for i := 0 to |roleKeys|
        invariant desired == Desired(authz.tables.roles, roleKeys[..i])
      {
        var id := IdByKey(authz.tables.roles, roleKeys[i]);
        assert roleKeys[..i + 1][..i] == roleKeys[..i];
        if id.Some? && id.value !in desired {
          desired := desired + [id.value];
        }
      }
      assert roleKeys[..|roleKeys|] == roleKeys;
    }

    method GrantMissing(user: UserId, desired: seq<RoleId>, currentRoleIds: set<RoleId>)
      requires RowsValid() && Distinct(desired)
      requires forall role :: role in currentRoleIds <==> HasGlobal(authz.tables.assignments, user, role)
      modifies authz`tables, `nextId
      ensures RowsValid()
      ensures var rows := old(authz.tables).assignments;
              && authz.tables == old(authz.tables).(assignments := rows + Missing(rows, user, desired, old(nextId)))
              && nextId == old(nextId) + |Missing(rows, user, desired, old(nextId))|
    {
      ghost var rows, id0 := authz.tables.assignments, nextId;
      for i := 0 to |desired|
        invariant RowsValid()
        invariant authz.tables == old(authz.tables).(assignments := rows + Missing(rows, user, desired[..i], id0))
        invariant nextId == id0 + |Missing(rows, user, desired[..i], id0)|
      {
        OneMoreMissing(rows, user, desired, i, id0);
        if desired[i] !in currentRoleIds {
          NoEquivalentYet(rows, user, desired[..i], id0, desired[i]);
          var _ := Assign(user, desired[i], GLOBAL, None);
        }
      }
      assert desired[..|desired|] == desired;
    }

    method RevokeExtra(user: UserId, desired: seq<RoleId>, currentGlobal: seq<Assignment>,
                       ghost rows: seq<Assignment>, ghost missing: seq<Assignment>, ghost id0: nat)
      requires RowsValid() && authz.tables.assignments == rows + missing
      requires ValidRows(rows, id0) && forall a: Assignment :: a in missing ==> a.id >= id0
      requires forall a :: a in currentGlobal <==> a in rows && IsGlobalOf(a, user)
      modifies authz`tables
      ensures RowsValid()
      ensures authz.tables == old(authz.tables).(assignments := Kept(rows, user, desired) + missing)
    {
      FilterAll(NotAmong({}), rows + missing);
      for i := 0 to |currentGlobal|
        invariant RowsValid()
        invariant authz.tables
               == old(authz.tables).(assignments := Without(rows + missing, ExtraIds(currentGlobal, desired, i)))
      {
        var a := currentGlobal[i];
        if a.role !in desired {
          Revoke(a.id);
          ghost var ids := ExtraIds(currentGlobal, desired, i);
          FilterTwice(NotAmong(ids), NotAmong({a.id}), NotAmong(ids + {a.id}), rows + missing);
        }
      }
      ExtraIdsExact(rows, user, currentGlobal, desired, id0);
      DroppingKeeps(rows, missing, user, desired, ExtraIds(currentGlobal, desired, |currentGlobal|));
    }
  }

  lemma DroppingKeeps(rows: seq<Assignment>, missing: seq<Assignment>, user: UserId, desired: seq<RoleId>,
                      ids: set<nat>)
    requires forall i :: 0 <= i < |rows| ==>
               (rows[i].id in ids <==> IsGlobalOf(rows[i], user) && rows[i].role !in desired)
    requires forall i :: 0 <= i < |missing| ==> missing[i].id !in ids
    ensures Without(rows + missing, ids) == Kept(rows, user, desired) + missing
  {
    FilterConcat(NotAmong(ids), rows, missing);
    FilterSame(NotAmong(ids), Keeps(user, desired), rows);
    FilterAll(NotAmong(ids), missing);
  }

  // The ids of the first n rows whose role is no longer wanted.
  function ExtraIds(rows: seq<Assignment>, desired: seq<RoleId>, n: nat): set<nat>
    requires n <= |rows|
  {
    if n == 0 then {}
    else if rows[n - 1].role in desired then ExtraIds(rows, desired, n - 1)
    else ExtraIds(rows, desired, n - 1) + {rows[n - 1].id}
  }

  lemma {:induction false} ExtraIdsMembers(rows: seq<Assignment>, desired: seq<RoleId>, n: nat, id: nat)
    requires n <= |rows|
    ensures id in ExtraIds(rows, desired, n) <==> exists i :: 0 <= i < n && rows[i].id == id && rows[i].role !in desired
  {
    if n > 0 {
      ExtraIdsMembers(rows, desired, n - 1, id);
    }
  }

  lemma ExtraIdsExact(rows: seq<Assignment>, user: UserId, currentGlobal: seq<Assignment>, desired: seq<RoleId>,
                      id0: nat)
    requires ValidRows(rows, id0) && forall a :: a in currentGlobal <==> a in rows && IsGlobalOf(a, user)
    ensures var ids := ExtraIds(currentGlobal, desired, |currentGlobal|);
            && (forall i :: 0 <= i < |rows| ==>
                  (rows[i].id in ids <==> IsGlobalOf(rows[i], user) && rows[i].role !in desired))
            && (forall id :: id in ids ==> id < id0)
  {
    var ids := ExtraIds(currentGlobal, desired, |currentGlobal|);
    forall id | id in ids ensures id < id0 {
      ExtraIdsMembers(currentGlobal, desired, |currentGlobal|, id);
      var k :| 0 <= k < |currentGlobal| && currentGlobal[k].id == id && currentGlobal[k].role !in desired;
      SameIdSameRow(rows, id0, currentGlobal[k]);
    }
    forall i | 0 <= i < |rows|
      ensures rows[i].id in ids <==> IsGlobalOf(rows[i], user) && rows[i].role !in desired
    {
      ExtraIdsMembers(currentGlobal, desired, |currentGlobal|, rows[i].id);
      SameIdSameRow(rows, id0, rows[i]);
      if rows[i] in currentGlobal {
        var k :| 0 <= k < |currentGlobal| && currentGlobal[k] == rows[i];
      }
    }
  }

  lemma CurrentRoles(rows: seq<Assignment>, user: UserId, currentGlobal: seq<Assignment>)
    requires forall a :: a in currentGlobal <==> a in rows && IsGlobalOf(a, user)
    ensures forall role :: role in (set a | a in currentGlobal :: a.role) <==> HasGlobal(rows, user, role)
  {
    forall role | HasGlobal(rows, user, role) ensures role in (set a | a in currentGlobal :: a.role) {
      var a :| a in rows && IsGlobalOf(a, user) && a.role == role;
      assert a in currentGlobal;
    }
  }

  lemma OneMoreMissing(rows: seq<Assignment>, user: UserId, desired: seq<RoleId>, i: nat, nextId: nat)
    requires i < |desired| && Distinct(desired)
    ensures desired[i] !in desired[..i]
    ensures var before := Missing(rows, user, desired[..i], nextId);
            Missing(rows, user, desired[..i + 1], nextId)
            == before + if HasGlobal(rows, user, desired[i]) then []
                        else [Assignment(nextId + |before|, user, desired[i], GLOBAL, None)]
  {
    assert desired[..i + 1][..i] == desired[..i];
  }

  lemma RolesStayValid(t: Tables, t': Tables, nextRole: nat)
    requires ValidRoles(t, nextRole) && t'.roles == t.roles && t'.rolePermissions == t.rolePermissions
    requires forall a :: a in t'.assignments && a !in t.assignments ==> HasRole(t.roles, a.role)
    ensures ValidRoles(t', nextRole)
  {
  }

  lemma AssignedRoles(t: Tables, a: Assignment, now: int, nextRole: nat)
    requires ValidRoles(t, nextRole) && HasRole(t.roles, a.role)
    ensures ValidRoles(AfterAssign(t, a, now), nextRole)
  {
    RolesStayValid(t, AfterAssign(t, a, now), nextRole);
  }

  // Reconciliation only grants roles that exist.
  lemma ReconciledRoles(t: Tables, user: UserId, keys: seq<string>, nextId: nat, nextRole: nat, now: int)
    requires ValidRows(t.assignments, nextId) && ValidRoles(t, nextRole)
    ensures ValidRoles(AfterSync(t, user, keys, nextId, now), nextRole)
  {
    var desired := Desired(t.roles, keys);
    ReconciledExact(t.assignments, user, desired, nextId);
    forall a | a in Reconciled(t.assignments, user, desired, nextId) && a !in t.assignments
      ensures HasRole(t.roles, a.role)
    {
      assert HasGlobal(Reconciled(t.assignments, user, desired, nextId), user, a.role);
      DesiredNames(t.roles, keys, a.role);
      var k :| k in keys && IdByKey(t.roles, k) == Some(a.role);
      IdByKeyExact(t.roles, k, a.role);
    }
    RolesStayValid(t, AfterSync(t, user, keys, nextId, now), nextRole);
  }

  lemma SameIdSameRow(rows: seq<Assignment>, nextId: nat, a: Assignment)
    requires ValidRows(rows, nextId) && a in rows
    ensures a.id < nextId && forall b :: b in rows && b.id == a.id ==> b == a
  {
    var i :| 0 <= i < |rows| && rows[i] == a;
    forall b | b in rows && b.id == a.id ensures b == a {
      var j :| 0 <= j < |rows| && rows[j] == b;
    }
  }

  lemma NoEquivalentYet(rows: seq<Assignment>, user: UserId, init: seq<RoleId>, nextId: nat, role: RoleId)
    requires !HasGlobal(rows, user, role) && role !in init
    ensures !HasEquivalent(rows + Missing(rows, user, init, nextId), user, role, GLOBAL)
  {
    MissingExact(rows, user, init, nextId, role);
    var missing := Missing(rows, user, init, nextId);
    forall a | a in rows + missing ensures !SamePlace(a, user, role, GLOBAL) {
      assert a in missing ==> a.role != role by {
        assert !Grants(missing, role);
      }
    }
  }

  lemma CreatedIsValid(t: Tables, id: RoleId, key: string, permissions: seq<Permission>)
    requires ValidRoles(t, id) && !exists r :: r in t.roles && r.key == key
    ensures ValidRoles(AfterCreate(t, id, key, permissions), id + 1)
  {
    var t' := AfterCreate(t, id, key, permissions);
    forall role | HasRole(t.roles, role) ensures HasRole(t'.roles, role) {
      var r :| r in t.roles && r.id == role;
      assert r in t'.roles;
    }
    assert HasRole(t'.roles, id) by {
      assert Role(id, key, false) in t'.roles;
    }
  }

  // ---- Results ----

  ghost predicate Requested(t: Tables, keys: seq<string>, role: RoleId) {
    exists r :: r in t.roles && r.id == role && r.key in keys
  }

  /**
   * Syncing leaves the user with global assignments exactly for the requested keys that name a role.
   * Scoped rows and other users' are untouched, a row already there is kept as it was (an expired one is
   * not renewed), a new one never expires, no role is held twice, and the claims follow the unexpired ones.
   */
  lemma SyncReconciles(t: Tables, user: UserId, keys: seq<string>, nextId: nat, nextRole: nat, now: int)
    requires ValidRows(t.assignments, nextId) && ValidRoles(t, nextRole)
    ensures var t' := AfterSync(t, user, keys, nextId, now);
            && (forall role :: (exists a :: a in t'.assignments && a.user == user && a.scope.kind == Global
                                            && a.role == role)
                               <==> Requested(t, keys, role))
            && Untouched(t'.assignments, user) == Untouched(t.assignments, user)
            && (forall a :: a in t.assignments && (a.user != user || a.scope.kind != Global) ==> a in t'.assignments)
            && (forall a :: a in t.assignments && a.user == user && a.scope.kind == Global ==>
                  (a in t'.assignments <==> Requested(t, keys, a.role)))
            && (forall a :: a in t'.assignments && a !in t.assignments ==>
                  a.user == user && a.scope == GLOBAL && a.expiresAt.None? && !HasGlobal(t.assignments, user, a.role))
            && ValidRows(t'.assignments, nextId + |t'.assignments|)
            && (user in t.claims ==> t'.claims == t.claims[user := Claims(t', user, now)])
            && (user !in t.claims ==> t'.claims == t.claims)
  {
    var desired := Desired(t.roles, keys);
    var t' := AfterSync(t, user, keys, nextId, now);
    ReconciledExact(t.assignments, user, desired, nextId);
    forall role ensures role in desired <==> Requested(t, keys, role) {
      DesiredIsRequested(t, keys, role);
    }
    DesiredOnce(t.roles, keys);
    forall a | a in t.assignments && (a.user != user || a.scope.kind != Global) ensures a in t'.assignments {
      FilterMember(NotGlobalTo(user), t.assignments, a);
      FilterMember(NotGlobalTo(user), t'.assignments, a);
    }
    ReconciledIsValid(t.assignments, user, desired, desired, nextId);
    ClaimsReadRows(t, t', user, now);
  }

  lemma ClaimsReadRows(t: Tables, t': Tables, user: UserId, now: int)
    requires t'.roles == t.roles
    ensures Claims(t', user, now) == Claims(t.(assignments := t'.assignments), user, now)
  {
  }

  lemma DesiredIsRequested(t: Tables, keys: seq<string>, role: RoleId)
    requires forall i, j :: 0 <= i < j < |t.roles| ==> t.roles[i].key != t.roles[j].key
    ensures role in Desired(t.roles, keys) <==> Requested(t, keys, role)
  {
    DesiredNames(t.roles, keys, role);
    if role in Desired(t.roles, keys) {
      var k :| k in keys && IdByKey(t.roles, k) == Some(role);
      IdByKeyExact(t.roles, k, role);
    }
    if Requested(t, keys, role) {
      var r :| r in t.roles && r.id == role && r.key in keys;
      IdByKeyExact(t.roles, r.key, role);
    }
  }

  /** A second sync with the same keys at the same moment changes no table. */
  lemma SyncIsIdempotent(t: Tables, user: UserId, keys: seq<string>, nextId: nat, nextId': nat, now: int)
    requires ValidRows(t.assignments, nextId)
    ensures var t' := AfterSync(t, user, keys, nextId, now);
            AfterSync(t', user, keys, nextId', now) == t'
  {
    var t' := AfterSync(t, user, keys, nextId, now);
    ReconciledIsIdempotent(t.assignments, user, Desired(t.roles, keys), nextId, nextId');
    assert t'.(assignments := Reconciled(t'.assignments, user, Desired(t'.roles, keys), nextId')) == t';
    if user in t.claims {
      assert t'.claims[user := Claims(t', user, now)] == t'.claims by {
        ClaimsReadRows(t, t', user, now);
      }
    }
  }

  // ---- What single operations do to effective permissions ----

  /**
   * A grant that adds a row adds exactly what that row gives, to its user; one that finds an equivalent row
   * adds nothing.
   */
  lemma AssignChangesExactly(t: Tables, a: Assignment, now: int, user: UserId, at: int, p: Permission, scope: Scope)
    ensures scope in ScopesIn(EffectiveAt(AfterAssign(t, a, now), user, at), p)
            <==> || scope in ScopesIn(EffectiveAt(t, user, at), p)
                 || (!HasEquivalent(t.assignments, a.user, a.role, a.scope)
                     && Gives(a, t.rolePermissions, user, at, Row(p, scope)))
  {
    EffectiveExact(t, user, at, p, scope);
    EffectiveExact(AfterAssign(t, a, now), user, at, p, scope);
    GivenAppend(t.assignments, a, t.rolePermissions, user, at, Row(p, scope));
  }

  ghost predicate HeldLive(rows: seq<Assignment>, a: Assignment, now: int) {
    exists b :: b in rows && SamePlace(b, a.user, a.role, a.scope) && Live(b, now)
  }

  ghost predicate HeldExpired(rows: seq<Assignment>, a: Assignment, now: int) {
    exists b :: b in rows && SamePlace(b, a.user, a.role, a.scope) && !Live(b, now)
  }

  /**
   * An accepted grant takes effect exactly when no equivalent row has expired: an expired row is found,
   * returned as the assignment and not renewed.
   */
  lemma AssignTakesEffectIff(t: Tables, a: Assignment, nextId: nat, now: int)
    requires ValidRows(t.assignments, nextId) && Live(a, now)
    ensures HeldLive(AfterAssign(t, a, now).assignments, a, now) <==> !HeldExpired(t.assignments, a, now)
  {
    if HasEquivalent(t.assignments, a.user, a.role, a.scope) {
      var b :| b in t.assignments && SamePlace(b, a.user, a.role, a.scope);
      forall c | c in t.assignments && SamePlace(c, a.user, a.role, a.scope) ensures c == b {
        OnePlaceOneRow(t.assignments, nextId, b, c);
      }
    } else {
      assert a in AfterAssign(t, a, now).assignments;
    }
  }

  lemma OnePlaceOneRow(rows: seq<Assignment>, nextId: nat, a: Assignment, b: Assignment)
    requires ValidRows(rows, nextId) && a in rows && b in rows && SamePlace(a, b.user, b.role, b.scope)
    ensures a == b
  {
    var i: nat :| i < |rows| && rows[i] == a;
    var j: nat :| j < |rows| && rows[j] == b;
  }

  lemma {:induction false} FindAssignmentExact(rows: seq<Assignment>, id: nat, nextId: nat)
    requires ValidRows(rows, nextId)
    ensures forall a :: FindAssignment(rows, id) == Some(a) <==> a in rows && a.id == id
  {
    if rows != [] {
      var init, last := rows[..|rows| - 1], rows[|rows| - 1];
      ValidPrefix(rows, nextId);
      FindAssignmentExact(init, id, nextId);
      assert rows == init + [last];
    }
  }

  /** A revocation leaves every other assignment, and with them exactly the permissions they give. */
  lemma RevokeChangesExactly(t: Tables, id: nat, nextId: nat, now: int, user: UserId, at: int, p: Permission,
                             scope: Scope)
    requires ValidRows(t.assignments, nextId)
    ensures scope in ScopesIn(EffectiveAt(AfterRevoke(t, id, now), user, at), p)
            <==> exists a :: a in t.assignments && a.id != id && Gives(a, t.rolePermissions, user, at, Row(p, scope))
  {
    EffectiveExact(AfterRevoke(t, id, now), user, at, p, scope);
    WithoutExact(t.assignments, id, nextId);
    FindAssignmentExact(t.assignments, id, nextId);
  }

  // The claims of everybody else, and whether a user has any.
  ghost predicate ClaimsFollow(t: Tables, t': Tables, user: UserId, now: int) {
    && t'.claims.Keys == t.claims.Keys
    && (forall u :: u in t.claims && u != user ==> t'.claims[u] == t.claims[u])
    && (user in t.claims ==>
          && Sorted(t'.claims[user])
          && forall key :: key in t'.claims[user] <==>
               exists a, r :: a in t'.assignments && a.user == user && (a.expiresAt.Some? ==> now < a.expiresAt.value)
                              && r in t'.roles && r.id == a.role && r.key == key)
  }

  lemma WithClaimsFollow(t: Tables, t0: Tables, user: UserId, now: int)
    requires t0.claims == t.claims
    ensures ClaimsFollow(t, WithClaims(t0, user, now), user, now)
  {
    var t' := WithClaims(t0, user, now);
    if user in t.claims {
      ClaimsExact(t0, user, now);
      forall key
        ensures key in t'.claims[user] <==>
                  exists a, r :: a in t'.assignments && a.user == user
                                 && (a.expiresAt.Some? ==> now < a.expiresAt.value)
                                 && r in t'.roles && r.id == a.role && r.key == key
      {
        if Carries(t0.assignments, t0.roles, user, now, key) {
          var a :| a in t0.assignments && a.user == user && Live(a, now) && key in KeysOf(t0.roles, a.role);
          KeysOfExact(t0.roles, a.role, key);
        }
        if a, r :| a in t'.assignments && a.user == user && (a.expiresAt.Some? ==> now < a.expiresAt.value)
                   && r in t'.roles && r.id == a.role && r.key == key {
          KeysOfExact(t0.roles, a.role, key);
          assert Carries(t0.assignments, t0.roles, user, now, key);
        }
      }
    }
  }

  /**
   * After a grant, a revocation or a sync the user's claims are exactly the keys of the roles held through
   * unexpired assignments, sorted, and nobody else's change.
   */
  lemma ClaimsFollowChanges(t: Tables, a: Assignment, id: nat, user: UserId, keys: seq<string>, nextId: nat, now: int)
    ensures ClaimsFollow(t, AfterAssign(t, a, now), a.user, now)
    ensures ClaimsFollow(t, AfterSync(t, user, keys, nextId, now), user, now)
    ensures var found := FindAssignment(t.assignments, id);
            found.Some? ==> ClaimsFollow(t, AfterRevoke(t, id, now), found.value.user, now)
  {
    WithClaimsFollow(t, t.(assignments := Assigned(t.assignments, a)), a.user, now);
    var found := FindAssignment(t.assignments, id);
    if found.Some? {
      WithClaimsFollow(t, t.(assignments := Without(t.assignments, {id})), found.value.user, now);
    }
    WithClaimsFollow(t, t.(assignments := Reconciled(t.assignments, user, Desired(t.roles, keys), nextId)), user, now);
  }

  /** A new role has its key, is no system role, carries exactly the permissions given, and changes nobody's. */
  lemma CreateChangesNobody(t: Tables, id: RoleId, key: string, permissions: seq<Permission>,
                            user: UserId, at: int, p: Permission, scope: Scope)
    requires ValidRoles(t, id)
    ensures var t' := AfterCreate(t, id, key, permissions);
            && (RolePermission(id, p) in t'.rolePermissions <==> p in permissions)
            && (exists r :: r in t'.roles && r.id == id && r.key == key && !r.system)
            && (forall r :: r in t'.roles && r.id != id ==> r in t.roles)
            && (forall r :: r in t.roles ==> r in t'.roles)
            && (scope in ScopesIn(EffectiveAt(t', user, at), p) <==> scope in ScopesIn(EffectiveAt(t, user, at), p))
  {
    var t' := AfterCreate(t, id, key, permissions);
    assert Role(id, key, false) in t'.roles;
    EffectiveExact(t, user, at, p, scope);
    EffectiveExact(t', user, at, p, scope);
    forall role | HasRole(t.roles, role)
      ensures RolePermission(role, p) in t'.rolePermissions <==> RolePermission(role, p) in t.rolePermissions
    {
    }
    if p in permissions {
      var i :| 0 <= i < |permissions| && permissions[i] == p;
      assert t'.rolePermissions[|t.rolePermissions| + i] == RolePermission(id, p);
    }
  }

  /** A concrete case: a global role that expired at 5 is granted again for good at 10, and still is not held. */
  lemma RegrantOfExpiredRole(user: UserId, role: Role) returns (t: Tables, a: Assignment)
    ensures ValidRows(t.assignments, 1) && ValidRoles(t, role.id + 1) && a.id == 1
    ensures a.user == user && a.role == role.id && a.scope == GLOBAL && a.expiresAt.None?
    ensures HeldExpired(t.assignments, a, 10) && !HeldLive(AfterAssign(t, a, 10).assignments, a, 10)
  {
    var expired := Assignment(0, user, role.id, GLOBAL, Some(5));
    t := Tables([role], [], [expired], map[]);
    a := Assignment(1, user, role.id, GLOBAL, None);
    assert role in t.roles && expired in t.assignments;
    assert HasRole(t.roles, role.id);
    AssignTakesEffectIff(t, a, 1, 10);
  }
}
