/**
 * The escalation guard as a whole-run property: with existing role definitions fixed and no wildcard
 * about, granting roles never brings a permission into circulation that nobody had. Resolves, guards
 * and inserts are separate steps, so the guard may have read a cache entry or a grant that is gone.
 */
module AuthzClosure {
  import opened Common
  import opened Authz
  import opened AuthzAdmin
  import S = AuthzStaleness

  // `cleared` holds the roles some assignRole has passed its guard for and may still insert.
  datatype State = State(w: S.World, cleared: set<RoleId>)

  // The invalidation that ends a grant or a revocation is a step of its own.
  datatype Step =
    | Resolving(step: S.Step)
    | Guard(step: S.Step, actor: UserId, answer: Effective, role: RoleId)
    | Grant(a: Assignment)
    | Revoke(id: nat)
    | CreateRole(id: RoleId, key: string, permissions: seq<Permission>)

  ghost predicate Enabled(s: State, step: Step, delay: nat) {
    match step
    case Resolving(r) => !r.Edit? && S.Enabled(s.w, r, delay)
    case Guard(r, actor, answer, role) =>
      && !r.Edit? && S.Enabled(s.w, r, delay)
      && (S.Returns(s.w, r, actor, answer) || answer == map[])
      && HasRole(s.w.tables.roles, role) && CanGrant(s.w.tables, answer, role)
    case Grant(a) => a.role in s.cleared
    case Revoke(_) => true
    case CreateRole(id, _, _) => !HasRole(s.w.tables.roles, id)
  }

  function Next(s: State, step: Step): State {
    match step
    case Resolving(r) => s.(w := S.Next(s.w, r))
    case Guard(r, _, _, role) => s.(w := S.Next(s.w, r), cleared := s.cleared + {role})
    case Grant(a) => s.(w := s.w.(tables := AfterAssign(s.w.tables, a, s.w.now)))
    case Revoke(id) => s.(w := s.w.(tables := AfterRevoke(s.w.tables, id, s.w.now)))
    case CreateRole(id, key, permissions) => s.(w := s.w.(tables := AfterCreate(s.w.tables, id, key, permissions)))
  }

  ghost predicate Referenced(t: Tables) {
    && (forall a :: a in t.assignments ==> HasRole(t.roles, a.role))
    && (forall p :: p in t.rolePermissions ==> HasRole(t.roles, p.role))
  }

  ghost predicate IsRun(ss: seq<State>, steps: seq<Step>, delay: nat) {
    && |ss| == |steps| + 1
    && ss[0].cleared == {} && Referenced(ss[0].w.tables)
    && forall i {:trigger steps[i]} :: 0 <= i < |steps| ==>
         Enabled(ss[i], steps[i], delay) && ss[i + 1] == Next(ss[i], steps[i])
  }

  // ---- What is in circulation ----

  ghost predicate HeldByRow(t: Tables, now: int, p: Permission) {
    exists a :: a in t.assignments && Live(a, now) && RolePermission(a.role, p) in t.rolePermissions
  }

  /** Somebody holds it, or a cache entry or a resolve in flight says so. */
  ghost predicate Held(w: S.World, p: Permission) {
    || HeldByRow(w.tables, w.now, p)
    || (exists u :: u in w.cache && p in w.cache[u].value)
    || (exists c :: c in w.inflight && p in w.inflight[c].value)
  }

  lemma ResolvedIsHeld(t: Tables, user: UserId, now: int, p: Permission)
    requires p in EffectiveAt(t, user, now)
    ensures HeldByRow(t, now, p)
  {
    var rows := Join(t.assignments, t.rolePermissions, user, now);
    GroupExact(rows, p, GLOBAL);
    var scope := ScopesIn(Group(rows), p)[0];
    EffectiveExact(t, user, now, p, scope);
    var a :| a in t.assignments && Gives(a, t.rolePermissions, user, now, Row(p, scope));
  }

  /** Nothing beyond what was held in `start` is held, cached, in flight or cleared to be granted. */
  ghost predicate Within(s: State, start: S.World) {
    && (forall a, p :: a in s.w.tables.assignments && Live(a, s.w.now)
                       && RolePermission(a.role, p) in s.w.tables.rolePermissions
          ==> Held(start, p))
    && (forall u, p :: u in s.w.cache && p in s.w.cache[u].value ==> Held(start, p))
    && (forall c, p :: c in s.w.inflight && p in s.w.inflight[c].value ==> Held(start, p))
    && (forall r, p :: r in s.cleared && RolePermission(r, p) in s.w.tables.rolePermissions ==> Held(start, p))
    && (forall r :: r in s.cleared ==> HasRole(s.w.tables.roles, r))
    && Referenced(s.w.tables)
  }

  lemma ResolvingStaysWithin(s: State, r: S.Step, delay: nat, start: S.World)
    requires Within(s, start) && !r.Edit? && S.Enabled(s.w, r, delay)
    ensures Within(s.(w := S.Next(s.w, r)), start)
  {
    var w' := S.Next(s.w, r);
    forall c, p | c in w'.inflight && p in w'.inflight[c].value ensures Held(start, p) {
      if r.Read? && c == r.call {
        ResolvedIsHeld(s.w.tables, r.user, s.w.now, p);
      }
    }
    forall a, p | a in w'.tables.assignments && Live(a, w'.now)
                  && RolePermission(a.role, p) in w'.tables.rolePermissions
      ensures Held(start, p)
    {
      assert Live(a, s.w.now);
    }
  }

  lemma AnswerIsWithin(s: State, r: S.Step, actor: UserId, answer: Effective, start: S.World, p: Permission)
    requires Within(s, start) && S.Returns(s.w, r, actor, answer) && p in answer
    ensures Held(start, p)
  {
    if r.Hit? {
      assert p in s.w.cache[actor].value;
    } else {
      assert p in s.w.inflight[r.call].value;
    }
  }

  lemma GuardStaysWithin(s: State, step: Step, delay: nat, start: S.World)
    requires Within(s, start) && step.Guard? && Enabled(s, step, delay) && !Held(start, WILDCARD)
    ensures Within(Next(s, step), start)
  {
    ResolvingStaysWithin(s, step.step, delay, start);
    if WILDCARD in step.answer {
      AnswerIsWithin(s, step.step, step.actor, step.answer, start, WILDCARD);
      assert false;
    }
    forall p | RolePermission(step.role, p) in s.w.tables.rolePermissions ensures Held(start, p) {
      assert p in step.answer;
      AnswerIsWithin(s, step.step, step.actor, step.answer, start, p);
    }
  }

  lemma GrantStaysWithin(s: State, a: Assignment, start: S.World)
    requires Within(s, start) && a.role in s.cleared
    ensures Within(Next(s, Grant(a)), start)
  {
    var s' := Next(s, Grant(a));
    forall b | b in s'.w.tables.assignments ensures b in s.w.tables.assignments || b == a {
    }
  }

  lemma RevokeStaysWithin(s: State, id: nat, start: S.World)
    requires Within(s, start)
    ensures Within(Next(s, Revoke(id)), start)
  {
    var s' := Next(s, Revoke(id));
    forall b | b in s'.w.tables.assignments ensures b in s.w.tables.assignments {
      if FindAssignment(s.w.tables.assignments, id).Some? {
        FilterMember(NotAmong({id}), s.w.tables.assignments, b);
      }
    }
  }

  // A new role is held by nobody, so what it carries does not count yet.
  lemma CreateStaysWithin(s: State, id: RoleId, key: string, permissions: seq<Permission>, start: S.World)
    requires Within(s, start) && !HasRole(s.w.tables.roles, id)
    ensures Within(Next(s, CreateRole(id, key, permissions)), start)
  {
    var t, t' := s.w.tables, Next(s, CreateRole(id, key, permissions)).w.tables;
    forall role | HasRole(t.roles, role) ensures HasRole(t'.roles, role) {
      var r :| r in t.roles && r.id == role;
      assert r in t'.roles;
    }
    assert HasRole(t'.roles, id) by {
      assert Role(id, key, false) in t'.roles;
    }
    forall role, p | HasRole(t.roles, role) && RolePermission(role, p) in t'.rolePermissions
      ensures RolePermission(role, p) in t.rolePermissions
    {
    }
  }

  lemma StepStaysWithin(s: State, step: Step, delay: nat, start: S.World)
    requires Within(s, start) && Enabled(s, step, delay) && !Held(start, WILDCARD)
    ensures Within(Next(s, step), start)
  {
    match step
    case Resolving(r) => ResolvingStaysWithin(s, r, delay, start);
    case Guard(_, _, _, _) => GuardStaysWithin(s, step, delay, start);
    case Grant(a) => GrantStaysWithin(s, a, start);
    case Revoke(id) => RevokeStaysWithin(s, id, start);
    case CreateRole(id, key, permissions) => CreateStaysWithin(s, id, key, permissions, start);
  }

  lemma {:induction false} RunStaysWithin(ss: seq<State>, steps: seq<Step>, delay: nat, i: nat)
    requires IsRun(ss, steps, delay) && i < |ss| && !Held(ss[0].w, WILDCARD)
    ensures Within(ss[i], ss[0].w)
  {
    if i > 0 {
      RunStaysWithin(ss, steps, delay, i - 1);
      var step := steps[i - 1];
      StepStaysWithin(ss[i - 1], step, delay, ss[0].w);
    }
  }

  /**
   * Permission closure: if the wildcard is not in circulation at the start, no permission is held by any
   * user, cached or in flight at any later moment that was not already in circulation at the start.
   */
  lemma PermissionsNeverGrow(ss: seq<State>, steps: seq<Step>, delay: nat, i: nat, p: Permission)
    requires IsRun(ss, steps, delay) && i < |ss| && !Held(ss[0].w, WILDCARD)
    requires Held(ss[i].w, p) || exists user :: p in EffectiveAt(ss[i].w.tables, user, ss[i].w.now)
    ensures Held(ss[0].w, p)
  {
    RunStaysWithin(ss, steps, delay, i);
    if exists user :: p in EffectiveAt(ss[i].w.tables, user, ss[i].w.now) {
      var user :| p in EffectiveAt(ss[i].w.tables, user, ss[i].w.now);
      ResolvedIsHeld(ss[i].w.tables, user, ss[i].w.now, p);
    }
  }
}
