/**
 * Offboarding and access requests together. The offboarding hook revokes the grants of that moment but
 * leaves the employee's open requests alone, and the access-request hook grants without looking at the
 * employee's status; this is exactly when an offboarded employee holds a live grant.
 */
module OffboardingGrants {
  import opened Common
  import A = AccessGrants
  import E = RequestEngine
  import G = AccessRequests
  import O = Offboarding
  import R = RequestReplay
  import S = Sessions

  type UserId = E.UserId

  const OFFBOARDING := "offboarding"

  datatype World = World(access: G.World, employees: map<UserId, S.EmployeeStatus>)

  datatype Step =
    | Act(op: G.Op)  // the access-request service, the inbox with its offboarding approvals, everything else
    | UpdateStatus(employee: UserId, status: S.EmployeeStatus)

  /** The employee whose offboarding was approved between `db` and `db'`, if any. */
  function Offboarded(db: E.Db, db': E.Db): Option<UserId> {
    if |db'.hooks| <= |db.hooks| then None
    else
      var run := db'.hooks[|db.hooks|];
      if run.request < |db'.items| && db'.items[run.request].kind == OFFBOARDING && run.hook.OnApprove?
         && db'.items[run.request].payload.OffboardingPayload?
      then Some(db'.items[run.request].payload.employeeId)
      else None
  }

  function Next(w: World, step: Step): World {
    match step
    case UpdateStatus(employee, status) =>
      if employee in w.employees then w.(employees := w.employees[employee := status]) else w
    case Act(op) =>
      var access := G.Next(w.access, op);
      var gone := Offboarded(w.access.db, access.db);
      if gone.None? then w.(access := access)
      else
        World(access.(grants := O.RevokeGrants(access.grants, gone.value, access.db.hooks[|w.access.db.hooks|].at)),
              O.MarkOffboarded(w.employees, gone.value))
  }

  predicate Legal(w: World, step: Step) {
    step.Act? ==> G.Legal(w.access, step.op)
  }

  ghost predicate IsRun(ws: seq<World>, steps: seq<Step>) {
    && |ws| == |steps| + 1
    && ws[0].access == G.INIT
    && forall i {:trigger steps[i]} :: 0 <= i < |steps| ==> Legal(ws[i], steps[i]) && ws[i + 1] == Next(ws[i], steps[i])
  }

  /** The step from `w` to `w'` approved the employee's offboarding. */
  predicate Offboards(w: World, w': World, employee: UserId) {
    Offboarded(w.access.db, w'.access.db) == Some(employee)
  }

  predicate LiveGrant(w: World, g: nat, employee: UserId) {
    g < |w.access.grants| && w.access.grants[g].grantee == employee && w.access.grants[g].revokedAt.None?
  }

  // ---- When a step grants ----

  /** The engine call decides the last step of an access request of the employee. */
  predicate DecidesFor(db: E.Db, call: E.Op, employee: UserId) {
    && call.Approve? && E.Refused(db, call).None?
    && db.items[call.id].kind == G.KIND && db.items[call.id].payload.AccessPayload?
    && db.items[call.id].payload.requesterId == employee
    && E.IsFinalStep(db.defs[G.KIND], db.items[call.id].currentStep)
  }

  /**
   * The step grants to the employee: the inbox or the service decides the last step of a request of theirs,
   * or the service decides a row of theirs that knows no engine request.
   */
  predicate GrantsTo(w: G.World, step: Step, employee: UserId) {
    && step.Act?
    && match step.op
       case Inbox(call) => DecidesFor(w.db, call, employee)
       case Approve(id, note, actor, via, now, hookOk) =>
         && id < |w.requests| && w.requests[id].status == G.Pending
         && (if w.requests[id].item.Some?
             then DecidesFor(w.db, G.ApproveCall(w, id, note, actor, via, now, hookOk), employee)
             else w.requests[id].requester == employee)
       case _ => false
  }

  // Grants are appended one at a time, keep their grantee, and once revoked stay revoked.
  ghost predicate GrantsGrow(before: seq<G.Grant>, after: seq<G.Grant>) {
    && |before| <= |after| <= |before| + 1
    && forall g :: 0 <= g < |before| ==>
         after[g].grantee == before[g].grantee && (before[g].revokedAt.Some? ==> after[g].revokedAt.Some?)
  }

  lemma DriveGrants(w: G.World, call: E.Op, employee: UserId)
    ensures var after := G.Drive(w, call).grants;
            && GrantsGrow(w.grants, after)
            && (|after| > |w.grants| && after[|w.grants|].grantee == employee <==> DecidesFor(w.db, call, employee))
            && (|after| > |w.grants| ==> after[|w.grants|].revokedAt.None?)
  {
    var db := E.Next(w.db, call);
    if E.Refused(w.db, call).Some? {
      assert db == w.db;
    } else if call.Submit? {
      G.EngineSubmits(w.db, call);
    } else {
      G.EngineMovesOne(w.db, call);
      if call.Approve? {
        ApprovalRunsHook(w.db, call);
      }
    }
  }

  // An accepted approval runs onApprove exactly at the last step; no other call does.
  lemma ApprovalRunsHook(db: E.Db, call: E.Op)
    requires call.Approve? && E.Refused(db, call).None?
    ensures var db' := E.Next(db, call);
            && |db'.hooks| == |db.hooks| + 1 && db'.hooks[|db.hooks|].request == call.id
            && (db'.hooks[|db.hooks|].hook.OnApprove?
                <==> E.IsFinalStep(db.defs[db.items[call.id].kind], db.items[call.id].currentStep))
  {
  }

  lemma StepGrants(w: World, step: Step, employee: UserId)
    ensures var before, after := w.access.grants, Next(w, step).access.grants;
            && GrantsGrow(before, after)
            && (|after| > |before| && after[|before|].grantee == employee <==> GrantsTo(w.access, step, employee))
            && (|after| > |before| ==> after[|before|].revokedAt.None?)
  {
    if step.Act? {
      ActGrants(w.access, step.op, employee);
      var access := G.Next(w.access, step.op);
      if Offboarded(w.access.db, access.db).Some? {
        OffboardingAddsNone(w.access, step.op);
      }
    }
  }

  lemma ActGrants(w: G.World, op: G.Op, employee: UserId)
    ensures var after := G.Next(w, op).grants;
            && GrantsGrow(w.grants, after)
            && (|after| > |w.grants| && after[|w.grants|].grantee == employee <==> GrantsTo(w, Act(op), employee))
            && (|after| > |w.grants| ==> after[|w.grants|].revokedAt.None?)
  {
    if op.Submit? {
      if op.reach != G.RowOnly {
        var call := G.SubmitCall(w, op.requester, op.durationHours, op.now);
        if E.Refused(w.db, call).None? {
          G.EngineSubmits(w.db, call);
        }
      }
    } else {
      match op
      case Approve(id, note, actor, via, now, hookOk) =>
        if id < |w.requests| && w.requests[id].item.Some? {
          DriveGrants(w, G.ApproveCall(w, id, note, actor, via, now, hookOk), employee);
        }
      case Reject(id, note, actor, via, now, hookOk) =>
        if id < |w.requests| && w.requests[id].item.Some? {
          DriveGrants(w, G.RejectCall(w, id, note, actor, via, now, hookOk), employee);
        }
      case RevokeGrant(_, _) =>
      case Inbox(call) => DriveGrants(w, call, employee);
    }
  }

  /** The step from `w` to `w'` revokes grant `g`: by name, or with all grants of its grantee in an offboarding. */
  predicate RevokesGrant(w: World, step: Step, w': World, g: nat) {
    || (step.Act? && step.op.RevokeGrant? && step.op.grant == g)
    || (g < |w.access.grants| && Offboards(w, w', w.access.grants[g].grantee))
  }

  // Revocation by the access-request side alone.
  lemma ActRevokes(w: G.World, op: G.Op, g: nat)
    requires g < |w.grants|
    ensures g < |G.Next(w, op).grants|
    ensures G.Next(w, op).grants[g].grantee == w.grants[g].grantee
    ensures G.Next(w, op).grants[g].revokedAt.Some?
            <==> w.grants[g].revokedAt.Some? || (op.RevokeGrant? && op.grant == g)
  {
    if op.Submit? {
      SubmitKeepsGrants(w, op);
    } else {
      match op
      case Approve(id, note, actor, via, now, hookOk) =>
        if id < |w.requests| && w.requests[id].item.Some? {
          DriveRevokesNone(w, G.ApproveCall(w, id, note, actor, via, now, hookOk));
        }
      case Reject(id, note, actor, via, now, hookOk) =>
        if id < |w.requests| && w.requests[id].item.Some? {
          DriveRevokesNone(w, G.RejectCall(w, id, note, actor, via, now, hookOk));
        }
      case RevokeGrant(_, _) =>
      case Inbox(call) => DriveRevokesNone(w, call);
    }
  }

  lemma DriveRevokesNone(w: G.World, call: E.Op)
    ensures w.grants <= G.Drive(w, call).grants
  {
  }

  lemma SubmitKeepsGrants(w: G.World, op: G.Op)
    requires op.Submit?
    ensures G.Next(w, op).grants == w.grants
  {
    if op.reach != G.RowOnly {
      var call := G.SubmitCall(w, op.requester, op.durationHours, op.now);
      if E.Refused(w.db, call).None? {
        G.EngineSubmits(w.db, call);
      }
    }
  }

  /** A grant is revoked after a step exactly if it was before, or the step revokes it. */
  lemma StepRevokes(w: World, step: Step, g: nat)
    requires g < |w.access.grants|
    ensures g < |Next(w, step).access.grants|
    ensures Next(w, step).access.grants[g].grantee == w.access.grants[g].grantee
    ensures Next(w, step).access.grants[g].revokedAt.Some?
            <==> w.access.grants[g].revokedAt.Some? || RevokesGrant(w, step, Next(w, step), g)
  {
    if step.Act? {
      ActRevokes(w.access, step.op, g);
    }
  }

  // The hook of an offboarding is no access request's.
  lemma OffboardingAddsNone(w: G.World, op: G.Op)
    requires Offboarded(w.db, G.Next(w, op).db).Some?
    ensures G.Next(w, op).grants == w.grants
  {
  }

  // ---- Results ----

  lemma RunGrants(ws: seq<World>, steps: seq<Step>, i: nat, employee: UserId)
    requires IsRun(ws, steps) && i < |steps|
    ensures var before, after := ws[i].access.grants, ws[i + 1].access.grants;
            && GrantsGrow(before, after)
            && (|after| > |before| && after[|before|].grantee == employee
                <==> GrantsTo(ws[i].access, steps[i], employee))
  {
    StepGrants(ws[i], steps[i], employee);
  }

  lemma {:induction false} RevokedStays(ws: seq<World>, steps: seq<Step>, k: nat, i: nat, g: nat)
    requires IsRun(ws, steps) && k <= i < |ws| && g < |ws[k].access.grants|
    ensures |ws[k].access.grants| <= |ws[i].access.grants|
    ensures ws[i].access.grants[g].grantee == ws[k].access.grants[g].grantee
    ensures ws[k].access.grants[g].revokedAt.Some? ==> ws[i].access.grants[g].revokedAt.Some?
  {
    if k < i {
      RevokedStays(ws, steps, k, i - 1, g);
      RunGrants(ws, steps, i - 1, ws[k].access.grants[g].grantee);
    }
  }

  // A grant that is new since ws[k] was made by a step that grants to its grantee.
  lemma {:induction false} MadeBy(ws: seq<World>, steps: seq<Step>, k: nat, i: nat, g: nat) returns (n: nat)
    requires IsRun(ws, steps) && k <= i < |ws| && |ws[k].access.grants| <= g < |ws[i].access.grants|
    ensures k <= n < i && |ws[n].access.grants| == g
    ensures GrantsTo(ws[n].access, steps[n], ws[i].access.grants[g].grantee)
  {
    n := i - 1;
    RunGrants(ws, steps, n, ws[i].access.grants[g].grantee);
    if g < |ws[n].access.grants| {
      n := MadeBy(ws, steps, k, n, g);
    }
  }

  /** Step n granted to the employee, and no step since has revoked that grant, which was the next in the table. */
  ghost predicate GrantedAndKept(ws: seq<World>, steps: seq<Step>, n: nat, i: nat, employee: UserId)
    requires n < i < |ws| && i <= |steps|
  {
    GrantsTo(ws[n].access, steps[n], employee) && Kept(ws, steps, n, i, |ws[n].access.grants|)
  }

  ghost predicate Kept(ws: seq<World>, steps: seq<Step>, n: nat, i: nat, g: nat)
    requires n < i < |ws| && i <= |steps|
  {
    forall m {:trigger steps[m]} :: n < m < i ==> !RevokesGrant(ws[m], steps[m], ws[m + 1], g)
  }

  // What becomes of a grant between two worlds.
  ghost predicate OnlyRevoked(w: World, step: Step, w': World, g: nat) {
    g < |w.access.grants| ==>
      && g < |w'.access.grants| && w'.access.grants[g].grantee == w.access.grants[g].grantee
      && (w'.access.grants[g].revokedAt.Some? <==> w.access.grants[g].revokedAt.Some? || RevokesGrant(w, step, w', g))
  }

  ghost predicate OnlyRevokedIn(ws: seq<World>, steps: seq<Step>, g: nat) {
    && |ws| == |steps| + 1
    && forall m {:trigger steps[m]} :: 0 <= m < |steps| ==> OnlyRevoked(ws[m], steps[m], ws[m + 1], g)
  }

  lemma RunOnlyRevokes(ws: seq<World>, steps: seq<Step>, g: nat)
    requires IsRun(ws, steps)
    ensures OnlyRevokedIn(ws, steps, g)
  {
    forall m {:trigger steps[m]} | 0 <= m < |steps| ensures OnlyRevoked(ws[m], steps[m], ws[m + 1], g) {
      if g < |ws[m].access.grants| {
        StepRevokes(ws[m], steps[m], g);
      }
    }
  }

  // A grant live after step n stays so as long as no step revokes it.
  lemma {:induction false} LiveIffKept(ws: seq<World>, steps: seq<Step>, n: nat, i: nat, g: nat, employee: UserId)
    requires OnlyRevokedIn(ws, steps, g) && n < i < |ws| && LiveGrant(ws[n + 1], g, employee)
    ensures g < |ws[i].access.grants| && ws[i].access.grants[g].grantee == employee
    ensures LiveGrant(ws[i], g, employee) <==> Kept(ws, steps, n, i, g)
  {
    if i > n + 1 {
      LiveIffKept(ws, steps, n, i - 1, g, employee);
      var step := steps[i - 1];
    }
  }

  lemma NewGrantIsLive(ws: seq<World>, steps: seq<Step>, n: nat, employee: UserId)
    requires IsRun(ws, steps) && n < |steps| && GrantsTo(ws[n].access, steps[n], employee)
    ensures LiveGrant(ws[n + 1], |ws[n].access.grants|, employee)
  {
    StepGrants(ws[n], steps[n], employee);
  }

  ghost predicate NoLiveGrant(w: World, employee: UserId) {
    forall g: nat {:trigger LiveGrant(w, g, employee)} :: !LiveGrant(w, g, employee)
  }

  lemma OffboardingRevokes(ws: seq<World>, steps: seq<Step>, k: nat, employee: UserId)
    requires IsRun(ws, steps) && k < |steps| && Offboards(ws[k], ws[k + 1], employee)
    ensures NoLiveGrant(ws[k + 1], employee)
  {
    var w := ws[k + 1];
    var step := steps[k];
    assert step.Act?;
    var access := G.Next(ws[k].access, step.op);
    assert w.access.grants == O.RevokeGrants(access.grants, employee, access.db.hooks[|ws[k].access.db.hooks|].at);
  }

  // A live grant where there was none has been made since.
  lemma LiveGrantIsNew(ws: seq<World>, steps: seq<Step>, m: nat, i: nat, employee: UserId, g: nat) returns (n: nat)
    requires IsRun(ws, steps) && m <= i < |ws| && NoLiveGrant(ws[m], employee) && LiveGrant(ws[i], g, employee)
    ensures m <= n < i && |ws[n].access.grants| == g && GrantsTo(ws[n].access, steps[n], employee)
  {
    assert g >= |ws[m].access.grants| by {
      if g < |ws[m].access.grants| {
        RevokedStays(ws, steps, m, i, g);
        assert LiveGrant(ws[m], g, employee);
      }
    }
    n := MadeBy(ws, steps, m, i, g);
  }

  ghost predicate HoldsLiveGrant(w: World, employee: UserId) {
    exists g: nat :: LiveGrant(w, g, employee)
  }

  /** Some step from m on granted to the employee, and no step after it has revoked that grant. */
  ghost predicate GrantedFrom(ws: seq<World>, steps: seq<Step>, m: nat, i: nat, employee: UserId)
    requires i < |ws| && i <= |steps|
  {
    exists n: nat :: m <= n < i && GrantedAndKept(ws, steps, n, i, employee)
  }

  lemma LiveIffGranted(ws: seq<World>, steps: seq<Step>, m: nat, i: nat, employee: UserId)
    requires IsRun(ws, steps) && m <= i < |ws| && NoLiveGrant(ws[m], employee)
    ensures HoldsLiveGrant(ws[i], employee) <==> GrantedFrom(ws, steps, m, i, employee)
  {
    if g: nat :| LiveGrant(ws[i], g, employee) {
      var n := LiveGrantIsNew(ws, steps, m, i, employee, g);
      RunOnlyRevokes(ws, steps, |ws[n].access.grants|);
      NewGrantIsLive(ws, steps, n, employee);
      LiveIffKept(ws, steps, n, i, g, employee);
      assert GrantedAndKept(ws, steps, n, i, employee);
    }
    if n: nat :| m <= n < i && GrantedAndKept(ws, steps, n, i, employee) {
      RunOnlyRevokes(ws, steps, |ws[n].access.grants|);
      NewGrantIsLive(ws, steps, n, employee);
      LiveIffKept(ws, steps, n, i, |ws[n].access.grants|, employee);
      assert LiveGrant(ws[i], |ws[n].access.grants|, employee);
    }
  }

  /**
   * After an approved offboarding the employee holds a live grant exactly if a later step decided the last
   * step of a request of theirs, or a row of theirs that knows no engine request, and no step after that one
   * revoked the grant, by name or in another offboarding, whatever status they have meanwhile.
   */
  lemma OffboardedHoldsIff(ws: seq<World>, steps: seq<Step>, k: nat, i: nat, employee: UserId)
    requires IsRun(ws, steps) && k < i < |ws| && Offboards(ws[k], ws[k + 1], employee)
    ensures HoldsLiveGrant(ws[i], employee) <==> GrantedFrom(ws, steps, k + 1, i, employee)
  {
    OffboardingRevokes(ws, steps, k, employee);
    LiveIffGranted(ws, steps, k + 1, i, employee);
  }

  // ---- An open request outlives the offboarding ----

  // Rows that differ in their revocation alone.
  ghost predicate SameButRevoked(before: seq<G.Grant>, after: seq<G.Grant>) {
    |after| == |before| && forall g {:trigger after[g]} :: 0 <= g < |before| ==>
      after[g] == before[g].(revokedAt := after[g].revokedAt)
  }

  lemma RevokingKeepsRow(w: G.World, w': G.World, id: nat)
    requires G.CoupledInv(w) && w' == w.(grants := w'.grants) && SameButRevoked(w.grants, w'.grants)
    requires id < |w.requests|
    ensures G.RowInv(w', id) && (G.HalfSubmitted(w', id) || G.GrantsMatch(w', id))
  {
    assert w.requests[id] == w'.requests[id];
    assert G.RowInv(w, id);
    G.HalfSubmittedStays(w, w', id);
    if G.GrantsMatch(w, id) && w.requests[id].status == G.Approved {
      var g: nat :| g < |w.grants| && w.grants[g].request == id;
      assert w'.grants[g].request == id;
    }
  }

  lemma RevokingKeepsInv(w: G.World, w': G.World)
    requires G.Inv(w) && w' == w.(grants := w'.grants) && SameButRevoked(w.grants, w'.grants)
    ensures G.Inv(w')
  {
    forall q: nat | G.IsAccessItem(w', q) ensures G.ItemInv(w', q) {
      assert w.db.items[q].kind == G.KIND;
      assert G.ItemInv(w, q);
    }
    forall id: nat | id < |w'.requests|
      ensures G.RowInv(w', id) && (G.HalfSubmitted(w', id) || G.GrantsMatch(w', id))
    {
      RevokingKeepsRow(w, w', id);
    }
    forall g: nat | g < |w'.grants| ensures w'.grants[g].request < |w'.requests| {
      assert w.grants[g].request < |w.requests|;
    }
  }

  lemma StepKeepsInv(w: World, step: Step)
    requires G.Inv(w.access) && Legal(w, step)
    ensures G.Inv(Next(w, step).access)
  {
    if step.Act? {
      G.StepKeepsInv(w.access, step.op);
      var access := G.Next(w.access, step.op);
      var gone := Offboarded(w.access.db, access.db);
      if gone.Some? {
        var after := O.RevokeGrants(access.grants, gone.value, access.db.hooks[|w.access.db.hooks|].at);
        RevokingKeepsInv(access, access.(grants := after));
      }
    }
  }

  lemma {:induction false} RunKeepsInv(ws: seq<World>, steps: seq<Step>, i: nat)
    requires IsRun(ws, steps) && i < |ws|
    ensures G.Inv(ws[i].access)
  {
    if i == 0 {
      G.InitIsEmpty();
    } else {
      RunKeepsInv(ws, steps, i - 1);
      var step := steps[i - 1];
      StepKeepsInv(ws[i - 1], step);
    }
  }

  /** An open access request of the employee. */
  predicate OpenRequest(w: G.World, q: nat, employee: UserId) {
    && G.IsAccessItem(w, q) && E.Open(w.db.items[q].status)
    && w.db.items[q].payload.AccessPayload? && w.db.items[q].payload.requesterId == employee
  }

  predicate IsOffboarded(w: World, employee: UserId) {
    employee in w.employees && w.employees[employee] == S.Offboarded
  }

  // `user` may take both steps of it.
  ghost predicate Decidable(w: World, q: nat, employee: UserId, user: UserId) {
    && G.Inv(w.access) && OpenRequest(w.access, q, employee) && w.access.db.items[q].requester != user
    && w.access.db.holds == A.Holds(user) && w.access.db.delegations == []
  }

  function Decide(q: nat, user: UserId): Step {
    Act(G.Inbox(E.Op.Approve(q, None, user, None, None, 0, true)))
  }

  lemma DecideOnce(w: World, q: nat, employee: UserId, user: UserId)
    requires Decidable(w, q, employee, user)
    ensures Legal(w, Decide(q, user))
    ensures var w' := Next(w, Decide(q, user));
            && w'.employees == w.employees
            && if w.access.db.items[q].currentStep == 2 then LiveGrant(w', |w.access.grants|, employee)
               else Decidable(w', q, employee, user) && w'.access.db.items[q].currentStep == 2
  {
    var op := Decide(q, user).op.op;
    assert w.access.db.items[q].kind == G.KIND;
    assert R.RequestInv(w.access.db, q);
    assert E.LastStep(G.DEF) == 2;
    A.ChainOfTwo(w.access.db.items[q].currentStep);
    assert E.Refused(w.access.db, op).None?;
    G.StepKeepsInv(w.access, Decide(q, user).op);
    StepGrants(w, Decide(q, user), employee);
  }

  lemma DecideToTheEnd(ws: seq<World>, steps: seq<Step>, q: nat, employee: UserId, user: UserId)
    returns (ws': seq<World>, steps': seq<Step>, g: nat)
    requires IsRun(ws, steps) && Decidable(ws[|steps|], q, employee, user)
    ensures IsRun(ws', steps') && ws <= ws' && steps <= steps' && SubmitsNone(steps', |steps|, employee)
    ensures ws'[|steps'|].employees == ws[|steps|].employees && LiveGrant(ws'[|steps'|], g, employee)
    decreases if ws[|steps|].access.db.items[q].currentStep == 2 then 0 else 1
  {
    var w := ws[|steps|];
    g := |w.access.grants|;
    DecideOnce(w, q, employee, user);
    var longer, steps1 := Extend(ws, steps, Decide(q, user));
    if w.access.db.items[q].currentStep == 2 {
      ws', steps' := longer, steps1;
    } else {
      ws', steps', g := DecideToTheEnd(longer, steps1, q, employee, user);
      NoneInEither(steps, steps1, steps', employee);
    }
  }

  /** No step from n on submits an access request for the employee. */
  ghost predicate SubmitsNone(steps: seq<Step>, n: nat, employee: UserId) {
    forall k {:trigger steps[k]} :: n <= k < |steps| ==> !SubmitsFor(steps[k], employee)
  }

  lemma NoneInEither(steps: seq<Step>, longer: seq<Step>, longest: seq<Step>, employee: UserId)
    requires steps <= longer <= longest
    requires SubmitsNone(longer, |steps|, employee) && SubmitsNone(longest, |longer|, employee)
    ensures SubmitsNone(longest, |steps|, employee)
  {
    forall k {:trigger longest[k]} | |steps| <= k < |longest| ensures !SubmitsFor(longest[k], employee) {
      assert k < |longer| ==> longest[k] == longer[k];
    }
  }

  predicate SubmitsFor(step: Step, employee: UserId) {
    step.Act? && step.op.Submit? && step.op.requester == employee
  }

  lemma Extend(ws: seq<World>, steps: seq<Step>, step: Step) returns (ws': seq<World>, steps': seq<Step>)
    requires IsRun(ws, steps) && Legal(ws[|steps|], step)
    ensures ws' == ws + [Next(ws[|steps|], step)] && steps' == steps + [step]
    ensures IsRun(ws', steps')
  {
    ws', steps' := ws + [Next(ws[|steps|], step)], steps + [step];
  }

  // An administrator can let anyone decide.
  lemma Empower(ws: seq<World>, steps: seq<Step>, user: UserId) returns (ws': seq<World>, steps': seq<Step>)
    requires IsRun(ws, steps)
    ensures IsRun(ws', steps') && ws <= ws' && steps <= steps' && |steps'| == |steps| + 2
    ensures forall employee :: SubmitsNone(steps', |steps|, employee)
    ensures var w := ws[|steps|];
            var db := w.access.db.(holds := A.Holds(user), delegations := []);
            ws'[|steps'|] == w.(access := w.access.(db := db))
  {
    ws', steps' := Extend(ws, steps, Act(G.Inbox(E.Op.SetPermissions(A.Holds(user)))));
    ws', steps' := Extend(ws', steps', Act(G.Inbox(E.Op.SetDelegations([]))));
  }

  /**
   * Offboarding does not withdraw access requests: from any point of any run at which an employee has an
   * open one, the run can go on, without a new one and with nobody's status changed, so that they hold a
   * live grant.
   */
  lemma OpenRequestStillGrants(ws: seq<World>, steps: seq<Step>, q: nat, employee: UserId)
    returns (ws': seq<World>, steps': seq<Step>, g: nat)
    requires IsRun(ws, steps) && OpenRequest(ws[|steps|].access, q, employee)
    ensures IsRun(ws', steps') && ws <= ws' && steps <= steps' && SubmitsNone(steps', |steps|, employee)
    ensures ws'[|steps'|].employees == ws[|steps|].employees && LiveGrant(ws'[|steps'|], g, employee)
  {
    var user := ws[|steps|].access.db.items[q].requester + "x";
    var ready, steps1 := Empower(ws, steps, user);
    RunKeepsInv(ready, steps1, |steps1|);
    ws', steps', g := DecideToTheEnd(ready, steps1, q, employee, user);
    NoneInEither(steps, steps1, steps', employee);
  }

  // ---- When nothing is left to grant ----

  /** A row of the employee that the service would decide without the engine. */
  predicate Waiting(w: G.World, id: nat, employee: UserId) {
    && id < |w.requests| && w.requests[id].requester == employee
    && w.requests[id].status == G.Pending && w.requests[id].item.None?
  }

  /** The employee has no open access request, and no undecided row without an engine request. */
  ghost predicate NothingUndecided(w: G.World, employee: UserId) {
    && (forall q: nat {:trigger OpenRequest(w, q, employee)} :: !OpenRequest(w, q, employee))
    && (forall id: nat {:trigger Waiting(w, id, employee)} :: !Waiting(w, id, employee))
  }

  lemma NothingToGrant(w: G.World, step: Step, employee: UserId)
    requires NothingUndecided(w, employee)
    ensures !GrantsTo(w, step, employee)
  {
    if GrantsTo(w, step, employee) {
      match step.op
      case Inbox(call) => assert OpenRequest(w, call.id, employee);
      case Approve(id, _, _, _, _, _) =>
        if w.requests[id].item.Some? {
          assert OpenRequest(w, w.requests[id].item.value, employee);
        } else {
          assert Waiting(w, id, employee);
        }
      case _ =>
    }
  }

  lemma FollowStaysDecided(w: G.World, db: E.Db, employee: UserId)
    requires NothingUndecided(w, employee) && G.MovesOne(w.db, db)
    ensures NothingUndecided(G.Follow(w, db), employee)
  {
    var w' := G.Follow(w, db);
    forall q: nat ensures !OpenRequest(w', q, employee) {
      assert !OpenRequest(w, q, employee);
    }
    forall id: nat ensures !Waiting(w', id, employee) {
      assert !Waiting(w, id, employee);
    }
  }

  lemma DriveStaysDecided(w: G.World, call: E.Op, employee: UserId)
    requires NothingUndecided(w, employee) && (!call.Submit? || E.Refused(w.db, call).Some?)
    ensures NothingUndecided(G.Drive(w, call), employee)
  {
    G.EngineMovesOne(w.db, call);
    FollowStaysDecided(w, E.Next(w.db, call), employee);
  }

  // Rows and items added for others, or for another purpose.
  lemma GrowthStaysDecided(w: G.World, w': G.World, employee: UserId)
    requires NothingUndecided(w, employee)
    requires |w.db.items| <= |w'.db.items| && w'.db.items[..|w.db.items|] == w.db.items
    requires |w.requests| <= |w'.requests| && w'.requests[..|w.requests|] == w.requests
    requires forall q: nat :: |w.db.items| <= q ==> !OpenRequest(w', q, employee)
    requires forall id: nat :: |w.requests| <= id ==> !Waiting(w', id, employee)
    ensures NothingUndecided(w', employee)
  {
    forall q: nat ensures !OpenRequest(w', q, employee) {
      if q < |w.db.items| {
        assert w'.db.items[..|w.db.items|][q] == w.db.items[q];
        assert !OpenRequest(w, q, employee);
      }
    }
    forall id: nat ensures !Waiting(w', id, employee) {
      if id < |w.requests| {
        assert w'.requests[..|w.requests|][id] == w.requests[id];
        assert !Waiting(w, id, employee);
      }
    }
  }

  lemma SubmitStaysDecided(w: G.World, op: G.Op, employee: UserId)
    requires NothingUndecided(w, employee) && op.Submit? && op.requester != employee
    ensures NothingUndecided(G.Next(w, op), employee)
  {
    var call := G.SubmitCall(w, op.requester, op.durationHours, op.now);
    if op.reach != G.RowOnly && E.Refused(w.db, call).None? {
      G.EngineSubmits(w.db, call);
    }
    GrowthStaysDecided(w, G.Next(w, op), employee);
  }

  // The service decides a row without the engine.
  lemma LegacyStaysDecided(w: G.World, w': G.World, n: nat, status: G.Status, actor: UserId, employee: UserId)
    requires NothingUndecided(w, employee) && status != G.Pending
    requires w'.requests == G.MarkReviewed(w.requests, n, status, Some(actor)) && w'.db == w.db
    ensures NothingUndecided(w', employee)
  {
    forall q: nat ensures !OpenRequest(w', q, employee) {
      assert !OpenRequest(w, q, employee);
    }
    forall id: nat ensures !Waiting(w', id, employee) {
      assert !Waiting(w, id, employee);
    }
  }

  lemma ActStaysDecided(w: G.World, op: G.Op, employee: UserId)
    requires NothingUndecided(w, employee) && G.Legal(w, op) && !SubmitsFor(Act(op), employee)
    ensures NothingUndecided(G.Next(w, op), employee)
  {
    if op.Submit? {
      SubmitStaysDecided(w, op, employee);
    } else if G.Refused(w, op).None? {
      match op
      case Approve(id, note, actor, via, now, hookOk) =>
        if w.requests[id].item.Some? {
          DriveStaysDecided(w, G.ApproveCall(w, id, note, actor, via, now, hookOk), employee);
        } else {
          LegacyStaysDecided(w, G.Next(w, op), id, G.Approved, actor, employee);
        }
      case Reject(id, note, actor, via, now, hookOk) =>
        if w.requests[id].item.Some? {
          DriveStaysDecided(w, G.RejectCall(w, id, note, actor, via, now, hookOk), employee);
        } else {
          LegacyStaysDecided(w, G.Next(w, op), id, G.Rejected, actor, employee);
        }
      case RevokeGrant(_, _) => OnlyTablesMatter(w, G.Next(w, op), employee);
      case Inbox(call) => InboxStaysDecided(w, call, employee);
    }
  }

  lemma InboxStaysDecided(w: G.World, call: E.Op, employee: UserId)
    requires NothingUndecided(w, employee) && !(call.Submit? && call.kind == G.KIND)
    ensures NothingUndecided(G.Drive(w, call), employee)
  {
    if call.Submit? && E.Refused(w.db, call).None? {
      G.EngineSubmits(w.db, call);
      GrowthStaysDecided(w, G.Drive(w, call), employee);
    } else {
      DriveStaysDecided(w, call, employee);
    }
  }

  lemma OnlyTablesMatter(w: G.World, w': G.World, employee: UserId)
    requires NothingUndecided(w, employee) && w'.db == w.db && w'.requests == w.requests
    ensures NothingUndecided(w', employee)
  {
    forall q: nat ensures !OpenRequest(w', q, employee) {
      assert !OpenRequest(w, q, employee);
    }
    forall id: nat ensures !Waiting(w', id, employee) {
      assert !Waiting(w, id, employee);
    }
  }

  lemma StepStaysDecided(w: World, step: Step, employee: UserId)
    requires NothingUndecided(w.access, employee) && Legal(w, step) && !SubmitsFor(step, employee)
    ensures NothingUndecided(Next(w, step).access, employee)
  {
    if step.Act? {
      ActStaysDecided(w.access, step.op, employee);
      OnlyTablesMatter(G.Next(w.access, step.op), Next(w, step).access, employee);
    }
  }

  lemma RunStep(ws: seq<World>, steps: seq<Step>, i: nat)
    requires IsRun(ws, steps) && i < |steps|
    ensures Legal(ws[i], steps[i]) && ws[i + 1] == Next(ws[i], steps[i])
  {
  }

  lemma {:induction false} StaysDecided(ws: seq<World>, steps: seq<Step>, n: nat, i: nat, employee: UserId)
    requires IsRun(ws, steps) && n <= i < |ws| && NothingUndecided(ws[n].access, employee)
    requires SubmitsNone(steps, n, employee)
    ensures NothingUndecided(ws[i].access, employee)
  {
    if n < i {
      StaysDecided(ws, steps, n, i - 1, employee);
      RunStep(ws, steps, i - 1);
      StepStaysDecided(ws[i - 1], steps[i - 1], employee);
    }
  }

  /** However the run goes on without a new request of the employee's, they hold no live grant. */
  ghost predicate StaysWithout(ws: seq<World>, steps: seq<Step>, employee: UserId) {
    forall ws': seq<World>, steps': seq<Step> {:trigger IsRun(ws', steps')} ::
      IsRun(ws', steps') && ws <= ws' && steps <= steps' && SubmitsNone(steps', |steps|, employee) ==>
        !HoldsLiveGrant(ws'[|steps'|], employee)
  }

  // The service decides a row of the employee's, by anyone an administrator empowers.
  lemma WaitingRowGrants(ws: seq<World>, steps: seq<Step>, id: nat, employee: UserId)
    returns (ws': seq<World>, steps': seq<Step>, g: nat)
    requires IsRun(ws, steps) && Waiting(ws[|steps|].access, id, employee)
    ensures IsRun(ws', steps') && ws <= ws' && steps <= steps' && SubmitsNone(steps', |steps|, employee)
    ensures LiveGrant(ws'[|steps'|], g, employee)
  {
    var longer, steps1 := Empower(ws, steps, employee);
    var step := Act(G.Op.Approve(id, None, employee, None, 0, true));
    g := |longer[|steps1|].access.grants|;
    A.LegacyApproval(longer[|steps1|].access, id, employee);
    StepGrants(longer[|steps1|], step, employee);
    ws', steps' := Extend(longer, steps1, step);
    NoneInEither(steps, steps1, steps', employee);
  }

  lemma StaysWithoutIff(ws: seq<World>, steps: seq<Step>, employee: UserId)
    requires IsRun(ws, steps) && NoLiveGrant(ws[|steps|], employee)
    ensures StaysWithout(ws, steps, employee) <==> NothingUndecided(ws[|steps|].access, employee)
  {
    var n := |steps|;
    if NothingUndecided(ws[n].access, employee) {
      forall ws': seq<World>, steps': seq<Step>
        | IsRun(ws', steps') && ws <= ws' && steps <= steps' && SubmitsNone(steps', n, employee)
        ensures !HoldsLiveGrant(ws'[|steps'|], employee)
      {
        StillWithout(ws', steps', n, employee);
      }
    } else if q: nat :| OpenRequest(ws[n].access, q, employee) {
      var ws', steps', g := OpenRequestStillGrants(ws, steps, q, employee);
      assert HoldsLiveGrant(ws'[|steps'|], employee);
    } else {
      var id: nat :| Waiting(ws[n].access, id, employee);
      var ws', steps', g := WaitingRowGrants(ws, steps, id, employee);
      assert HoldsLiveGrant(ws'[|steps'|], employee);
    }
  }

  lemma StillWithout(ws: seq<World>, steps: seq<Step>, n: nat, employee: UserId)
    requires IsRun(ws, steps) && n <= |steps| && NoLiveGrant(ws[n], employee)
    requires NothingUndecided(ws[n].access, employee) && SubmitsNone(steps, n, employee)
    ensures !HoldsLiveGrant(ws[|steps|], employee)
  {
    LiveIffGranted(ws, steps, n, |steps|, employee);
    forall k: nat | n <= k < |steps| ensures !GrantsTo(ws[k].access, steps[k], employee) {
      StaysDecided(ws, steps, n, k, employee);
      NothingToGrant(ws[k].access, steps[k], employee);
    }
  }

  /**
   * When an offboarding has just been approved and nobody submits for the employee any more, they never
   * hold a live grant again if and only if they have no open access request and no undecided row without
   * an engine request.
   */
  lemma OffboardedStaysWithoutIff(ws: seq<World>, steps: seq<Step>, employee: UserId)
    requires IsRun(ws, steps) && |steps| > 0 && Offboards(ws[|steps| - 1], ws[|steps|], employee)
    ensures StaysWithout(ws, steps, employee) <==> NothingUndecided(ws[|steps|].access, employee)
  {
    OffboardingRevokes(ws, steps, |steps| - 1, employee);
    StaysWithoutIff(ws, steps, employee);
  }

  // ---- A concrete run ----

  const OFFBOARDING_APPROVE := "offboarding.approve"

  // The offboarding type: one step, no self-approval, three days.
  const OFFBOARDING_DEF := E.TypeDef(OFFBOARDING_APPROVE, false, 72, None)

  // Both types registered, one manager, and nothing submitted.
  predicate Ready(db: E.Db, manager: UserId) {
    && db.items == [] && db.defs == map[G.KIND := G.DEF, OFFBOARDING := OFFBOARDING_DEF]
    && db.holds == map[manager := {OFFBOARDING_APPROVE}] && db.delegations == []
  }

  // The employee's access request and their offboarding, as far as they have come.
  predicate BothOpen(db: E.Db, employee: UserId, hr: UserId, manager: UserId, n: nat) {
    && |db.items| == n && db.defs == map[G.KIND := G.DEF, OFFBOARDING := OFFBOARDING_DEF]
    && db.holds == map[manager := {OFFBOARDING_APPROVE}] && db.delegations == []
    && (n > 0 ==> db.items[0].kind == G.KIND && db.items[0].status == E.Pending
                  && db.items[0].payload == E.AccessPayload(0, employee, 8))
    && (n > 1 ==> db.items[1].kind == OFFBOARDING && db.items[1].status == E.Pending && db.items[1].currentStep == 1
                  && db.items[1].requester == hr && db.items[1].payload == E.OffboardingPayload(employee))
  }

  lemma AccessSubmitted(w: World, employee: UserId, hr: UserId, manager: UserId)
    requires Ready(w.access.db, manager) && w.access.requests == []
    ensures var w' := Next(w, Act(G.Op.Submit(employee, 8, 1, G.Complete)));
            BothOpen(w'.access.db, employee, hr, manager, 1) && w'.employees == w.employees
  {
    G.EngineSubmits(w.access.db, G.SubmitCall(w.access, employee, 8, 1));
  }

  function SubmitOffboarding(employee: UserId, hr: UserId): E.Op {
    E.Op.Submit(OFFBOARDING, E.OffboardingPayload(employee), hr, None, None, 2, true)
  }

  lemma OffboardingSubmitted(w: World, employee: UserId, hr: UserId, manager: UserId)
    requires BothOpen(w.access.db, employee, hr, manager, 1)
    ensures var step := Act(G.Inbox(SubmitOffboarding(employee, hr)));
            Legal(w, step) && BothOpen(Next(w, step).access.db, employee, hr, manager, 2)
            && Next(w, step).employees == w.employees
  {
    G.EngineSubmits(w.access.db, SubmitOffboarding(employee, hr));
  }

  lemma OffboardingApproved(w: World, employee: UserId, hr: UserId, manager: UserId)
    requires BothOpen(w.access.db, employee, hr, manager, 2) && hr != manager
    ensures var step := Act(G.Inbox(E.Op.Approve(1, None, manager, None, None, 3, true)));
            Legal(w, step) && Offboards(w, Next(w, step), employee)
            && OpenRequest(Next(w, step).access, 0, employee)
            && Next(w, step).employees == O.MarkOffboarded(w.employees, employee)
  {
    var call := E.Op.Approve(1, None, manager, None, None, 3, true);
    assert E.StepPermission(OFFBOARDING_DEF, 1) == OFFBOARDING_APPROVE;
    assert E.Refused(w.access.db, call).None?;
  }

  lemma ReadyRun(employees: map<UserId, S.EmployeeStatus>, manager: UserId) returns (ws: seq<World>, steps: seq<Step>)
    ensures IsRun(ws, steps) && |steps| == 2 && Ready(ws[2].access.db, manager)
    ensures ws[2].access.requests == [] && ws[0].employees == ws[2].employees == employees
  {
    var start := World(G.INIT, employees);
    var holds := map[manager := {OFFBOARDING_APPROVE}];
    ws, steps := Extend([start], [], Act(G.Inbox(E.Op.Register(OFFBOARDING, OFFBOARDING_DEF))));
    assert ws[1].access.db.defs == map[G.KIND := G.DEF, OFFBOARDING := OFFBOARDING_DEF];
    ws, steps := Extend(ws, steps, Act(G.Inbox(E.Op.SetPermissions(holds))));
  }

  lemma RequestedRun(employee: UserId, hr: UserId, manager: UserId) returns (ws: seq<World>, steps: seq<Step>)
    ensures IsRun(ws, steps) && |steps| == 4 && BothOpen(ws[4].access.db, employee, hr, manager, 2)
    ensures ws[0].employees == ws[4].employees == map[employee := S.Active]
  {
    ws, steps := ReadyRun(map[employee := S.Active], manager);
    AccessSubmitted(ws[2], employee, hr, manager);
    ws, steps := Extend(ws, steps, Act(G.Op.Submit(employee, 8, 1, G.Complete)));
    OffboardingSubmitted(ws[3], employee, hr, manager);
    ws, steps := Extend(ws, steps, Act(G.Inbox(SubmitOffboarding(employee, hr))));
  }

  /** An employee asks for access, their offboarding is requested and approved, and the access request is still open. */
  lemma OffboardedWithOpenRequest(employee: UserId, hr: UserId, manager: UserId)
    returns (ws: seq<World>, steps: seq<Step>)
    requires hr != manager
    ensures IsRun(ws, steps) && |steps| == 5 && ws[0].employees == map[employee := S.Active]
    ensures Offboards(ws[4], ws[5], employee) && IsOffboarded(ws[5], employee)
    ensures OpenRequest(ws[5].access, 0, employee)
  {
    ws, steps := RequestedRun(employee, hr, manager);
    OffboardingApproved(ws[4], employee, hr, manager);
    ws, steps := Extend(ws, steps, Act(G.Inbox(E.Op.Approve(1, None, manager, None, None, 3, true))));
  }

  /** And then it is granted: the run goes on until the offboarded employee holds a live grant. */
  lemma OffboardedIsGranted(employee: UserId, hr: UserId, manager: UserId)
    returns (ws: seq<World>, steps: seq<Step>, g: nat)
    requires hr != manager
    ensures IsRun(ws, steps) && |steps| >= 5 && Offboards(ws[4], ws[5], employee)
    ensures IsOffboarded(ws[|steps|], employee) && LiveGrant(ws[|steps|], g, employee)
  {
    var ws5, steps5 := OffboardedWithOpenRequest(employee, hr, manager);
    ws, steps, g := OpenRequestStillGrants(ws5, steps5, 0, employee);
    assert ws[4] == ws5[4] && ws[5] == ws5[5];
  }
}
