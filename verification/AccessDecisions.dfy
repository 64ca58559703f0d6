/**
 * Who granted an access request, when and for how long. Every run of the access-request service and the
 * inbox is, for the engine, one of its own runs, so what the engine's log proves holds of the grants.
 */
module AccessDecisions {
  import opened Common
  import opened AccessRequests
  import D = RequestDecisions
  import E = RequestEngine
  import O = RequestOutcomes
  import R = RequestReplay

  // ---- The engine's part of a run ----

  // What the engine sees of a step that does not concern it: permissions set to what they are.
  function Idle(w: World): E.Op {
    E.SetPermissions(w.db.holds)
  }

  /** The engine call a step makes. */
  function CallOf(w: World, op: Op): E.Op {
    match op
    case Submit(requester, hours, now, reach) =>
      if reach == RowOnly then Idle(w) else SubmitCall(w, requester, hours, now)
    case Approve(id, note, actor, via, now, hookOk) =>
      if AsksEngine(w, id) then ApproveCall(w, id, note, actor, via, now, hookOk) else Idle(w)
    case Reject(id, note, actor, via, now, hookOk) =>
      if AsksEngine(w, id) then RejectCall(w, id, note, actor, via, now, hookOk) else Idle(w)
    case RevokeGrant(_, _) => Idle(w)
    case Inbox(call) => call
  }

  lemma StepIsEngineStep(w: World, op: Op)
    requires Legal(w, op)
    ensures E.Legal(w.db, CallOf(w, op)) && Next(w, op).db == E.Next(w.db, CallOf(w, op))
  {
  }

  ghost predicate EngineMoves(db: E.Db, db': E.Db) {
    exists call :: E.Legal(db, call) && db' == E.Next(db, call)
  }

  ghost predicate MovesAt(dbs: seq<E.Db>, i: nat) {
    0 < i < |dbs| ==> EngineMoves(dbs[i - 1], dbs[i])
  }

  // The engine's tables over time, starting with the registered definition.
  ghost predicate EngineWalk(dbs: seq<E.Db>) {
    && dbs != [] && dbs[0] == INIT.db
    && forall i: nat {:trigger MovesAt(dbs, i)} :: MovesAt(dbs, i)
  }

  lemma StepMoves(ws: seq<World>, ops: seq<Op>, i: nat)
    requires IsRun(ws, ops) && i < |ops|
    ensures EngineMoves(ws[i].db, ws[i + 1].db)
  {
    RunStep(ws, ops, i);
    StepIsEngineStep(ws[i], ops[i]);
  }

  lemma RunWalks(ws: seq<World>, ops: seq<Op>) returns (dbs: seq<E.Db>)
    requires IsRun(ws, ops)
    ensures EngineWalk(dbs) && |dbs| == |ws|
    ensures forall i {:trigger ws[i]} :: 0 <= i < |ws| ==> dbs[i] == ws[i].db
  {
    dbs := seq(|ws|, i requires 0 <= i < |ws| => ws[i].db);
    forall i: nat ensures MovesAt(dbs, i) {
      if 0 < i < |dbs| {
        StepMoves(ws, ops, i - 1);
      }
    }
  }

  lemma EngineStarts()
    ensures E.IsRun([E.EMPTY, INIT.db], [E.Register(KIND, DEF)])
  {
    InitIsEmpty();
  }

  // The first n + 1 states of a walk are those of a run.
  lemma {:induction false} WalkIsRun(dbs: seq<E.Db>, n: nat) returns (calls: seq<E.Op>)
    requires EngineWalk(dbs) && n < |dbs|
    ensures |calls| == n + 1 && E.IsRun([E.EMPTY] + dbs[..n + 1], calls)
  {
    if n == 0 {
      calls := [E.Register(KIND, DEF)];
      EngineStarts();
      assert [E.EMPTY] + dbs[..1] == [E.EMPTY, INIT.db];
    } else {
      calls := WalkIsRun(dbs, n - 1);
      assert MovesAt(dbs, n);
      var call :| E.Legal(dbs[n - 1], call) && dbs[n] == E.Next(dbs[n - 1], call);
      ExtendEngineRun([E.EMPTY] + dbs[..n], calls, call, dbs[n]);
      assert [E.EMPTY] + dbs[..n + 1] == [E.EMPTY] + dbs[..n] + [dbs[n]];
      calls := calls + [call];
    }
  }

  lemma ExtendEngineRun(ss: seq<E.Db>, calls: seq<E.Op>, call: E.Op, db: E.Db)
    requires E.IsRun(ss, calls) && E.Legal(ss[|calls|], call) && db == E.Next(ss[|calls|], call)
    ensures E.IsRun(ss + [db], calls + [call])
  {
    var ss', calls' := ss + [db], calls + [call];
    forall i {:trigger calls'[i]} | 0 <= i < |calls'|
      ensures E.Legal(ss'[i], calls'[i]) && ss'[i + 1] == E.Next(ss'[i], calls'[i])
    {
      if i < |calls| {
        assert calls'[i] == calls[i] && ss'[i] == ss[i] && ss'[i + 1] == ss[i + 1];
      }
    }
  }

  /** What the engine does in a run of the service and the inbox is a run of the engine, state by state. */
  lemma IsEngineRun(ws: seq<World>, ops: seq<Op>) returns (ss: seq<E.Db>, calls: seq<E.Op>)
    requires IsRun(ws, ops)
    ensures E.IsRun(ss, calls) && |ss| == |ws| + 1
    ensures forall i {:trigger ws[i]} :: 0 <= i < |ws| ==> ss[i + 1] == ws[i].db
  {
    var dbs := RunWalks(ws, ops);
    calls := WalkIsRun(dbs, |ops|);
    ss := [E.EMPTY] + dbs[..|ops| + 1];
  }

  // ---- Who granted it ----

  /** The decision's step needed this permission; its approver or delegator held it, and the subject did not ask. */
  ghost predicate Vetted(w: World, a: E.Approval, permission: E.Permission, requester: UserId) {
    && (O.Holds(w.db, a.approver, permission)
        || (a.delegatedFrom.Some? && O.Holds(w.db, a.delegatedFrom.value, permission)))
    && requester != if a.delegatedFrom.Some? then a.delegatedFrom.value else a.approver
  }

  lemma JustifiedIsVetted(w: World, call: E.Op, a: E.Approval)
    requires D.Justified(w.db, call, a) && IsAccessItem(w, a.request)
    requires KIND in w.db.defs && w.db.defs[KIND] == DEF
    ensures Vetted(w, a, E.StepPermission(DEF, a.step), w.db.items[a.request].requester)
  {
  }

  // Where a row of the log was written, and about which request.
  lemma EngineRowIsJustified(ss: seq<E.Db>, calls: seq<E.Op>, n: nat, i: nat) returns (k: nat, call: E.Op)
    requires E.IsRun(ss, calls) && n < |ss| && i < |ss[n].approvals|
    ensures 0 < k < n && D.Justified(ss[k], call, ss[n].approvals[i])
    ensures var q := ss[n].approvals[i].request;
            && q < |ss[k].items| && q < |ss[n].items|
            && ss[k].items[q].kind == ss[n].items[q].kind && ss[k].items[q].requester == ss[n].items[q].requester
  {
    k := D.DecisionsAreJustified(ss, calls, n, i);
    call := calls[k];
    O.SubmissionStays(ss, calls, k, n, ss[n].approvals[i].request);
  }

  lemma LogRowIsJustified(ws: seq<World>, ops: seq<Op>, n: nat, i: nat) returns (j: nat, call: E.Op)
    requires IsRun(ws, ops) && n < |ws| && i < |ws[n].db.approvals|
    ensures j < n && D.Justified(ws[j].db, call, ws[n].db.approvals[i])
    ensures var q := ws[n].db.approvals[i].request;
            && q < |ws[j].db.items| && q < |ws[n].db.items|
            && ws[j].db.items[q].kind == ws[n].db.items[q].kind
            && ws[j].db.items[q].requester == ws[n].db.items[q].requester
  {
    var ss, calls := IsEngineRun(ws, ops);
    assert ss[n + 1] == ws[n].db;
    var k;
    k, call := EngineRowIsJustified(ss, calls, n + 1, i);
    j := k - 1;
    assert ss[k] == ws[j].db;
  }

  lemma LogRowIsVetted(ws: seq<World>, ops: seq<Op>, n: nat, q: nat, a: E.Approval) returns (j: nat)
    requires IsRun(ws, ops) && n < |ws| && IsAccessItem(ws[n], q) && a in E.ApprovalsOf(ws[n].db.approvals, q)
    ensures j < n && Vetted(ws[j], a, E.StepPermission(DEF, a.step), ws[n].db.items[q].requester)
  {
    FilterMember(E.OfRequest(q), ws[n].db.approvals, a);
    var i :| 0 <= i < |ws[n].db.approvals| && ws[n].db.approvals[i] == a;
    var call;
    j, call := LogRowIsJustified(ws, ops, n, i);
    RunKeepsInv(ws, ops, j);
    JustifiedIsVetted(ws[j], call, a);
  }

  /**
   * A fully submitted request is granted only after a holder of the manager's permission and a holder of the
   * security permission have approved it, each at some moment before, and neither on behalf of its requester.
   */
  lemma GrantsAreVetted(ws: seq<World>, ops: seq<Op>, n: nat, g: nat) returns (i: nat, j: nat)
    requires IsRun(ws, ops) && n < |ws| && g < |ws[n].grants|
    requires ws[n].grants[g].request < |ws[n].requests| && ws[n].requests[ws[n].grants[g].request].item.Some?
    ensures i < n && j < n
    ensures var row := ws[n].requests[ws[n].grants[g].request];
            var log := E.ApprovalsOf(ws[n].db.approvals, row.item.value);
            && |log| == 2 && log[0].approved && log[1].approved
            && Vetted(ws[i], log[0], "access_request.approve", row.requester)
            && Vetted(ws[j], log[1], "access_request.security_approve", row.requester)
  {
    var id := ws[n].grants[g].request;
    GrantNeedsBothSteps(ws, ops, n, g);
    DomainFollowsEngine(ws, ops, n, id);
    RunKeepsInv(ws, ops, n);
    LinkedIsWhole(ws[n], id);
    var q := ws[n].requests[id].item.value;
    var log := E.ApprovalsOf(ws[n].db.approvals, q);
    i := LogRowIsVetted(ws, ops, n, q, log[0]);
    j := LogRowIsVetted(ws, ops, n, q, log[1]);
  }

  // ---- When, and for how long ----

  /** The moment of an approval, by either route. */
  function ApprovedAt(op: Op): Option<int> {
    if op.Approve? then Some(op.now)
    else if op.Inbox? && op.op.Approve? then Some(op.op.now)
    else None
  }

  /** The grant this step makes: to the requester, from the moment of the approval, for the hours they asked for. */
  ghost predicate Makes(w: World, op: Op, grant: Grant) {
    && grant.request < |w.requests|
    && var row := w.requests[grant.request];
    && ApprovedAt(op) == Some(grant.grantedAt)
    && grant.expiresAt == grant.grantedAt + 3_600_000 * row.durationHours
    && grant.grantee == row.requester
  }

  // A step adds at most one grant, which it makes, and otherwise only revokes.
  lemma StepMakesGrant(w: World, op: Op)
    requires Inv(w) && Legal(w, op)
    ensures var w' := Next(w, op);
            && |w.grants| <= |w'.grants| <= |w.grants| + 1
            && (|w'.grants| > |w.grants| ==> Makes(w, op, w'.grants[|w.grants|]))
            && forall g :: 0 <= g < |w.grants| ==> w'.grants[g] == w.grants[g].(revokedAt := w'.grants[g].revokedAt)
  {
    if op.Submit? {
      SubmitMakesNone(w, op);
    } else if Refused(w, op).None? {
      match op
      case Approve(id, _, _, _, _, _) =>
        if w.requests[id].item.Some? {
          DriveMakesGrant(w, CallOf(w, op));
        }
      case Reject(id, _, _, _, _, _) =>
        if w.requests[id].item.Some? {
          DriveMakesGrant(w, CallOf(w, op));
        }
      case RevokeGrant(_, _) =>
      case Inbox(call) => DriveMakesGrant(w, call);
    }
  }

  lemma SubmitMakesNone(w: World, op: Op)
    requires op.Submit?
    ensures Next(w, op).grants == w.grants
  {
    var call := SubmitCall(w, op.requester, op.durationHours, op.now);
    if op.reach != RowOnly && E.Refused(w.db, call).None? {
      EngineSubmits(w.db, call);
    }
  }

  lemma DriveMakesGrant(w: World, call: E.Op)
    requires Inv(w)
    ensures var w' := Drive(w, call);
            && |w.grants| <= |w'.grants| <= |w.grants| + 1 && w.grants <= w'.grants
            && (|w'.grants| > |w.grants| ==> call.Approve? && Makes(w, Inbox(call), w'.grants[|w.grants|]))
  {
    if E.Refused(w.db, call).None? {
      if call.Submit? {
        EngineSubmits(w.db, call);
      } else {
        EngineMovesOne(w.db, call);
        var w' := Drive(w, call);
        if |w'.grants| > |w.grants| {
          var t := w'.db.hooks[|w.db.hooks|].request;
          assert w.db.items[t].kind == KIND;
          assert ItemInv(w, t);
        }
      }
    }
  }

  lemma FollowKeepsRequest(w: World, db: E.Db, id: nat)
    requires id < |w.requests|
    ensures |Follow(w, db).requests| == |w.requests| && SameRequest(w.requests[id], Follow(w, db).requests[id])
  {
  }

  lemma RowKeepsRequest(w: World, op: Op, id: nat)
    requires id < |w.requests|
    ensures |w.requests| <= |Next(w, op).requests| && SameRequest(w.requests[id], Next(w, op).requests[id])
  {
    if op.Submit? {
      SubmitKeepsRows(w, op, id);
    } else if Refused(w, op).None? {
      match op
      case Approve(n, _, _, _, _, _) =>
        if w.requests[n].item.Some? {
          FollowKeepsRequest(w, E.Next(w.db, CallOf(w, op)), id);
        }
      case Reject(n, _, _, _, _, _) =>
        if w.requests[n].item.Some? {
          FollowKeepsRequest(w, E.Next(w.db, CallOf(w, op)), id);
        }
      case RevokeGrant(_, _) =>
      case Inbox(call) => FollowKeepsRequest(w, E.Next(w.db, call), id);
    }
  }

  // What a step does to grants, and what rows keep through it.
  ghost predicate GrantStep(w: World, op: Op, w': World) {
    && |w.grants| <= |w'.grants| <= |w.grants| + 1
    && (|w'.grants| > |w.grants| ==> Makes(w, op, w'.grants[|w.grants|]))
    && (forall g :: 0 <= g < |w.grants| ==> w'.grants[g] == w.grants[g].(revokedAt := w'.grants[g].revokedAt))
    && |w.requests| <= |w'.requests|
    && forall id :: 0 <= id < |w.requests| ==> SameRequest(w.requests[id], w'.requests[id])
  }

  predicate SameRequest(row: Request, row': Request) {
    row'.requester == row.requester && row'.durationHours == row.durationHours && row'.item == row.item
  }

  lemma StepIsGrantStep(w: World, op: Op)
    requires Inv(w) && Legal(w, op)
    ensures GrantStep(w, op, Next(w, op))
  {
    StepMakesGrant(w, op);
    forall id: nat | id < |w.requests|
      ensures id < |Next(w, op).requests| && SameRequest(w.requests[id], Next(w, op).requests[id])
    {
      RowKeepsRequest(w, op, id);
    }
    RowsOnlyGrow(w, op);
  }

  lemma RowsOnlyGrow(w: World, op: Op)
    ensures |w.requests| <= |Next(w, op).requests|
  {
  }

  ghost predicate GrantSteps(ws: seq<World>, ops: seq<Op>) {
    && |ws| == |ops| + 1 && ws[0].grants == []
    && forall i {:trigger ops[i]} :: 0 <= i < |ops| ==> GrantStep(ws[i], ops[i], ws[i + 1])
  }

  lemma RunMakesGrants(ws: seq<World>, ops: seq<Op>)
    requires IsRun(ws, ops)
    ensures GrantSteps(ws, ops)
  {
    forall i {:trigger ops[i]} | 0 <= i < |ops| ensures GrantStep(ws[i], ops[i], ws[i + 1]) {
      RunGrantStep(ws, ops, i);
    }
  }

  lemma RunGrantStep(ws: seq<World>, ops: seq<Op>, i: nat)
    requires IsRun(ws, ops) && i < |ops|
    ensures GrantStep(ws[i], ops[i], ws[i + 1])
  {
    RunKeepsInv(ws, ops, i);
    RunStep(ws, ops, i);
    StepIsGrantStep(ws[i], ops[i]);
  }

  lemma RunStep(ws: seq<World>, ops: seq<Op>, i: nat)
    requires IsRun(ws, ops) && i < |ops|
    ensures Legal(ws[i], ops[i]) && ws[i + 1] == Next(ws[i], ops[i])
  {
  }

  // The grant g of ws[n] was made between ws[j] and ws[j + 1], as long and for whom its row asked.
  ghost predicate MadeBetween(ws: seq<World>, j: nat, n: nat, g: nat)
    requires j < n < |ws| && g < |ws[n].grants|
  {
    var grant := ws[n].grants[g];
    && |ws[j].grants| == g && |ws[j + 1].grants| == g + 1
    && grant.request < |ws[j].requests| <= |ws[n].requests|
    && ws[n].requests[grant.request].item == ws[j].requests[grant.request].item
    && grant.grantee == ws[n].requests[grant.request].requester
    && grant.expiresAt == grant.grantedAt + 3_600_000 * ws[n].requests[grant.request].durationHours
    && ws[j + 1].grants[g] == grant.(revokedAt := ws[j + 1].grants[g].revokedAt)
  }

  lemma {:induction false} GrantWasMade(ws: seq<World>, ops: seq<Op>, n: nat, g: nat) returns (j: nat)
    requires GrantSteps(ws, ops) && n < |ws| && g < |ws[n].grants|
    ensures j < n && MadeBetween(ws, j, n, g) && ApprovedAt(ops[j]) == Some(ws[n].grants[g].grantedAt)
  {
    j := n - 1;
    var op := ops[j];
    if g < |ws[j].grants| {
      var id := ws[j].grants[g].request;
      j := GrantWasMade(ws, ops, n - 1, g);
      assert SameRequest(ws[n - 1].requests[id], ws[n].requests[id]);
    } else {
      var id := ws[n].grants[g].request;
      assert SameRequest(ws[j].requests[id], ws[n].requests[id]);
    }
  }

  /**
   * Every grant was made by one approval, in the inbox or by the service: to the requester, from the moment
   * of that approval, for exactly the hours the request asked for.
   */
  lemma GrantsStartAtApproval(ws: seq<World>, ops: seq<Op>, n: nat, g: nat) returns (j: nat)
    requires IsRun(ws, ops) && n < |ws| && g < |ws[n].grants|
    ensures j < n && MadeBetween(ws, j, n, g) && ApprovedAt(ops[j]) == Some(ws[n].grants[g].grantedAt)
  {
    RunMakesGrants(ws, ops);
    j := GrantWasMade(ws, ops, n, g);
  }

  // ---- What the row and the log say of it ----

  /** The decision the engine logs in a step, if it logs one. */
  ghost predicate Logs(w: World, w': World, q: nat, a: E.Approval) {
    w'.db.approvals == w.db.approvals + [a] && a.request == q
  }

  /** A row that knows its engine request moves only with it: decided by the decision logged then, or expired. */
  ghost predicate RowFollowsLog(w: World, w': World, id: nat)
    requires id < |w.requests| && id < |w'.requests| && w.requests[id].item.Some?
  {
    var row, row' := w.requests[id], w'.requests[id];
    || row' == row
    || (row.status == Pending && row' == row.(status := Expired))
    || (exists a :: Logs(w, w', row.item.value, a) && row.status == Pending
          && row' == row.(status := if a.approved then Approved else Rejected, reviewer := Some(a.approver)))
  }

  // What an engine call that ran a deciding hook has logged.
  ghost predicate LogsItsHook(db: E.Db, db': E.Db) {
    |db'.hooks| > |db.hooks| ==>
      var run := db'.hooks[|db.hooks|];
      run.hook.OnApprove? || run.hook.OnReject? ==>
        && |db'.approvals| == |db.approvals| + 1
        && var a := db'.approvals[|db.approvals|];
           && db'.approvals == db.approvals + [a] && a.request == run.request && a.decidedAt == run.at
           && (if run.hook.OnApprove? then a.approved else !a.approved)
           && a.approver == run.hook.actor
  }

  lemma EngineLogsItsHook(db: E.Db, call: E.Op)
    ensures LogsItsHook(db, E.Next(db, call))
  {
  }

  lemma FollowMovesRow(w: World, db: E.Db, id: nat)
    requires CoupledInv(w) && id < |w.requests| && w.requests[id].item.Some?
    requires MovesOne(w.db, db) && LogsItsHook(w.db, db)
    ensures id < |Follow(w, db).requests| && RowFollowsLog(w, Follow(w, db), id)
  {
    var w' := Follow(w, db);
    if w'.requests[id] != w.requests[id] {
      var run := db.hooks[|w.db.hooks|];
      var t := run.request;
      assert w.db.items[t].kind == KIND;
      assert ItemInv(w, t);
      assert w.requests[id].requester == w.requests[id].requester;
      assert RowInv(w, id);
      if run.hook.OnApprove? || run.hook.OnReject? {
        assert Logs(w, w', t, db.approvals[|w.db.approvals|]);
      }
    }
  }

  lemma DriveMovesRow(w: World, call: E.Op, id: nat)
    requires Inv(w) && id < |w.requests| && w.requests[id].item.Some?
    ensures id < |Drive(w, call).requests| && RowFollowsLog(w, Drive(w, call), id)
  {
    if call.Submit? && E.Refused(w.db, call).None? {
      EngineSubmits(w.db, call);
    } else {
      EngineMovesOne(w.db, call);
      EngineLogsItsHook(w.db, call);
      FollowMovesRow(w, E.Next(w.db, call), id);
    }
  }

  lemma StepMovesRow(w: World, op: Op, id: nat)
    requires Inv(w) && Legal(w, op) && id < |w.requests| && w.requests[id].item.Some?
    ensures id < |Next(w, op).requests| && RowFollowsLog(w, Next(w, op), id)
  {
    if op.Submit? {
      SubmitKeepsRows(w, op, id);
    } else if Refused(w, op).None? {
      match op
      case Approve(n, _, _, _, _, _) =>
        if w.requests[n].item.Some? {
          DriveMovesRow(w, CallOf(w, op), id);
        }
      case Reject(n, _, _, _, _, _) =>
        if w.requests[n].item.Some? {
          DriveMovesRow(w, CallOf(w, op), id);
        }
      case RevokeGrant(_, _) =>
      case Inbox(call) => DriveMovesRow(w, call, id);
    }
  }

  lemma SubmitKeepsRows(w: World, op: Op, id: nat)
    requires op.Submit? && id < |w.requests|
    ensures id < |Next(w, op).requests| && Next(w, op).requests[id] == w.requests[id]
  {
    var call := SubmitCall(w, op.requester, op.durationHours, op.now);
    if op.reach != RowOnly && E.Refused(w.db, call).None? {
      EngineSubmits(w.db, call);
    }
  }

  /** A decided row names the approver of its last logged decision as its reviewer; any other row names nobody. */
  ghost predicate ReviewerInLog(w: World, id: nat)
    requires id < |w.requests| && w.requests[id].item.Some?
  {
    var row := w.requests[id];
    var log := E.ApprovalsOf(w.db.approvals, row.item.value);
    if row.status == Approved || row.status == Rejected
    then && log != [] && row.reviewer == Some(log[|log| - 1].approver)
         && (log[|log| - 1].approved <==> row.status == Approved)
    else row.reviewer.None?
  }

  lemma SettledLogStays(w: World, op: Op, q: nat)
    requires Legal(w, op) && q < |w.db.items| && !E.Open(w.db.items[q].status)
    ensures E.ApprovalsOf(Next(w, op).db.approvals, q) == E.ApprovalsOf(w.db.approvals, q)
  {
    StepIsEngineStep(w, op);
    R.SettledStep(w.db, CallOf(w, op), q);
  }

  lemma FollowingKeepsReviewer(w: World, w': World, id: nat)
    requires id < |w.requests| && id < |w'.requests| && w.requests[id].item.Some?
    requires ReviewerInLog(w, id) && RowFollowsLog(w, w', id)
    requires w.requests[id].status == Approved || w.requests[id].status == Rejected ==>
               E.ApprovalsOf(w'.db.approvals, w.requests[id].item.value)
               == E.ApprovalsOf(w.db.approvals, w.requests[id].item.value)
    ensures w'.requests[id].item.Some? && ReviewerInLog(w', id)
  {
    var row := w.requests[id];
    if w'.requests[id] != row && exists a :: Logs(w, w', row.item.value, a) {
      var a :| Logs(w, w', row.item.value, a);
      E.ApprovalsOfAppend(w.db.approvals, a, row.item.value);
      assert w'.db.approvals[|w.db.approvals|] == a;
    }
  }

  lemma StepKeepsReviewer(w: World, op: Op, id: nat)
    requires Inv(w) && Legal(w, op) && id < |w.requests| && w.requests[id].item.Some? && ReviewerInLog(w, id)
    ensures id < |Next(w, op).requests| && Next(w, op).requests[id].item.Some? && ReviewerInLog(Next(w, op), id)
  {
    var row := w.requests[id];
    StepMovesRow(w, op, id);
    if row.status == Approved || row.status == Rejected {
      assert row.requester == row.requester;
      assert RowInv(w, id);
      SettledLogStays(w, op, row.item.value);
    }
    FollowingKeepsReviewer(w, Next(w, op), id);
  }

  lemma NewRowIsPending(w: World, op: Op, id: nat)
    requires |w.requests| <= id < |Next(w, op).requests|
    ensures op.Submit? && id == |w.requests|
    ensures Next(w, op).requests[id].status == Pending && Next(w, op).requests[id].reviewer.None?
  {
  }

  /** The reviewer of a fully submitted request is whoever made the last logged decision on it, by either route. */
  lemma {:induction false} ReviewerIsLastApprover(ws: seq<World>, ops: seq<Op>, n: nat, id: nat)
    requires IsRun(ws, ops) && n < |ws| && id < |ws[n].requests| && ws[n].requests[id].item.Some?
    ensures ReviewerInLog(ws[n], id)
  {
    RunStep(ws, ops, n - 1);
    if id < |ws[n - 1].requests| {
      RowKeepsRequest(ws[n - 1], ops[n - 1], id);
      ReviewerIsLastApprover(ws, ops, n - 1, id);
      RunKeepsInv(ws, ops, n - 1);
      StepKeepsReviewer(ws[n - 1], ops[n - 1], id);
    } else {
      NewRowIsPending(ws[n - 1], ops[n - 1], id);
    }
  }

  // The step that grants a row that knows its engine request logs the decision, at the time of the grant.
  lemma GrantingStepLogs(w: World, op: Op, q: nat)
    requires Inv(w) && Legal(w, op) && |Next(w, op).grants| > |w.grants|
    requires Next(w, op).grants[|w.grants|].request < |w.requests|
    requires w.requests[Next(w, op).grants[|w.grants|].request].item == Some(q)
    ensures var w' := Next(w, op);
            && |w'.db.approvals| == |w.db.approvals| + 1
            && Logs(w, w', q, w'.db.approvals[|w.db.approvals|])
            && w'.db.approvals[|w.db.approvals|].decidedAt == w'.grants[|w.grants|].grantedAt
            && q < |w'.db.items| && w'.db.items[q].status == E.Approved
  {
    StepMakesGrant(w, op);
    StepIsEngineStep(w, op);
    GrantingCallLogs(w, CallOf(w, op), q);
  }

  lemma GrantingCallLogs(w: World, call: E.Op, q: nat)
    requires Inv(w) && |Drive(w, call).grants| > |w.grants| && E.Refused(w.db, call).None?
    requires Drive(w, call).grants[|w.grants|].request < |w.requests|
    requires w.requests[Drive(w, call).grants[|w.grants|].request].item == Some(q)
    ensures var w' := Drive(w, call);
            && |w'.db.approvals| == |w.db.approvals| + 1
            && Logs(w, w', q, w'.db.approvals[|w.db.approvals|])
            && w'.db.approvals[|w.db.approvals|].decidedAt == w'.grants[|w.grants|].grantedAt
            && q < |w'.db.items| && w'.db.items[q].status == E.Approved
  {
    DriveMakesGrant(w, call);
    EngineMovesOne(w.db, call);
    var t := call.id;
    assert w.db.items[t].kind == KIND;
    assert ItemInv(w, t);
  }

  lemma GrantingRunStepLogs(ws: seq<World>, ops: seq<Op>, j: nat, q: nat)
    requires IsRun(ws, ops) && j < |ops| && |ws[j + 1].grants| > |ws[j].grants|
    requires ws[j + 1].grants[|ws[j].grants|].request < |ws[j].requests|
    requires ws[j].requests[ws[j + 1].grants[|ws[j].grants|].request].item == Some(q)
    ensures q < |ws[j + 1].db.items| && ws[j + 1].db.items[q].status == E.Approved
    ensures var log := E.ApprovalsOf(ws[j + 1].db.approvals, q);
            log != [] && log[|log| - 1].decidedAt == ws[j + 1].grants[|ws[j].grants|].grantedAt
  {
    RunKeepsInv(ws, ops, j);
    RunStep(ws, ops, j);
    GrantingStepLogs(ws[j], ops[j], q);
    E.ApprovalsOfAppend(ws[j].db.approvals, ws[j + 1].db.approvals[|ws[j].db.approvals|], q);
  }

  lemma GrantWasMadeBetween(ws: seq<World>, ops: seq<Op>, n: nat, g: nat) returns (j: nat)
    requires IsRun(ws, ops) && n < |ws| && g < |ws[n].grants|
    ensures j < n && MadeBetween(ws, j, n, g)
  {
    j := GrantsStartAtApproval(ws, ops, n, g);
  }

  /** A fully submitted request is granted from the very moment its second approval was logged. */
  lemma GrantStartsAtSecondApproval(ws: seq<World>, ops: seq<Op>, n: nat, g: nat)
    requires IsRun(ws, ops) && n < |ws| && g < |ws[n].grants|
    requires ws[n].grants[g].request < |ws[n].requests| && ws[n].requests[ws[n].grants[g].request].item.Some?
    ensures var row := ws[n].requests[ws[n].grants[g].request];
            var log := E.ApprovalsOf(ws[n].db.approvals, row.item.value);
            |log| == 2 && ws[n].grants[g].grantedAt == log[1].decidedAt
  {
    GrantNeedsBothSteps(ws, ops, n, g);
    var j := GrantWasMadeBetween(ws, ops, n, g);
    var q := ws[n].requests[ws[n].grants[g].request].item.value;
    GrantingRunStepLogs(ws, ops, j, q);
    LogStays(ws, ops, j + 1, n, q);
  }

  // The log of a settled request is closed, and what a request is about stays.
  lemma LogStays(ws: seq<World>, ops: seq<Op>, i: nat, n: nat, q: nat)
    requires IsRun(ws, ops) && i <= n < |ws| && q < |ws[i].db.items| && !E.Open(ws[i].db.items[q].status)
    ensures E.ApprovalsOf(ws[n].db.approvals, q) == E.ApprovalsOf(ws[i].db.approvals, q)
  {
    var ss, calls := IsEngineRun(ws, ops);
    assert ss[i + 1] == ws[i].db && ss[n + 1] == ws[n].db;
    R.TerminalAbsorbs(ss, calls, i + 1, n + 1, q);
  }

  lemma SubmissionKept(ws: seq<World>, ops: seq<Op>, i: nat, n: nat, q: nat)
    requires IsRun(ws, ops) && i <= n < |ws| && q < |ws[i].db.items|
    ensures q < |ws[n].db.items| && ws[n].db.items[q].expiresAt == ws[i].db.items[q].expiresAt
  {
    var ss, calls := IsEngineRun(ws, ops);
    assert ss[i + 1] == ws[i].db && ss[n + 1] == ws[n].db;
    O.SubmissionStays(ss, calls, i + 1, n + 1, q);
  }

  /** A grant ends early exactly when it is revoked by name, once, at the time its row says. */
  lemma GrantsEndByRevocation(ws: seq<World>, ops: seq<Op>, i: nat, g: nat)
    requires IsRun(ws, ops) && i < |ops| && g < |ws[i].grants|
    ensures g < |ws[i + 1].grants|
    ensures ws[i + 1].grants[g].revokedAt
         == if ops[i].RevokeGrant? && ops[i].grant == g && ws[i].grants[g].revokedAt.None?
            then Some(ops[i].now) else ws[i].grants[g].revokedAt
  {
    RunStep(ws, ops, i);
    StepRevokes(ws[i], ops[i], g);
  }

  lemma StepRevokes(w: World, op: Op, g: nat)
    requires g < |w.grants|
    ensures g < |Next(w, op).grants|
    ensures Next(w, op).grants[g].revokedAt
         == if op.RevokeGrant? && op.grant == g && w.grants[g].revokedAt.None? then Some(op.now)
            else w.grants[g].revokedAt
  {
    if op.Submit? {
      SubmitMakesNone(w, op);
    } else {
      match op
      case Approve(id, _, _, _, _, _) => assert w.grants <= Next(w, op).grants;
      case Reject(id, _, _, _, _, _) => assert w.grants <= Next(w, op).grants;
      case RevokeGrant(_, _) =>
      case Inbox(call) => assert w.grants <= Next(w, op).grants;
    }
  }

  /**
   * The engine request of a fully submitted one is its requester's own, about this row, and lapses 168 hours
   * after the submit.
   */
  lemma SubmittedToEngine(ws: seq<World>, ops: seq<Op>, n: nat, id: nat) returns (j: nat)
    requires IsRun(ws, ops) && n < |ws| && id < |ws[n].requests| && ws[n].requests[id].item.Some?
    ensures j < n && |ws[j].requests| == id && ops[j].Submit?
    ensures var row := ws[n].requests[id]; var q := row.item.value;
            && row.requester == ops[j].requester && row.durationHours == ops[j].durationHours
            && q == |ws[j].db.items| < |ws[n].db.items| && ws[n].db.items[q].kind == "access_request"
            && ws[n].db.items[q].requester == row.requester
            && ws[n].db.items[q].payload == E.AccessPayload(id, row.requester, row.durationHours)
            && ws[n].db.items[q].expiresAt == Some(ops[j].now + 604_800_000)
  {
    DomainFollowsEngine(ws, ops, n, id);
    RunKeepsInv(ws, ops, n);
    LinkedIsWhole(ws[n], id);
    j := SubmittedAt(ws, ops, n, id);
    SubmissionKept(ws, ops, j + 1, n, ws[n].requests[id].item.value);
  }

  lemma {:induction false} SubmittedAt(ws: seq<World>, ops: seq<Op>, n: nat, id: nat) returns (j: nat)
    requires IsRun(ws, ops) && n < |ws| && id < |ws[n].requests| && ws[n].requests[id].item.Some?
    ensures j < n && |ws[j].requests| == id && ops[j].Submit? && ops[j].reach == Complete
    ensures ws[n].requests[id].requester == ops[j].requester
    ensures ws[n].requests[id].durationHours == ops[j].durationHours
    ensures ws[n].requests[id].item == Some(|ws[j].db.items|)
    ensures |ws[j].db.items| < |ws[j + 1].db.items|
    ensures ws[j + 1].db.items[|ws[j].db.items|].expiresAt == Some(ops[j].now + 604_800_000)
  {
    j := n - 1;
    RunStep(ws, ops, j);
    if id < |ws[j].requests| {
      RowKeepsRequest(ws[j], ops[j], id);
      j := SubmittedAt(ws, ops, j, id);
    } else {
      NewRowIsPending(ws[j], ops[j], id);
      NewRowLinks(ws[j], ops[j]);
      RunKeepsInv(ws, ops, j);
      SubmitReachesEngine(ws[j], ops[j]);
    }
  }

  lemma NewRowLinks(w: World, op: Op)
    requires op.Submit? && |Next(w, op).requests| > |w.requests| && Next(w, op).requests[|w.requests|].item.Some?
    ensures op.reach == Complete
    ensures var row := Next(w, op).requests[|w.requests|];
            row.requester == op.requester && row.durationHours == op.durationHours && row.item == Some(|w.db.items|)
  {
    var call := SubmitCall(w, op.requester, op.durationHours, op.now);
    if E.Refused(w.db, call).None? {
      EngineSubmits(w.db, call);
    }
  }

  lemma SubmitReachesEngine(w: World, op: Op)
    requires Inv(w) && op.Submit? && op.reach == Complete
    ensures var w' := Next(w, op);
            |w'.db.items| == |w.db.items| + 1 && w'.db.items[|w.db.items|].expiresAt == Some(op.now + 604_800_000)
  {
    var call := SubmitCall(w, op.requester, op.durationHours, op.now);
    EngineSubmits(w.db, call);
  }

  /** A row without an engine request is decided by the service itself, in the name of the caller. */
  lemma DirectDecision(ws: seq<World>, ops: seq<Op>, i: nat)
    requires IsRun(ws, ops) && i < |ops| && (ops[i].Approve? || ops[i].Reject?)
    requires ops[i].id < |ws[i].requests| && ws[i].requests[ops[i].id].item.None?
    requires ws[i].requests[ops[i].id].status == Pending
    ensures ws[i + 1].db == ws[i].db && ops[i].id < |ws[i + 1].requests|
    ensures ws[i + 1].requests[ops[i].id]
         == ws[i].requests[ops[i].id].(status := if ops[i].Approve? then Approved else Rejected,
                                       reviewer := Some(ops[i].actor))
    ensures |ws[i + 1].grants| == |ws[i].grants| + if ops[i].Approve? then 1 else 0
  {
    RunStep(ws, ops, i);
  }
}
