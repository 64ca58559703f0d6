/**
 * What each call of the engine does and to whom it listens, told from the tables of a run alone: who may
 * decide, cancel and expire a request, and that its row is what was submitted and records how it ended.
 */
module RequestOutcomes {
  import opened Common
  import opened RequestEngine
  import R = RequestReplay

  predicate Undecided(item: Item) {
    item.status == Pending || item.status == InReview
  }

  predicate Holds(db: Db, user: UserId, permission: Permission) {
    user in db.holds && permission in db.holds[user]
  }

  // ---- Who is heard ----

  /** An open request of a known type, its step's permission held by one of the two, and a subject who did not ask. */
  ghost predicate MayDecide(db: Db, id: RequestId, actor: UserId, via: Option<Delegation>) {
    && id < |db.items| && Undecided(db.items[id]) && db.items[id].kind in db.defs
    && var item := db.items[id];
       var def := db.defs[item.kind];
       var permission := StepPermission(def, item.currentStep);
       (if via.Some?
        then (Holds(db, actor, permission) || Holds(db, via.value.fromUser, permission))
             && (via.value.fromUser != item.requester || def.allowSelfApproval)
        else Holds(db, actor, permission) && (actor != item.requester || def.allowSelfApproval))
  }

  /** A decision is logged exactly if its actor may decide and the domain hook lets it pass; or else nothing changes. */
  lemma DecisionTakesEffectIff(ss: seq<Db>, ops: seq<Op>, i: nat)
    requires IsRun(ss, ops) && i < |ops| && (ops[i].Approve? || ops[i].Reject?)
    ensures |ss[i + 1].approvals| == |ss[i].approvals| + 1
            <==> ops[i].hookOk && MayDecide(ss[i], ops[i].id, ops[i].actor, ops[i].via)
    ensures |ss[i + 1].approvals| == |ss[i].approvals| + 1 || ss[i + 1] == ss[i]
  {
    var op := ops[i];
  }

  /** The hook of a decision runs in its transaction, for its request and actor: onApprove exactly if it settles. */
  lemma DecisionRunsItsHook(ss: seq<Db>, ops: seq<Op>, i: nat)
    requires IsRun(ss, ops) && i < |ops| && (ops[i].Approve? || ops[i].Reject?)
    requires |ss[i + 1].approvals| == |ss[i].approvals| + 1
    ensures ops[i].id < |ss[i].items| == |ss[i + 1].items|
    ensures var op := ops[i]; var after := ss[i + 1].items[op.id].status;
            ss[i + 1].hooks == ss[i].hooks + [HookRun(op.id,
              if op.Reject? then OnReject(op.actor)
              else if after == Approved then OnApprove(op.actor)
              else OnStepApproved(ss[i].items[op.id].currentStep), op.now)]
    ensures ss[i + 1].items[ops[i].id].status == Rejected <==> ops[i].Reject?
  {
    var op := ops[i];
  }

  /** An open request is cancelled exactly by its requester or a holder of rbac.manage; or else nothing changes. */
  lemma CancelTakesEffectIff(ss: seq<Db>, ops: seq<Op>, i: nat)
    requires IsRun(ss, ops) && i < |ops| && ops[i].Cancel? && ops[i].hookOk
    requires ops[i].id < |ss[i].items| && Undecided(ss[i].items[ops[i].id])
    requires ss[i].items[ops[i].id].kind in ss[i].defs
    ensures ops[i].id < |ss[i + 1].items|
    ensures ss[i + 1].items[ops[i].id].status == Cancelled
            <==> ops[i].actor == ss[i].items[ops[i].id].requester || Holds(ss[i], ops[i].actor, "rbac.manage")
    ensures ss[i + 1].items[ops[i].id].status == Cancelled || ss[i + 1] == ss[i]
  {
    var op := ops[i];
  }

  /** Expiry needs nobody's permission, and passes over settled requests. */
  lemma ExpireTakesEffectIff(ss: seq<Db>, ops: seq<Op>, i: nat)
    requires IsRun(ss, ops) && i < |ops| && ops[i].Expire? && ops[i].id < |ss[i].items|
    ensures ops[i].id < |ss[i + 1].items|
    ensures Undecided(ss[i].items[ops[i].id]) && ss[i].items[ops[i].id].kind in ss[i].defs && ops[i].hookOk
            ==> ss[i + 1].items[ops[i].id].status == Expired
    ensures !(Undecided(ss[i].items[ops[i].id]) && ss[i].items[ops[i].id].kind in ss[i].defs && ops[i].hookOk)
            ==> ss[i + 1] == ss[i]
    ensures Refused(ss[i], ops[i]).None?
            <==> (Undecided(ss[i].items[ops[i].id]) ==> ss[i].items[ops[i].id].kind in ss[i].defs && ops[i].hookOk)
  {
    var op := ops[i];
  }

  // ---- How a request ended ----

  // A row an operation does not write is as it was.
  lemma StepKeepsRow(db: Db, op: Op, id: RequestId)
    requires id < |db.items| && (id != R.Target(db, op) || !Undecided(db.items[id]))
    ensures id < |Next(db, op).items| && Next(db, op).items[id] == db.items[id]
  {
    R.StepWritesTarget(db, op, id);
  }

  // What the step that closes a row without a decision looks like.
  lemma ClosingStep(db: Db, op: Op, id: RequestId)
    requires id < |db.items| && id < |Next(db, op).items|
    requires Next(db, op).items[id] != db.items[id]
    requires Next(db, op).items[id].status == Cancelled || Next(db, op).items[id].status == Expired
    ensures var item, item' := db.items[id], Next(db, op).items[id];
            && Undecided(item) && (op.Cancel? || op.Expire?) && op.id == id
            && item' == item.(status := item'.status, resolvedAt := Some(op.now))
            && (item'.status == Cancelled <==> op.Cancel?)
            && (op.Cancel? ==> op.actor == item.requester || Holds(db, op.actor, "rbac.manage"))
  {
  }

  /** A request is cancelled only by a call of its requester or of a holder of rbac.manage, at the time its row says. */
  lemma {:induction false} CancelledByRequesterOrAdmin(ss: seq<Db>, ops: seq<Op>, n: nat, id: RequestId)
    returns (j: nat)
    requires IsRun(ss, ops) && n < |ss| && id < |ss[n].items| && ss[n].items[id].status == Cancelled
    ensures j < n && ops[j].Cancel? && ops[j].id == id < |ss[j].items| && Undecided(ss[j].items[id])
    ensures ops[j].actor == ss[n].items[id].requester || Holds(ss[j], ops[j].actor, "rbac.manage")
    ensures ss[n].items[id] == ss[j].items[id].(status := Cancelled, resolvedAt := Some(ops[j].now))
  {
    j := n - 1;
    var op := ops[j];
    if id < |ss[j].items| && ss[j].items[id] == ss[n].items[id] {
      j := CancelledByRequesterOrAdmin(ss, ops, j, id);
    } else {
      RowAppears(ss[j], op, id);
      ClosingStep(ss[j], op, id);
    }
  }

  /** A request expires only by an expiry call, at the time its row says. */
  lemma {:induction false} ExpiredByExpiry(ss: seq<Db>, ops: seq<Op>, n: nat, id: RequestId) returns (j: nat)
    requires IsRun(ss, ops) && n < |ss| && id < |ss[n].items| && ss[n].items[id].status == Expired
    ensures j < n && ops[j].Expire? && ops[j].id == id < |ss[j].items| && Undecided(ss[j].items[id])
    ensures ss[n].items[id] == ss[j].items[id].(status := Expired, resolvedAt := Some(ops[j].now))
  {
    j := n - 1;
    var op := ops[j];
    if id < |ss[j].items| && ss[j].items[id] == ss[n].items[id] {
      j := ExpiredByExpiry(ss, ops, j, id);
    } else {
      RowAppears(ss[j], op, id);
      ClosingStep(ss[j], op, id);
    }
  }

  // A row that was not there before is pending.
  lemma RowAppears(db: Db, op: Op, id: RequestId)
    requires id < |Next(db, op).items|
    ensures id >= |db.items| ==> Next(db, op).items[id].status == Pending
  {
  }

  /** How the row of a settled request says it ended: as the last row of its log does, if it was decided. */
  ghost predicate Recorded(item: Item, log: seq<Approval>) {
    && (Undecided(item) ==> item.resolvedAt.None? && item.resolutionNote.None?)
    && (item.status == Approved || item.status == Rejected ==>
          && log != []
          && item.resolvedAt == Some(log[|log| - 1].decidedAt) && item.resolutionNote == log[|log| - 1].note)
    && (item.status == Cancelled || item.status == Expired ==> item.resolutionNote.None?)
  }

  // What a call does to the open request it is about: nothing, or a decision, which it logs, or an end without one.
  ghost predicate Resolves(item: Item, item': Item, log: seq<Approval>, log': seq<Approval>) {
    || (item' == item && log' == log)
    || ((item'.status == Cancelled || item'.status == Expired) && item'.resolutionNote == item.resolutionNote
        && log' == log)
    || (exists a :: log' == log + [a]
          && (if item'.status == Approved || item'.status == Rejected
              then item'.resolvedAt == Some(a.decidedAt) && item'.resolutionNote == a.note
              else item'.status == InReview && item'.resolvedAt.None? && item'.resolutionNote.None?))
  }

  lemma TargetResolves(db: Db, op: Op, id: RequestId)
    requires id < |db.items| && R.Target(db, op) == id
    ensures id < |Next(db, op).items|
    ensures Undecided(db.items[id]) ==> Resolves(db.items[id], Next(db, op).items[id],
                                                 ApprovalsOf(db.approvals, id), ApprovalsOf(Next(db, op).approvals, id))
  {
    var db' := Next(db, op);
    if |db'.approvals| > |db.approvals| {
      var a := db'.approvals[|db.approvals|];
      assert db'.approvals == db.approvals + [a];
      ApprovalsOfAppend(db.approvals, a, id);
      assert ApprovalsOf(db'.approvals, id) == ApprovalsOf(db.approvals, id) + [a];
    }
  }

  lemma OtherStepKeepsRecord(db: Db, op: Op, id: RequestId)
    requires id < |db.items| && (R.Target(db, op) != id || !Undecided(db.items[id]))
    ensures id < |Next(db, op).items| && Next(db, op).items[id] == db.items[id]
    ensures ApprovalsOf(Next(db, op).approvals, id) == ApprovalsOf(db.approvals, id)
  {
    R.StepWritesTarget(db, op, id);
    if R.Target(db, op) != id {
      R.OtherRowsUntouched(db, Next(db, op), R.Target(db, op), id);
    }
  }

  lemma StepRecords(db: Db, op: Op, id: RequestId)
    requires id < |db.items| && Recorded(db.items[id], ApprovalsOf(db.approvals, id))
    ensures id < |Next(db, op).items|
    ensures Recorded(Next(db, op).items[id], ApprovalsOf(Next(db, op).approvals, id))
  {
    if R.Target(db, op) == id && Undecided(db.items[id]) {
      TargetResolves(db, op, id);
      ResolvingRecords(db.items[id], Next(db, op).items[id],
                       ApprovalsOf(db.approvals, id), ApprovalsOf(Next(db, op).approvals, id));
    } else {
      OtherStepKeepsRecord(db, op, id);
    }
  }

  lemma ResolvingRecords(item: Item, item': Item, log: seq<Approval>, log': seq<Approval>)
    requires Undecided(item) && Recorded(item, log) && Resolves(item, item', log, log')
    ensures Recorded(item', log')
  {
  }

  lemma RunRecords(ss: seq<Db>, ops: seq<Op>, k: nat, id: RequestId)
    requires IsRun(ss, ops) && k < |ops| && id < |ss[k + 1].items|
    requires id < |ss[k].items| ==> Recorded(ss[k].items[id], ApprovalsOf(ss[k].approvals, id))
    ensures Recorded(ss[k + 1].items[id], ApprovalsOf(ss[k + 1].approvals, id))
  {
    var op := ops[k];
    if id < |ss[k].items| {
      StepRecords(ss[k], op, id);
    } else {
      NewRowIsUnresolved(ss[k], op, id);
    }
  }

  lemma NewRowIsUnresolved(db: Db, op: Op, id: RequestId)
    requires |db.items| <= id < |Next(db, op).items|
    ensures Next(db, op).items[id].status == Pending
    ensures Next(db, op).items[id].resolvedAt.None? && Next(db, op).items[id].resolutionNote.None?
  {
  }

  /** A decided request carries the time and the note of its last decision; no other request carries a note. */
  lemma {:induction false} ResolutionIsRecorded(ss: seq<Db>, ops: seq<Op>, i: nat, id: RequestId)
    requires IsRun(ss, ops) && i < |ss| && id < |ss[i].items|
    ensures Recorded(ss[i].items[id], ApprovalsOf(ss[i].approvals, id))
  {
    if id < |ss[i - 1].items| {
      ResolutionIsRecorded(ss, ops, i - 1, id);
    }
    RunRecords(ss, ops, i - 1, id);
  }

  // ---- What was submitted ----

  /** The row holds what the submit was given; its deadline is the caller's, or the type's default hours from then. */
  predicate AsSubmitted(db: Db, op: Op, item: Item) {
    && op.Submit? && op.kind in db.defs
    && item.kind == op.kind && item.payload == op.payload && item.requester == op.actor
    && (op.expiresAt.Some? ==> item.expiresAt == op.expiresAt)
    && (op.expiresAt.None? && db.defs[op.kind].defaultExpiryHours > 0 ==>
          item.expiresAt == Some(op.now + 3_600_000 * db.defs[op.kind].defaultExpiryHours))
    && (op.expiresAt.None? && db.defs[op.kind].defaultExpiryHours == 0 ==> item.expiresAt.None?)
  }

  lemma StepKeepsSubmission(db: Db, op: Op, id: RequestId)
    requires id < |db.items|
    ensures id < |Next(db, op).items|
    ensures var item, item' := db.items[id], Next(db, op).items[id];
            item'.(status := item.status, currentStep := item.currentStep, assignee := item.assignee,
                   resolvedAt := item.resolvedAt, resolutionNote := item.resolutionNote) == item
  {
  }

  lemma {:induction false} SubmissionStays(ss: seq<Db>, ops: seq<Op>, i: nat, j: nat, id: RequestId)
    requires IsRun(ss, ops) && i <= j < |ss| && id < |ss[i].items|
    ensures id < |ss[j].items| && ss[j].items[id].kind == ss[i].items[id].kind
    ensures ss[j].items[id].requester == ss[i].items[id].requester
    ensures ss[j].items[id].expiresAt == ss[i].items[id].expiresAt
  {
    if i < j {
      SubmissionStays(ss, ops, i, j - 1, id);
      var op := ops[j - 1];
      StepKeepsSubmission(ss[j - 1], op, id);
    }
  }

  lemma NewRowAsSubmitted(db: Db, op: Op)
    requires |Next(db, op).items| > |db.items|
    ensures |Next(db, op).items| == |db.items| + 1 && AsSubmitted(db, op, Next(db, op).items[|db.items|])
    ensures Next(db, op).items[|db.items|].assignee == op.assignee
  {
  }

  /** Every request was submitted by its requester, and its kind, payload and deadline are still those of the submit. */
  lemma {:induction false} RowsAreAsSubmitted(ss: seq<Db>, ops: seq<Op>, n: nat, id: RequestId) returns (j: nat)
    requires IsRun(ss, ops) && n < |ss| && id < |ss[n].items|
    ensures j < n && |ss[j].items| == id && AsSubmitted(ss[j], ops[j], ss[n].items[id])
  {
    j := n - 1;
    var op := ops[j];
    if id < |ss[j].items| {
      StepKeepsSubmission(ss[j], op, id);
      j := RowsAreAsSubmitted(ss, ops, j, id);
    } else {
      NewRowAsSubmitted(ss[j], op);
    }
  }

  /** A submit of a registered type is accepted unless its hook throws; or else nothing changes. */
  lemma SubmitTakesEffectIff(ss: seq<Db>, ops: seq<Op>, i: nat)
    requires IsRun(ss, ops) && i < |ops| && ops[i].Submit?
    ensures |ss[i + 1].items| == |ss[i].items| + 1 <==> ops[i].kind in ss[i].defs && ops[i].hookOk
    ensures |ss[i + 1].items| == |ss[i].items| + 1 || ss[i + 1] == ss[i]
  {
    var op := ops[i];
  }

  /**
   * A request is handed on exactly by an approval that is not the last and whose resolver names somebody: no
   * other call changes the assignee.
   */
  lemma HandedOnByResolver(ss: seq<Db>, ops: seq<Op>, i: nat, id: RequestId)
    requires IsRun(ss, ops) && i < |ops| && id < |ss[i].items|
    ensures id < |ss[i + 1].items|
    ensures var op, item, item' := ops[i], ss[i].items[id], ss[i + 1].items[id];
            item'.assignee == if op.Approve? && op.id == id && item'.currentStep > item.currentStep
                                 && op.resolved.Some?
                              then op.resolved else item.assignee
  {
    var op := ops[i];
    R.LogReplaysToRow(ss, ops, i, id);
  }
}
