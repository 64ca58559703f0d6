/**
 * Every recorded decision was justified when it was made, and every event was fanned out to exactly
 * the webhook subscriptions of that moment.
 */
module RequestDecisions {
  import opened Common
  import opened RequestEngine

  // ---- Justification ----

  /** `a` records the decision `op` made in `db`, and `db` justified it. */
  ghost predicate Justified(db: Db, op: Op, a: Approval) {
    && (op.Approve? || op.Reject?)
    && (a.approved <==> op.Approve?)
    && a.request == op.id < |db.items| && a.approver == op.actor && a.decidedAt == op.now && a.note == op.note
    && var item := db.items[op.id];
    && (item.status == Pending || item.status == InReview) && a.step == item.currentStep
    && item.kind in db.defs
    && var def := db.defs[item.kind];
    && var permission := StepPermission(def, a.step);
    && ((a.approver in db.holds && permission in db.holds[a.approver])
        || (a.delegatedFrom.Some? && a.delegatedFrom.value in db.holds
            && permission in db.holds[a.delegatedFrom.value]))
    && (a.delegatedFrom.Some? <==>
          exists d :: d in db.delegations && d.toUser == a.approver && d.startsAt <= a.decidedAt < d.endsAt)
    && (a.delegatedFrom.Some? ==>
          exists d :: d in db.delegations && d.fromUser == a.delegatedFrom.value
                      && d.toUser == a.approver && d.startsAt <= a.decidedAt < d.endsAt)
    && (!def.allowSelfApproval ==>
          item.requester != if a.delegatedFrom.Some? then a.delegatedFrom.value else a.approver)
  }

  lemma StepJustifies(db: Db, op: Op)
    requires Legal(db, op)
    ensures var db' := Next(db, op);
            && db.approvals <= db'.approvals && |db'.approvals| <= |db.approvals| + 1
            && (|db'.approvals| > |db.approvals| ==> Justified(db, op, db'.approvals[|db.approvals|]))
  {
    if (op.Approve? || op.Reject?) && Refused(db, op).None? && op.via.Some? {
      assert op.via.value in db.delegations;
    }
  }

  /**
   * Over a whole run: each row of the approvals log was written by a call at which the step's
   * permission was held by the approver or the recorded delegator, a delegator is recorded exactly if some
   * delegation to the approver covered that moment, and, without self-approval, the subject was not the
   * requester.
   */
  lemma {:induction false} DecisionsAreJustified(ss: seq<Db>, ops: seq<Op>, n: nat, i: nat) returns (j: nat)
    requires IsRun(ss, ops) && n < |ss| && i < |ss[n].approvals|
    ensures j < n && |ss[j].approvals| == i
    ensures Justified(ss[j], ops[j], ss[n].approvals[i])
  {
    StepJustifies(ss[n - 1], ops[n - 1]);
    if i < |ss[n - 1].approvals| {
      j := DecisionsAreJustified(ss, ops, n - 1, i);
    } else {
      j := n - 1;
    }
  }

  /** A chain's permission for a step is the one its definition lists; a gap falls back to the type's own. */
  lemma {:induction false} PermissionOfStep(def: TypeDef, steps: seq<StepDef>, i: nat)
    requires i < |steps| && forall j :: 0 <= j < i ==> steps[j].step != steps[i].step
    ensures FindStep(steps, steps[i].step) == Some(steps[i])
    ensures def.approvalSteps == Some(steps) ==> StepPermission(def, steps[i].step) == steps[i].permission
  {
    if i > 0 {
      assert steps[1..][i - 1] == steps[i];
      PermissionOfStep(def, steps[1..], i - 1);
    }
  }

  /** Without a chain, and at a step the chain does not list, it is the permission of the type. */
  lemma {:induction false} PermissionOfGap(def: TypeDef, steps: seq<StepDef>, step: int)
    requires def.approvalSteps == None
             || (def.approvalSteps == Some(steps) && forall i :: 0 <= i < |steps| ==> steps[i].step != step)
    ensures StepPermission(def, step) == def.requiredApprovalPermission
  {
    if def.approvalSteps == Some(steps) {
      FindsNothing(steps, step);
    }
  }

  lemma {:induction false} FindsNothing(steps: seq<StepDef>, step: int)
    requires forall i :: 0 <= i < |steps| ==> steps[i].step != step
    ensures FindStep(steps, step).None?
  {
    if steps != [] {
      assert forall i :: 0 <= i < |steps| - 1 ==> steps[1..][i] == steps[i + 1];
      FindsNothing(steps[1..], step);
    }
  }

  ghost predicate DelegationsValid(db: Db) {
    forall d :: d in db.delegations ==> ValidDelegation(d)
  }

  lemma {:induction false} DelegationsStayValid(ss: seq<Db>, ops: seq<Op>, i: nat)
    requires IsRun(ss, ops) && i < |ss|
    ensures DelegationsValid(ss[i])
  {
    if i > 0 {
      DelegationsStayValid(ss, ops, i - 1);
      var op := ops[i - 1];
    }
  }

  /**
   * Separation of duties, exactly: without self-approval a requester may decide their own request
   * if and only if they act under somebody's delegation and one of the two holds the permission.
   * The engine's documentation promises requester != approver.
   */
  lemma RequesterDecidesIff(ss: seq<Db>, ops: seq<Op>, i: nat, id: RequestId, now: int, via: Option<Delegation>)
    requires IsRun(ss, ops) && i < |ss| && id < |ss[i].items|
    requires Open(ss[i].items[id].status) && ss[i].items[id].kind in ss[i].defs
    requires !ss[i].defs[ss[i].items[id].kind].allowSelfApproval
    requires IsActiveDelegation(ss[i].delegations, ss[i].items[id].requester, now, via)
    ensures var item := ss[i].items[id];
            var permission := StepPermission(ss[i].defs[item.kind], item.currentStep);
            DecisionRefusal(ss[i], id, item.requester, via).None?
            <==> via.Some? && (Check(ss[i].holds, item.requester, permission)
                               || Check(ss[i].holds, via.value.fromUser, permission))
  {
    DelegationsStayValid(ss, ops, i);
  }

  // The operations before the decision below, and the state they lead to.
  lemma DelegateWaits(kind: string, permission: Permission, employee: UserId, d: Delegation)
    returns (ss: seq<Db>, ops: seq<Op>)
    requires d.toUser == employee != d.fromUser && d.startsAt < d.endsAt
    ensures IsRun(ss, ops) && |ss| == 5
    ensures ss[4].items == [NewItem(TypeDef(permission, false, 0, None), kind, OtherPayload, employee, None, None, 0)]
    ensures ss[4].approvals == [] && ss[4].delegations == [d] && ss[4].holds == map[d.fromUser := {permission}]
    ensures ss[4].defs == map[kind := TypeDef(permission, false, 0, None)]
  {
    ops := [Register(kind, TypeDef(permission, false, 0, None)),
            SetDelegations([d]),
            SetPermissions(map[d.fromUser := {permission}]),
            Submit(kind, OtherPayload, employee, None, None, 0, true)];
    var s1 := Next(EMPTY, ops[0]);
    var s2 := Next(s1, ops[1]);
    var s3 := Next(s2, ops[2]);
    ss := [EMPTY, s1, s2, s3, Next(s3, ops[3])];
  }

  /** A run in which a requester, acting under an absent manager's delegation, approves their own request. */
  lemma RequesterApprovesOwn(kind: string, permission: Permission, employee: UserId, manager: UserId)
    returns (ss: seq<Db>, ops: seq<Op>)
    requires employee != manager
    ensures IsRun(ss, ops) && |ss| == 6
    ensures kind in ss[5].defs && !ss[5].defs[kind].allowSelfApproval
    ensures |ss[5].items| == 1 && ss[5].items[0].kind == kind && ss[5].items[0].status == Approved
    ensures |ss[5].approvals| == 1 && ss[5].approvals[0].approver == ss[5].items[0].requester == employee
  {
    var d := Delegation(manager, employee, 0, 100);
    ss, ops := DelegateWaits(kind, permission, employee, d);
    var op := Approve(0, None, employee, Some(d), None, 20, true);
    assert DecisionRefusal(ss[4], 0, employee, Some(d)).None? && Legal(ss[4], op);
    ss, ops := ss + [Next(ss[4], op)], ops + [op];
  }

  /** deleteExpiredBefore. */
  function Purge(rows: seq<Delegation>, before: int): seq<Delegation> {
    Filter(EndsAfter(before), rows)
  }

  function EndsAfter(before: int): Delegation -> bool {
    (d: Delegation) => d.endsAt > before
  }

  /** Purging delegations that have ended never changes a later lookup. */
  lemma PurgeKeepsLookups(rows: seq<Delegation>, before: int, actor: UserId, now: int, via: Option<Delegation>)
    requires before <= now
    ensures IsActiveDelegation(Purge(rows, before), actor, now, via) <==> IsActiveDelegation(rows, actor, now, via)
  {
    forall d
      ensures d in Purge(rows, before) <==> d in rows && d.endsAt > before
    {
      FilterMember(EndsAfter(before), rows, d);
    }
  }

  // ---- Fan-out ----

  /** The delivery rows that carry one event. */
  function DeliveriesOf(deliveries: seq<Delivery>, event: nat): seq<Delivery> {
    Filter(CarriesEvent(event), deliveries)
  }

  function CarriesEvent(event: nat): Delivery -> bool {
    (d: Delivery) => d.event == event
  }

  predicate Wants(s: Subscription, kind: EventKind) {
    s.active && kind in s.events
  }

  lemma {:induction false} FanoutEvents(subs: seq<Subscription>, event: nat, kind: EventKind)
    ensures forall d :: d in Fanout(subs, event, kind) ==> d.event == event && d.kind == kind
  {
    if subs != [] {
      FanoutEvents(subs[..|subs| - 1], event, kind);
    }
  }

  /** The fan-out of one event: one row for each subscription that wants it, none for any other. */
  lemma {:induction false} FanoutCounts(subs: seq<Subscription>, event: nat, kind: EventKind, id: nat)
    requires DistinctIds(subs)
    ensures multiset(Fanout(subs, event, kind))[Delivery(id, event, kind)]
         == if exists s :: s in subs && s.id == id && Wants(s, kind) then 1 else 0
  {
    if subs != [] {
      var front, last := subs[..|subs| - 1], subs[|subs| - 1];
      FanoutCounts(front, event, kind, id);
      assert subs == front + [last];
      assert forall s :: s in subs <==> s in front || s == last;
      assert forall s :: s in front ==> s.id != last.id;
    }
  }

  ghost predicate FanoutInv(db: Db) {
    DistinctIds(db.subscriptions) && forall d :: d in db.deliveries ==> d.event < |db.outbox|
  }

  lemma EmitFansOut(db: Db, request: RequestId, kind: EventKind, step: int)
    requires FanoutInv(db)
    ensures FanoutInv(Emit(db, request, kind, step))
    ensures DeliveriesOf(Emit(db, request, kind, step).deliveries, |db.outbox|)
         == Fanout(db.subscriptions, |db.outbox|, kind)
    ensures forall e: nat :: e < |db.outbox| ==>
              DeliveriesOf(Emit(db, request, kind, step).deliveries, e) == DeliveriesOf(db.deliveries, e)
  {
    var added := Fanout(db.subscriptions, |db.outbox|, kind);
    FanoutEvents(db.subscriptions, |db.outbox|, kind);
    forall e: nat
      ensures DeliveriesOf(db.deliveries + added, e)
           == DeliveriesOf(db.deliveries, e) + if e == |db.outbox| then added else []
    {
      FilterConcat(CarriesEvent(e), db.deliveries, added);
      if e == |db.outbox| {
        FilterAll(CarriesEvent(e), added);
      } else {
        FilterNone(CarriesEvent(e), added);
      }
    }
    FilterNone(CarriesEvent(|db.outbox|), db.deliveries);
  }

  // A step emits at most one event, and fans it out to the subscriptions of that moment.
  ghost predicate FansOut(db: Db, db': Db) {
    && db.outbox <= db'.outbox && |db'.outbox| <= |db.outbox| + 1
    && (forall e: nat :: e < |db.outbox| ==> DeliveriesOf(db'.deliveries, e) == DeliveriesOf(db.deliveries, e))
    && (|db'.outbox| > |db.outbox| ==>
          DeliveriesOf(db'.deliveries, |db.outbox|)
          == Fanout(db.subscriptions, |db.outbox|, db'.outbox[|db.outbox|].kind))
  }

  lemma CommitFansOut(db: Db, written: Db, request: RequestId, kind: EventKind, step: int)
    requires FanoutInv(db)
    requires written.outbox == db.outbox && written.deliveries == db.deliveries
             && written.subscriptions == db.subscriptions
    ensures FanoutInv(Emit(written, request, kind, step)) && FansOut(db, Emit(written, request, kind, step))
  {
    EmitFansOut(written, request, kind, step);
  }

  lemma StepFansOut(db: Db, op: Op)
    requires FanoutInv(db) && Legal(db, op)
    ensures FanoutInv(Next(db, op)) && FansOut(db, Next(db, op))
  {
    var db' := Next(db, op);
    if |db'.outbox| > |db.outbox| {
      var e := db'.outbox[|db.outbox|];
      var written := db'.(outbox := db.outbox, deliveries := db.deliveries);
      assert db' == Emit(written, e.request, e.kind, e.step);
      CommitFansOut(db, written, e.request, e.kind, e.step);
    }
  }

  /**
   * Fan-out is conserved: for every event, the delivery rows that carry it are in bijection with the
   * subscriptions that were active and subscribed to it when it was committed.
   */
  lemma {:induction false} FanoutIsConserved(ss: seq<Db>, ops: seq<Op>, n: nat, e: nat) returns (j: nat)
    requires IsRun(ss, ops) && n < |ss| && e < |ss[n].outbox|
    ensures j < n && |ss[j].outbox| == e
    ensures DistinctIds(ss[j].subscriptions)
    ensures DeliveriesOf(ss[n].deliveries, e) == Fanout(ss[j].subscriptions, e, ss[n].outbox[e].kind)
    ensures forall id: nat ::
              multiset(DeliveriesOf(ss[n].deliveries, e))[Delivery(id, e, ss[n].outbox[e].kind)]
              == if exists s :: s in ss[j].subscriptions && s.id == id && Wants(s, ss[n].outbox[e].kind) then 1 else 0
  {
    j := EmittedAt(ss, ops, n, e);
    FanoutInvHolds(ss, ops, j);
    forall id: nat
      ensures multiset(DeliveriesOf(ss[n].deliveries, e))[Delivery(id, e, ss[n].outbox[e].kind)]
           == if exists s :: s in ss[j].subscriptions && s.id == id && Wants(s, ss[n].outbox[e].kind) then 1 else 0
    {
      FanoutCounts(ss[j].subscriptions, e, ss[n].outbox[e].kind, id);
    }
  }

  lemma {:induction false} FanoutInvHolds(ss: seq<Db>, ops: seq<Op>, i: nat)
    requires IsRun(ss, ops) && i < |ss|
    ensures FanoutInv(ss[i])
  {
    if i > 0 {
      FanoutInvHolds(ss, ops, i - 1);
      StepFansOut(ss[i - 1], ops[i - 1]);
    }
  }

  lemma {:induction false} EmittedAt(ss: seq<Db>, ops: seq<Op>, n: nat, e: nat) returns (j: nat)
    requires IsRun(ss, ops) && n < |ss| && e < |ss[n].outbox|
    ensures j < n && |ss[j].outbox| == e
    ensures DeliveriesOf(ss[n].deliveries, e) == Fanout(ss[j].subscriptions, e, ss[n].outbox[e].kind)
  {
    FanoutInvHolds(ss, ops, n - 1);
    StepFansOut(ss[n - 1], ops[n - 1]);
    if e < |ss[n - 1].outbox| {
      j := EmittedAt(ss, ops, n - 1, e);
    } else {
      j := n - 1;
    }
  }
}
