/**
 * The universal request engine: the rows it writes and the guards it checks.
 *
 * Every transition reads the request outside its transaction and writes inside it. The Commit
 * functions below are the transactions alone, given the row as it was read; the serial model
 * (RequestReplay) commits on the row just read, the interleaved one (RequestInterleaved) on a row
 * read any time earlier.
 */
module RequestEngine {
  import opened Common

  type UserId = string
  type Permission = string
  type RequestId = nat  // position in request_items

  datatype Status = Pending | InReview | Approved | Rejected | Cancelled | Expired

  predicate Open(status: Status) {
    status == Pending || status == InReview
  }

  datatype Payload =
    | AccessPayload(accessRequestId: nat, requesterId: UserId, durationHours: int)
    | OffboardingPayload(employeeId: UserId)
    | OtherPayload

  datatype Item = Item(
    kind: string,
    requester: UserId,
    assignee: Option<UserId>,
    status: Status,
    payload: Payload,
    resolutionNote: Option<string>,
    resolvedAt: Option<int>,
    expiresAt: Option<int>,
    currentStep: int,
    totalSteps: nat)

  // A row of the append-only approvals log.
  datatype Approval = Approval(
    request: RequestId,
    step: int,
    approver: UserId,
    approved: bool,
    note: Option<string>,
    delegatedFrom: Option<UserId>,
    decidedAt: int)

  datatype EventKind =
    SubmittedEvent | StepApprovedEvent | ApprovedEvent | RejectedEvent | CancelledEvent | ExpiredEvent

  // An outbox row; `step` is in the payload of the two approval events.
  datatype Event = Event(request: RequestId, kind: EventKind, step: int)

  // A webhook_deliveries row; `event` stands for the payload it carries.
  datatype Delivery = Delivery(subscription: nat, event: nat, kind: EventKind)

  datatype Subscription = Subscription(id: nat, active: bool, events: set<EventKind>)

  datatype Delegation = Delegation(fromUser: UserId, toUser: UserId, startsAt: int, endsAt: int)

  datatype StepDef = StepDef(step: int, permission: Permission)

  datatype TypeDef = TypeDef(
    requiredApprovalPermission: Permission,
    allowSelfApproval: bool,
    defaultExpiryHours: nat,
    approvalSteps: Option<seq<StepDef>>)

  // A domain hook the engine ran inside a transaction.
  datatype Hook = OnApprove(actor: UserId) | OnStepApproved(step: int) | OnReject(actor: UserId) | OnCancel | OnExpire
  datatype HookRun = HookRun(request: RequestId, hook: Hook, at: int)

  datatype Db = Db(
    items: seq<Item>,
    approvals: seq<Approval>,
    outbox: seq<Event>,
    deliveries: seq<Delivery>,
    hooks: seq<HookRun>,
    subscriptions: seq<Subscription>,
    delegations: seq<Delegation>,
    holds: map<UserId, set<Permission>>,  // what authz.check answers
    defs: map<string, TypeDef>)           // the registry

  datatype Refusal = NotFound | NotOpen | UnknownType | SodViolation | PermissionDenied | HookFailed

  const MS_PER_HOUR := 3_600_000

  // ---- The approval chain ----

  function MaxStep(steps: seq<StepDef>): (m: int)
    requires steps != []
    ensures forall i :: 0 <= i < |steps| ==> steps[i].step <= m
    ensures exists i :: 0 <= i < |steps| && steps[i].step == m
  {
    if |steps| == 1 then steps[0].step
    else
      var rest := MaxStep(steps[1..]);
      if steps[0].step < rest then rest else steps[0].step
  }

  /** Math.max of no steps is -Infinity, so an empty chain is final at once. */
  predicate IsFinalStep(def: TypeDef, step: int) {
    def.approvalSteps.None? || def.approvalSteps.value == [] || step >= MaxStep(def.approvalSteps.value)
  }

  /** The step whose approval is final: the largest step number, and never before step 1. */
  function LastStep(def: TypeDef): int {
    if def.approvalSteps.None? || def.approvalSteps.value == [] then 1
    else if MaxStep(def.approvalSteps.value) < 1 then 1
    else MaxStep(def.approvalSteps.value)
  }

  function TotalSteps(def: TypeDef): nat {
    if def.approvalSteps.None? then 1 else |def.approvalSteps.value|
  }

  function FindStep(steps: seq<StepDef>, step: int): Option<StepDef> {
    if steps == [] then None
    else if steps[0].step == step then Some(steps[0])
    else FindStep(steps[1..], step)
  }

  function StepPermission(def: TypeDef, step: int): Permission {
    if def.approvalSteps.None? then def.requiredApprovalPermission
    else
      var found := FindStep(def.approvalSteps.value, step);
      if found.Some? then found.value.permission else def.requiredApprovalPermission
  }

  // ---- Guards ----

  predicate Check(holds: map<UserId, set<Permission>>, user: UserId, permission: Permission) {
    user in holds && permission in holds[user]
  }

  predicate Active(d: Delegation, actor: UserId, now: int) {
    d.toUser == actor && d.startsAt <= now < d.endsAt
  }

  /** What findActiveDelegationTo may return: any active row, or nothing if there is none. */
  predicate IsActiveDelegation(rows: seq<Delegation>, actor: UserId, now: int, via: Option<Delegation>) {
    match via
    case Some(d) => d in rows && Active(d, actor, now)
    case None => forall d :: d in rows ==> !Active(d, actor, now)
  }

  function Subject(actor: UserId, via: Option<Delegation>): UserId {
    if via.Some? then via.value.fromUser else actor
  }

  // What the log records of it.
  function Delegator(via: Option<Delegation>): Option<UserId> {
    if via.Some? then Some(via.value.fromUser) else None
  }

  /** The guards approve() and reject() share, in the order they are checked. */
  function DecisionRefusal(db: Db, id: RequestId, actor: UserId, via: Option<Delegation>): Option<Refusal> {
    if id >= |db.items| then Some(NotFound)
    else
      var item := db.items[id];
      if !Open(item.status) then Some(NotOpen)
      else if item.kind !in db.defs then Some(UnknownType)
      else
        var def := db.defs[item.kind];
        var permission := StepPermission(def, item.currentStep);
        if !def.allowSelfApproval && item.requester == Subject(actor, via) then Some(SodViolation)
        else if !Check(db.holds, actor, permission) && !(via.Some? && Check(db.holds, via.value.fromUser, permission))
        then Some(PermissionDenied)
        else None
  }

  function CancelRefusal(db: Db, id: RequestId, actor: UserId): Option<Refusal> {
    if id >= |db.items| then Some(NotFound)
    else if db.items[id].requester != actor && !Check(db.holds, actor, "rbac.manage") then Some(PermissionDenied)
    else if !Open(db.items[id].status) then Some(NotOpen)
    else if db.items[id].kind !in db.defs then Some(UnknownType)
    else None
  }

  // ---- Transactions ----

  /** One delivery row per subscription that is active and lists the event. */
  function Fanout(subs: seq<Subscription>, event: nat, kind: EventKind): seq<Delivery> {
    if subs == [] then []
    else
      var last := subs[|subs| - 1];
      Fanout(subs[..|subs| - 1], event, kind)
      + if last.active && kind in last.events then [Delivery(last.id, event, kind)] else []
  }

  function Emit(db: Db, request: RequestId, kind: EventKind, step: int): Db {
    db.(outbox := db.outbox + [Event(request, kind, step)],
        deliveries := db.deliveries + Fanout(db.subscriptions, |db.outbox|, kind))
  }

  function RunHook(db: Db, request: RequestId, hook: Hook, at: int): Db {
    db.(hooks := db.hooks + [HookRun(request, hook, at)])
  }

  function NewItem(def: TypeDef, kind: string, payload: Payload, requester: UserId, assignee: Option<UserId>,
                   expiresAt: Option<int>, now: int): Item {
    var deadline := if expiresAt.Some? then expiresAt
                    else if def.defaultExpiryHours != 0 then Some(now + def.defaultExpiryHours * MS_PER_HOUR)
                    else None;
    Item(kind, requester, assignee, Pending, payload, None, None, deadline, 1, TotalSteps(def))
  }

  function CommitSubmit(db: Db, item: Item): Db {
    Emit(db.(items := db.items + [item]), |db.items|, SubmittedEvent, 1)
  }

  /** approve()'s transaction: `read` is the row as it was read, `resolved` the next step's resolver's answer. */
  function CommitApprove(db: Db, id: RequestId, read: Item, def: TypeDef, note: Option<string>, actor: UserId,
                         via: Option<Delegation>, resolved: Option<UserId>, now: int): Db
    requires id < |db.items|
  {
    var step := read.currentStep;
    var final := IsFinalStep(def, step);
    var row := db.items[id].(
      status := if final then Approved else InReview,
      currentStep := if final then step else step + 1,
      assignee := if !final && resolved.Some? then resolved else read.assignee,
      resolvedAt := if final then Some(now) else None,
      resolutionNote := if final then note else None);
    var approval := Approval(id, step, actor, true, note, Delegator(via), now);
    var written := db.(items := db.items[id := row], approvals := db.approvals + [approval]);
    var hooked := RunHook(written, id, if final then OnApprove(actor) else OnStepApproved(step), now);
    Emit(hooked, id, if final then ApprovedEvent else StepApprovedEvent, step)
  }

  function CommitReject(db: Db, id: RequestId, read: Item, note: Option<string>, actor: UserId,
                        via: Option<Delegation>, now: int): Db
    requires id < |db.items|
  {
    var row := db.items[id].(status := Rejected, resolvedAt := Some(now), resolutionNote := note);
    var approval := Approval(id, read.currentStep, actor, false, note, Delegator(via), now);
    var written := db.(items := db.items[id := row], approvals := db.approvals + [approval]);
    Emit(RunHook(written, id, OnReject(actor), now), id, RejectedEvent, 0)
  }

  function CommitClose(db: Db, id: RequestId, status: Status, now: int): Db
    requires id < |db.items|
    requires status == Cancelled || status == Expired
  {
    var row := db.items[id].(status := status, resolvedAt := Some(now));
    var written := db.(items := db.items[id := row]);
    if status == Cancelled then Emit(RunHook(written, id, OnCancel, now), id, CancelledEvent, 0)
    else Emit(RunHook(written, id, OnExpire, now), id, ExpiredEvent, 0)
  }

  // ---- Whole calls, nothing interleaved ----

  datatype Op =
    | Register(kind: string, def: TypeDef)
    | Submit(kind: string, payload: Payload, actor: UserId, assignee: Option<UserId>, expiresAt: Option<int>, now: int,
             hookOk: bool)
    | Approve(id: RequestId, note: Option<string>, actor: UserId, via: Option<Delegation>, resolved: Option<UserId>,
              now: int, hookOk: bool)
    | Reject(id: RequestId, note: Option<string>, actor: UserId, via: Option<Delegation>, now: int, hookOk: bool)
    | Cancel(id: RequestId, actor: UserId, now: int, hookOk: bool)
    | Expire(id: RequestId, now: int, hookOk: bool)
    | SetSubscriptions(subscriptions: seq<Subscription>)
    | SetDelegations(delegations: seq<Delegation>)
    | SetPermissions(holds: map<UserId, set<Permission>>)

  /** `hookOk` is false when a domain hook throws: the transaction rolls back. */
  function Refused(db: Db, op: Op): Option<Refusal> {
    match op
    case Submit(kind, _, _, _, _, _, hookOk) =>
      if kind !in db.defs then Some(UnknownType) else if hookOk then None else Some(HookFailed)
    case Approve(id, _, actor, via, _, _, hookOk) =>
      var r := DecisionRefusal(db, id, actor, via);
      if r.Some? then r else if hookOk then None else Some(HookFailed)
    case Reject(id, _, actor, via, _, hookOk) =>
      var r := DecisionRefusal(db, id, actor, via);
      if r.Some? then r else if hookOk then None else Some(HookFailed)
    case Cancel(id, actor, _, hookOk) =>
      var r := CancelRefusal(db, id, actor);
      if r.Some? then r else if hookOk then None else Some(HookFailed)
    case Expire(id, _, hookOk) =>
      if id >= |db.items| then Some(NotFound)
      else if !Open(db.items[id].status) then None
      else if db.items[id].kind !in db.defs then Some(UnknownType)
      else if hookOk then None else Some(HookFailed)
    case _ => None
  }

  function Next(db: Db, op: Op): Db {
    if Refused(db, op).Some? then db else
    match op
    case Register(kind, def) => if kind in db.defs then db else db.(defs := db.defs[kind := def])
    case Submit(kind, payload, actor, assignee, expiresAt, now, _) =>
      CommitSubmit(db, NewItem(db.defs[kind], kind, payload, actor, assignee, expiresAt, now))
    case Approve(id, note, actor, via, resolved, now, _) =>
      var item := db.items[id];
      CommitApprove(db, id, item, db.defs[item.kind], note, actor, via, resolved, now)
    case Reject(id, note, actor, via, now, _) => CommitReject(db, id, db.items[id], note, actor, via, now)
    case Cancel(id, _, now, _) => CommitClose(db, id, Cancelled, now)
    case Expire(id, now, _) => if Open(db.items[id].status) then CommitClose(db, id, Expired, now) else db
    case SetSubscriptions(subscriptions) => db.(subscriptions := subscriptions)
    case SetDelegations(delegations) => db.(delegations := delegations)
    case SetPermissions(holds) => db.(holds := holds)
  }

  predicate DistinctIds(subs: seq<Subscription>) {
    forall i, j :: 0 <= i < j < |subs| ==> subs[i].id != subs[j].id
  }

  // What DelegationService.create accepts.
  predicate ValidDelegation(d: Delegation) {
    d.fromUser != d.toUser && d.startsAt < d.endsAt
  }

  /**
   * What the environment may do: subscription ids are unique, delegations are those that create
   * accepted, and delegation lookups answer as the query does.
   */
  predicate Legal(db: Db, op: Op) {
    match op
    case Approve(_, _, actor, via, _, now, _) => IsActiveDelegation(db.delegations, actor, now, via)
    case Reject(_, _, actor, via, now, _) => IsActiveDelegation(db.delegations, actor, now, via)
    case SetSubscriptions(subscriptions) => DistinctIds(subscriptions)
    case SetDelegations(delegations) => forall d :: d in delegations ==> ValidDelegation(d)
    case _ => true
  }

  const EMPTY := Db([], [], [], [], [], [], [], map[], map[])

  ghost predicate IsRun(ss: seq<Db>, ops: seq<Op>) {
    && |ss| == |ops| + 1
    && ss[0] == EMPTY
    && forall i {:trigger ops[i]} :: 0 <= i < |ops| ==> Legal(ss[i], ops[i]) && ss[i + 1] == Next(ss[i], ops[i])
  }

  // ---- The service ----

  datatype Outcome<T> = Ok(value: T) | Error(refusal: Refusal)

  class Engine {
    var items: seq<Item>
    var approvals: seq<Approval>
    var outbox: seq<Event>
    var deliveries: seq<Delivery>
    var hooks: seq<HookRun>
    var subscriptions: seq<Subscription>
    var delegations: seq<Delegation>
    var holds: map<UserId, set<Permission>>
    var defs: map<string, TypeDef>

    constructor ()
      ensures View() == EMPTY
    {
      items, approvals, outbox, deliveries, hooks := [], [], [], [], [];
      subscriptions, delegations, holds, defs := [], [], map[], map[];
    }

    function View(): Db
      reads this
    {
      Db(items, approvals, outbox, deliveries, hooks, subscriptions, delegations, holds, defs)
    }

    method Register(kind: string, def: TypeDef)
      modifies this
      ensures View() == Next(old(View()), Op.Register(kind, def))
    {
      if kind in defs {
        return;
      }
      defs := defs[kind := def];
    }

    method Enqueue(request: RequestId, kind: EventKind, step: int)
      modifies this
      ensures View() == Emit(old(View()), request, kind, step)
    {
      outbox := outbox + [Event(request, kind, step)];
      var rows: seq<Delivery> := [];
      for i := 0 to |subscriptions|
        invariant rows == Fanout(subscriptions[..i], |old(outbox)|, kind)
      {
        var s := subscriptions[i];
        if s.active && kind in s.events {
          rows := rows + [Delivery(s.id, |outbox| - 1, kind)];
        }
        assert subscriptions[..i + 1][..i] == subscriptions[..i];
      }
      assert subscriptions[..|subscriptions|] == subscriptions;
      deliveries := deliveries + rows;
    }

    /** The first active row in table order. */
    method FindActiveDelegationTo(actor: UserId, now: int) returns (via: Option<Delegation>)
      ensures IsActiveDelegation(delegations, actor, now, via)
      ensures via.Some? <==> exists d :: d in delegations && d.toUser == actor && d.startsAt <= now < d.endsAt
      ensures via.Some? ==>
                via.value in delegations && via.value.toUser == actor && via.value.startsAt <= now < via.value.endsAt
    {
      for i := 0 to |delegations|
        invariant forall j :: 0 <= j < i ==> !Active(delegations[j], actor, now)
      {
        if Active(delegations[i], actor, now) {
          return Some(delegations[i]);
        }
      }
      via := None;
    }

    method Submit(kind: string, payload: Payload, actor: UserId, assignee: Option<UserId>, expiresAt: Option<int>,
                  now: int, hookOk: bool) returns (r: Outcome<RequestId>)
      modifies this
      ensures var op := Op.Submit(kind, payload, actor, assignee, expiresAt, now, hookOk);
              && View() == Next(old(View()), op)
              && r == (if Refused(old(View()), op).Some? then Error(Refused(old(View()), op).value)
                       else Ok(|old(items)|))
    {
      if kind !in defs {
        return Error(UnknownType);
      }
      if !hookOk {
        return Error(HookFailed);
      }
      var id := |items|;
      items := items + [NewItem(defs[kind], kind, payload, actor, assignee, expiresAt, now)];
      Enqueue(id, SubmittedEvent, 1);
      return Ok(id);
    }

    /** getOrFail, assertApprovable and the guards both decisions share; also answers with the delegation used. */
    method GuardDecision(id: RequestId, actor: UserId, now: int)
      returns (refusal: Option<Refusal>, via: Option<Delegation>)
      ensures IsActiveDelegation(delegations, actor, now, via)
      ensures refusal == DecisionRefusal(View(), id, actor, via)
    {
      via := FindActiveDelegationTo(actor, now);
      if id >= |items| {
        return Some(NotFound), via;
      }
      var request := items[id];
      if request.status != Pending && request.status != InReview {
        return Some(NotOpen), via;
      }
      if request.kind !in defs {
        return Some(UnknownType), via;
      }
      var def := defs[request.kind];
      var sodSubject := if via.Some? then via.value.fromUser else actor;
      if !def.allowSelfApproval && request.requester == sodSubject {
        return Some(SodViolation), via;
      }
      var permission := StepPermission(def, request.currentStep);
      var actorAllowed := Check(holds, actor, permission);
      var delegatorAllowed := if via.Some? then Check(holds, via.value.fromUser, permission) else false;
      if !actorAllowed && !delegatorAllowed {
        return Some(PermissionDenied), via;
      }
      refusal := None;
    }

    method Approve(id: RequestId, note: Option<string>, actor: UserId, resolved: Option<UserId>, now: int, hookOk: bool)
      returns (r: Outcome<Item>, via: Option<Delegation>)
      modifies this
      ensures var op := Op.Approve(id, note, actor, via, resolved, now, hookOk);
              && Legal(old(View()), op)
              && View() == Next(old(View()), op)
              && r == (if Refused(old(View()), op).Some? then Error(Refused(old(View()), op).value)
                       else Ok(Next(old(View()), op).items[id]))
    {
      var refusal;
      refusal, via := GuardDecision(id, actor, now);
      if refusal.Some? {
        return Error(refusal.value), via;
      }
      if !hookOk {
        return Error(HookFailed), via;
      }
      var request := items[id];
      var def := defs[request.kind];
      var step := request.currentStep;
      var isFinalStep := IsFinalStep(def, step);
      var nextAssignee := request.assignee;
      if !isFinalStep && resolved.Some? {
        nextAssignee := resolved;
      }
      items := items[id := items[id].(
        status := if isFinalStep then Approved else InReview,
        currentStep := if isFinalStep then step else step + 1,
        assignee := if isFinalStep then request.assignee else nextAssignee,
        resolvedAt := if isFinalStep then Some(now) else None,
        resolutionNote := if isFinalStep then note else None)];
      approvals := approvals + [Approval(id, step, actor, true, note, Delegator(via), now)];
      hooks := hooks + [HookRun(id, if isFinalStep then OnApprove(actor) else OnStepApproved(step), now)];
      Enqueue(id, if isFinalStep then ApprovedEvent else StepApprovedEvent, step);
      return Ok(items[id]), via;
    }

    method Reject(id: RequestId, note: Option<string>, actor: UserId, now: int, hookOk: bool)
      returns (r: Outcome<Item>, via: Option<Delegation>)
      modifies this
      ensures var op := Op.Reject(id, note, actor, via, now, hookOk);
              && Legal(old(View()), op)
              && View() == Next(old(View()), op)
              && r == (if Refused(old(View()), op).Some? then Error(Refused(old(View()), op).value)
                       else Ok(Next(old(View()), op).items[id]))
    {
      var refusal;
      refusal, via := GuardDecision(id, actor, now);
      if refusal.Some? {
        return Error(refusal.value), via;
      }
      if !hookOk {
        return Error(HookFailed), via;
      }
      var step := items[id].currentStep;
      items := items[id := items[id].(status := Rejected, resolvedAt := Some(now), resolutionNote := note)];
      approvals := approvals + [Approval(id, step, actor, false, note, Delegator(via), now)];
      hooks := hooks + [HookRun(id, OnReject(actor), now)];
      Enqueue(id, RejectedEvent, 0);
      return Ok(items[id]), via;
    }

    method Cancel(id: RequestId, actor: UserId, now: int, hookOk: bool) returns (r: Outcome<Item>)
      modifies this
      ensures var op := Op.Cancel(id, actor, now, hookOk);
              && View() == Next(old(View()), op)
              && r == (if Refused(old(View()), op).Some? then Error(Refused(old(View()), op).value)
                       else Ok(Next(old(View()), op).items[id]))
    {
      if id >= |items| {
        return Error(NotFound);
      }
      var canAdminCancel := Check(holds, actor, "rbac.manage");
      if items[id].requester != actor && !canAdminCancel {
        return Error(PermissionDenied);
      }
      if items[id].status != Pending && items[id].status != InReview {
        return Error(NotOpen);
      }
      if items[id].kind !in defs {
        return Error(UnknownType);
      }
      if !hookOk {
        return Error(HookFailed);
      }
      items := items[id := items[id].(status := Cancelled, resolvedAt := Some(now))];
      hooks := hooks + [HookRun(id, OnCancel, now)];
      Enqueue(id, CancelledEvent, 0);
      return Ok(items[id]);
    }

    method Expire(id: RequestId, now: int, hookOk: bool) returns (refusal: Option<Refusal>)
      modifies this
      ensures var op := Op.Expire(id, now, hookOk);
              View() == Next(old(View()), op) && refusal == Refused(old(View()), op)
    {
      if id >= |items| {
        return Some(NotFound);
      }
      if items[id].status != Pending && items[id].status != InReview {
        return None;
      }
      if items[id].kind !in defs {
        return Some(UnknownType);
      }
      if !hookOk {
        return Some(HookFailed);
      }
      items := items[id := items[id].(status := Expired, resolvedAt := Some(now))];
      hooks := hooks + [HookRun(id, OnExpire, now)];
      Enqueue(id, ExpiredEvent, 0);
      return None;
    }

    /** list()'s grouping: one pass over the approvals of all listed requests gives what getById selects for each. */
    method GroupApprovals(ids: set<RequestId>) returns (approvalMap: map<RequestId, seq<Approval>>)
      ensures forall id :: id in ids ==>
                ApprovalsOf(approvals, id) == if id in approvalMap then approvalMap[id] else []
    {
      approvalMap := map[];
      for i := 0 to |approvals|
        invariant forall id :: id in ids ==>
                    ApprovalsOf(approvals[..i], id) == if id in approvalMap then approvalMap[id] else []
      {
        var a := approvals[i];
        assert approvals[..i + 1] == approvals[..i] + [a];
        forall id | id in ids {
          ApprovalsOfAppend(approvals[..i], a, id);
        }
        if a.request in ids {
          var group := if a.request in approvalMap then approvalMap[a.request] else [];
          approvalMap := approvalMap[a.request := group + [a]];
        }
      }
      assert approvals[..|approvals|] == approvals;
    }
  }

  /** The approvals of one request, oldest first. */
  function ApprovalsOf(approvals: seq<Approval>, id: RequestId): seq<Approval> {
    Filter(OfRequest(id), approvals)
  }

  function OfRequest(id: RequestId): Approval -> bool {
    (a: Approval) => a.request == id
  }

  function EventsOf(outbox: seq<Event>, id: RequestId): seq<Event> {
    Filter(AboutRequest(id), outbox)
  }

  function AboutRequest(id: RequestId): Event -> bool {
    (e: Event) => e.request == id
  }

  lemma ApprovalsOfAppend(approvals: seq<Approval>, a: Approval, id: RequestId)
    ensures ApprovalsOf(approvals + [a], id) == ApprovalsOf(approvals, id) + if a.request == id then [a] else []
  {
    FilterAppend(OfRequest(id), approvals, a);
  }

  lemma EventsOfAppend(outbox: seq<Event>, e: Event, id: RequestId)
    ensures EventsOf(outbox + [e], id) == EventsOf(outbox, id) + if e.request == id then [e] else []
  {
    FilterAppend(AboutRequest(id), outbox, e);
  }
}
