/**
 * Privileged-access requests: a domain table that the engine drives through hooks. The service and
 * the unified inbox both reach the engine, and the domain row must follow whichever of them did.
 */
module AccessRequests {
  import opened Common
  import E = RequestEngine
  import R = RequestReplay

  type UserId = E.UserId

  const KIND := "access_request"
  const APPROVE := "access_request.approve"
  const SECURITY_APPROVE := "access_request.security_approve"
  const EXPIRY_HOURS := 168

  const DEF := E.TypeDef(APPROVE, false, EXPIRY_HOURS,
                         Some([E.StepDef(1, APPROVE), E.StepDef(2, SECURITY_APPROVE)]))

  datatype Status = Pending | Approved | Rejected | Expired

  // `item` is the engine request the row links to: absent until the backlink is written, and on legacy rows.
  datatype Request = Request(requester: UserId, durationHours: int, status: Status, reviewer: Option<UserId>,
                             item: Option<E.RequestId>)

  datatype Grant = Grant(request: nat, grantee: UserId, grantedAt: int, expiresAt: int, revokedAt: Option<int>)

  datatype World = World(db: E.Db, requests: seq<Request>, grants: seq<Grant>)

  datatype Refusal = RequestNotFound | RequestNotPending | GrantNotFound | GrantNotActive | ByEngine(refusal: E.Refusal)

  // ---- The hooks of the type definition ----

  function MarkReviewed(requests: seq<Request>, id: nat, status: Status, reviewer: Option<UserId>): seq<Request> {
    if id >= |requests| then requests
    else
      var old' := requests[id];
      requests[id := old'.(status := status, reviewer := if reviewer.Some? then reviewer else old'.reviewer)]
  }

  function GrantFor(id: nat, grantee: UserId, durationHours: int, now: int): Grant {
    Grant(id, grantee, now, now + durationHours * E.MS_PER_HOUR, None)
  }

  /** What the hook of a run does to the domain tables; step approvals and cancellations touch neither. */
  function Hooked(w: World, run: E.HookRun): World {
    if run.request >= |w.db.items| || w.db.items[run.request].kind != KIND
       || !w.db.items[run.request].payload.AccessPayload?
    then w
    else
      var p := w.db.items[run.request].payload;
      match run.hook
      case OnApprove(actor) =>
        w.(requests := MarkReviewed(w.requests, p.accessRequestId, Approved, Some(actor)),
           grants := w.grants + [GrantFor(p.accessRequestId, p.requesterId, p.durationHours, run.at)])
      case OnReject(actor) => w.(requests := MarkReviewed(w.requests, p.accessRequestId, Rejected, Some(actor)))
      case OnExpire => w.(requests := MarkReviewed(w.requests, p.accessRequestId, Expired, None))
      case _ => w
  }

  /** An engine call together with the hook it ran, in one transaction. */
  function Drive(w: World, op: E.Op): World {
    Follow(w, E.Next(w.db, op))
  }

  // The domain tables after the engine moved to `db`.
  function Follow(w: World, db: E.Db): World {
    var moved := w.(db := db);
    if |db.hooks| > |w.db.hooks| then Hooked(moved, db.hooks[|w.db.hooks|]) else moved
  }

  // ---- Whole calls ----

  // How far a submit came before its process died.
  datatype Reach = RowOnly | EngineToo | Complete

  datatype Op =
    | Submit(requester: UserId, durationHours: int, now: int, reach: Reach)
    | Approve(id: nat, note: Option<string>, actor: UserId, via: Option<E.Delegation>, now: int, hookOk: bool)
    | Reject(id: nat, note: Option<string>, actor: UserId, via: Option<E.Delegation>, now: int, hookOk: bool)
    | RevokeGrant(grant: nat, now: int)
    | Inbox(op: E.Op)  // the inbox, the expiry cron, other request types and administration

  function SubmitCall(w: World, requester: UserId, durationHours: int, now: int): E.Op {
    E.Op.Submit(KIND, E.AccessPayload(|w.requests|, requester, durationHours), requester, None,
                Some(now + EXPIRY_HOURS * E.MS_PER_HOUR), now, true)
  }

  function ApproveCall(w: World, id: nat, note: Option<string>, actor: UserId, via: Option<E.Delegation>,
                      now: int, hookOk: bool): E.Op
    requires id < |w.requests| && w.requests[id].item.Some?
  {
    E.Op.Approve(w.requests[id].item.value, note, actor, via, None, now, hookOk)
  }

  function RejectCall(w: World, id: nat, note: Option<string>, actor: UserId, via: Option<E.Delegation>,
                     now: int, hookOk: bool): E.Op
    requires id < |w.requests| && w.requests[id].item.Some?
  {
    E.Op.Reject(w.requests[id].item.value, note, actor, via, now, hookOk)
  }

  function Refused(w: World, op: Op): Option<Refusal> {
    match op
    case Submit(requester, hours, now, _) =>
      var r := E.Refused(w.db, SubmitCall(w, requester, hours, now));
      if r.Some? then Some(ByEngine(r.value)) else None
    case Approve(id, note, actor, via, now, hookOk) =>
      if id >= |w.requests| then Some(RequestNotFound)
      else if w.requests[id].status != Pending then Some(RequestNotPending)
      else if w.requests[id].item.None? then None
      else
        var r := E.Refused(w.db, ApproveCall(w, id, note, actor, via, now, hookOk));
        if r.Some? then Some(ByEngine(r.value)) else None
    case Reject(id, note, actor, via, now, hookOk) =>
      if id >= |w.requests| then Some(RequestNotFound)
      else if w.requests[id].status != Pending then Some(RequestNotPending)
      else if w.requests[id].item.None? then None
      else
        var r := E.Refused(w.db, RejectCall(w, id, note, actor, via, now, hookOk));
        if r.Some? then Some(ByEngine(r.value)) else None
    case RevokeGrant(g, _) =>
      if g >= |w.grants| then Some(GrantNotFound)
      else if w.grants[g].revokedAt.Some? then Some(GrantNotActive)
      else None
    case Inbox(op) =>
      var r := E.Refused(w.db, op);
      if r.Some? then Some(ByEngine(r.value)) else None
  }

  function SubmitNext(w: World, requester: UserId, durationHours: int, now: int, reach: Reach): World {
    var id := |w.requests|;
    var rowed := w.(requests := w.requests + [Request(requester, durationHours, Pending, None, None)]);
    var op := SubmitCall(w, requester, durationHours, now);
    if reach == RowOnly || E.Refused(w.db, op).Some? then rowed
    else
      var driven := Drive(rowed, op);
      if reach == EngineToo then driven
      else driven.(requests := driven.requests[id := driven.requests[id].(item := Some(|w.db.items|))])
  }

  function ApproveNext(w: World, id: nat, note: Option<string>, actor: UserId, via: Option<E.Delegation>,
                       now: int, hookOk: bool): World
    requires id < |w.requests|
  {
    var request := w.requests[id];
    if request.item.Some? then Drive(w, ApproveCall(w, id, note, actor, via, now, hookOk))
    else
      w.(requests := MarkReviewed(w.requests, id, Approved, Some(actor)),
         grants := w.grants + [GrantFor(id, request.requester, request.durationHours, now)])
  }

  function RejectNext(w: World, id: nat, note: Option<string>, actor: UserId, via: Option<E.Delegation>,
                      now: int, hookOk: bool): World
    requires id < |w.requests|
  {
    if w.requests[id].item.Some? then Drive(w, RejectCall(w, id, note, actor, via, now, hookOk))
    else w.(requests := MarkReviewed(w.requests, id, Rejected, Some(actor)))
  }

  function Next(w: World, op: Op): World {
    if op.Submit? then SubmitNext(w, op.requester, op.durationHours, op.now, op.reach)
    else if Refused(w, op).Some? then w
    else
      match op
      case Approve(id, note, actor, via, now, hookOk) => ApproveNext(w, id, note, actor, via, now, hookOk)
      case Reject(id, note, actor, via, now, hookOk) => RejectNext(w, id, note, actor, via, now, hookOk)
      case RevokeGrant(g, now) => w.(grants := w.grants[g := w.grants[g].(revokedAt := Some(now))])
      case Inbox(call) => Drive(w, call)
  }

  /**
   * What reaches the service: only it submits requests of its kind, both decision routes are guarded by
   * the security permission, and delegation lookups answer as the query does.
   */
  predicate Legal(w: World, op: Op) {
    match op
    case Approve(id, note, actor, via, now, hookOk) =>
      && E.Check(w.db.holds, actor, SECURITY_APPROVE)
      && (AsksEngine(w, id) ==> E.Legal(w.db, ApproveCall(w, id, note, actor, via, now, hookOk)))
    case Reject(id, note, actor, via, now, hookOk) =>
      && E.Check(w.db.holds, actor, SECURITY_APPROVE)
      && (AsksEngine(w, id) ==> E.Legal(w.db, RejectCall(w, id, note, actor, via, now, hookOk)))
    case Inbox(call) => E.Legal(w.db, call) && !(call.Submit? && call.kind == KIND)
    case _ => true
  }

  // A decision of the service on this row goes on to the engine.
  predicate AsksEngine(w: World, id: nat) {
    id < |w.requests| && w.requests[id].status == Pending && w.requests[id].item.Some?
  }

  // The application has started: the module has registered its definition.
  const INIT := World(E.EMPTY.(defs := map[KIND := DEF]), [], [])

  ghost predicate IsRun(ws: seq<World>, ops: seq<Op>) {
    && |ws| == |ops| + 1
    && ws[0] == INIT
    && forall i {:trigger ops[i]} :: 0 <= i < |ops| ==> Legal(ws[i], ops[i]) && ws[i + 1] == Next(ws[i], ops[i])
  }

  // ---- The service ----

  datatype Outcome<T> = Ok(value: T) | Error(refusal: Refusal)

  class AccessRequestService {
    const engine: E.Engine
    var requests: seq<Request>
    var grants: seq<Grant>

    constructor (engine: E.Engine)
      requires engine.View() == E.EMPTY
      modifies engine
      ensures this.engine == engine && View() == INIT
    {
      this.engine := engine;
      requests, grants := [], [];
      new;
      engine.Register(KIND, DEF);
    }

    function View(): World
      reads this, engine
    {
      World(engine.View(), requests, grants)
    }

    method OnApprove(payload: E.Payload, approver: UserId, now: int)
      requires payload.AccessPayload?
      modifies this
      ensures requests == MarkReviewed(old(requests), payload.accessRequestId, Approved, Some(approver))
      ensures grants == old(grants)
                        + [GrantFor(payload.accessRequestId, payload.requesterId, payload.durationHours, now)]
    {
      if payload.accessRequestId < |requests| {
        requests := requests[payload.accessRequestId :=
          requests[payload.accessRequestId].(status := Approved, reviewer := Some(approver))];
      }
      var expiresAt := now + payload.durationHours * E.MS_PER_HOUR;
      grants := grants + [Grant(payload.accessRequestId, payload.requesterId, now, expiresAt, None)];
    }

    method OnReject(payload: E.Payload, approver: UserId)
      requires payload.AccessPayload?
      modifies `requests
      ensures requests == MarkReviewed(old(requests), payload.accessRequestId, Rejected, Some(approver))
    {
      if payload.accessRequestId < |requests| {
        requests := requests[payload.accessRequestId :=
          requests[payload.accessRequestId].(status := Rejected, reviewer := Some(approver))];
      }
    }

    method OnExpire(payload: E.Payload)
      requires payload.AccessPayload?
      modifies `requests
      ensures requests == MarkReviewed(old(requests), payload.accessRequestId, Expired, None)
    {
      if payload.accessRequestId < |requests| {
        requests := requests[payload.accessRequestId := requests[payload.accessRequestId].(status := Expired)];
      }
    }

    /** The engine's dispatch to this type's hooks for the hook record at `before`, if a call wrote one. */
    method RunHooks(before: nat)
      modifies this
      ensures View() == if before < |engine.hooks| then Hooked(old(View()), engine.hooks[before]) else old(View())
    {
      if before >= |engine.hooks| {
        return;
      }
      var run := engine.hooks[before];
      if run.request >= |engine.items| || engine.items[run.request].kind != KIND {
        return;
      }
      var payload := engine.items[run.request].payload;
      if !payload.AccessPayload? {
        return;
      }
      match run.hook
      case OnApprove(actor) => OnApprove(payload, actor, run.at);
      case OnReject(actor) => OnReject(payload, actor);
      case OnExpire => OnExpire(payload);
      case _ =>
    }

    method Submit(requester: UserId, durationHours: int, now: int) returns (r: Outcome<nat>)
      modifies this, engine
      ensures var op := Op.Submit(requester, durationHours, now, Complete);
              && View() == Next(old(View()), op)
              && r == if Refused(old(View()), op).Some? then Error(Refused(old(View()), op).value)
                      else Ok(|old(requests)|)
    {
      var id := |requests|;
      var hooked := |engine.hooks|;
      requests := requests + [Request(requester, durationHours, Pending, None, None)];
      var payload := E.AccessPayload(id, requester, durationHours);
      var expiresAt := now + EXPIRY_HOURS * E.MS_PER_HOUR;
      var submitted := engine.Submit(KIND, payload, requester, None, Some(expiresAt), now, true);
      if submitted.Error? {
        return Error(ByEngine(submitted.refusal));
      }
      RunHooks(hooked);
      requests := requests[id := requests[id].(item := Some(submitted.value))];
      return Ok(id);
    }

    /** engine.approve() with the hook it runs in its transaction. */
    method EngineApprove(item: E.RequestId, note: Option<string>, actor: UserId, now: int, hookOk: bool)
      returns (refusal: Option<E.Refusal>, via: Option<E.Delegation>)
      modifies this, engine
      ensures var call := E.Op.Approve(item, note, actor, via, None, now, hookOk);
              && E.Legal(old(View()).db, call)
              && refusal == E.Refused(old(View()).db, call)
              && View() == Drive(old(View()), call)
    {
      var hooked := |engine.hooks|;
      var approved;
      approved, via := engine.Approve(item, note, actor, None, now, hookOk);
      if approved.Error? {
        return Some(approved.refusal), via;
      }
      RunHooks(hooked);
      return None, via;
    }

    /** Answers with the newest grant of the request, which is missing while its chain is unfinished. */
    method Approve(id: nat, note: Option<string>, actor: UserId, now: int, hookOk: bool)
      returns (r: Outcome<Option<Grant>>, via: Option<E.Delegation>)
      modifies this, engine
      ensures var op := Op.Approve(id, note, actor, via, now, hookOk);
              && View() == Next(old(View()), op)
              && (r.Error? <==> Refused(old(View()), op).Some?)
              && (r.Error? ==> r.refusal == Refused(old(View()), op).value)
      ensures r.Ok? ==> IsNewestGrant(grants, id, r.value)
      ensures AsksEngine(old(View()), id) ==>
                E.Legal(old(View()).db, ApproveCall(old(View()), id, note, actor, via, now, hookOk))
    {
      via := None;
      if id >= |requests| {
        return Error(RequestNotFound), via;
      }
      var request := requests[id];
      if request.status != Pending {
        return Error(RequestNotPending), via;
      }
      if request.item.Some? {
        var refusal;
        refusal, via := EngineApprove(request.item.value, note, actor, now, hookOk);
        if refusal.Some? {
          return Error(ByEngine(refusal.value)), via;
        }
      } else {
        requests := requests[id := request.(status := Approved, reviewer := Some(actor))];
        grants := grants + [GrantFor(id, request.requester, request.durationHours, now)];
      }
      var grant := NewestGrant(id);
      return Ok(grant), via;
    }

    /** ORDER BY granted_at DESC LIMIT 1. */
    method NewestGrant(id: nat) returns (grant: Option<Grant>)
      ensures IsNewestGrant(grants, id, grant)
      ensures grant.None? ==> forall g :: g in grants ==> g.request != id
      ensures grant.Some? ==> grant.value in grants && grant.value.request == id
      ensures grant.Some? ==> forall g :: g in grants && g.request == id ==> g.grantedAt <= grant.value.grantedAt
    {
      grant := None;
      for g := 0 to |grants|
        invariant IsNewestGrant(grants[..g], id, grant)
      {
        if grants[g].request == id && (grant.None? || grant.value.grantedAt < grants[g].grantedAt) {
          grant := Some(grants[g]);
        }
        assert grants[..g + 1] == grants[..g] + [grants[g]];
      }
      assert grants[..|grants|] == grants;
    }

    method Reject(id: nat, note: Option<string>, actor: UserId, now: int, hookOk: bool)
      returns (r: Outcome<Request>, via: Option<E.Delegation>)
      modifies this, engine
      ensures var op := Op.Reject(id, note, actor, via, now, hookOk);
              && View() == Next(old(View()), op)
              && (if Refused(old(View()), op).Some? then r == Error(Refused(old(View()), op).value)
                  else id < |requests| && r == Ok(requests[id]))
      ensures AsksEngine(old(View()), id) ==>
                E.Legal(old(View()).db, RejectCall(old(View()), id, note, actor, via, now, hookOk))
    {
      via := None;
      if id >= |requests| {
        return Error(RequestNotFound), via;
      }
      var request := requests[id];
      if request.status != Pending {
        return Error(RequestNotPending), via;
      }
      if request.item.Some? {
        var hooked := |engine.hooks|;
        var rejected;
        rejected, via := engine.Reject(request.item.value, note, actor, now, hookOk);
        if rejected.Error? {
          return Error(ByEngine(rejected.refusal)), via;
        }
        RunHooks(hooked);
      } else {
        requests := requests[id := request.(status := Rejected, reviewer := Some(actor))];
      }
      return Ok(requests[id]), via;
    }

    method RevokeGrant(grant: nat, now: int) returns (refusal: Option<Refusal>)
      modifies `grants
      ensures View() == Next(old(View()), Op.RevokeGrant(grant, now))
      ensures refusal == Refused(old(View()), Op.RevokeGrant(grant, now))
    {
      if grant >= |grants| {
        return Some(GrantNotFound);
      }
      if grants[grant].revokedAt.Some? {
        return Some(GrantNotActive);
      }
      grants := grants[grant := grants[grant].(revokedAt := Some(now))];
      return None;
    }
  }

  predicate IsNewestGrant(grants: seq<Grant>, id: nat, grant: Option<Grant>) {
    match grant
    case None => forall g :: g in grants ==> g.request != id
    case Some(newest) =>
      && newest in grants && newest.request == id
      && forall g :: g in grants && g.request == id ==> g.grantedAt <= newest.grantedAt
  }

  // ---- The coupling ----

  predicate Coupled(status: Status, item: E.Status) {
    match status
    case Approved => item == E.Approved
    case Rejected => item == E.Rejected
    case Expired => item == E.Expired
    case Pending => item == E.Pending || item == E.InReview || item == E.Cancelled
  }

  predicate IsAccessItem(w: World, q: E.RequestId) {
    q < |w.db.items| && w.db.items[q].kind == KIND
  }

  /** The row's request was submitted, but the row does not know it. */
  ghost predicate HalfSubmitted(w: World, id: nat)
    requires id < |w.requests|
  {
    w.requests[id].item.None? && exists q: nat :: IsAccessItem(w, q) && RequestOf(w, q) == id
  }

  function RequestOf(w: World, q: E.RequestId): int {
    if IsAccessItem(w, q) && w.db.items[q].payload.AccessPayload? then w.db.items[q].payload.accessRequestId else -1
  }

  ghost predicate ItemInv(w: World, q: E.RequestId)
    requires IsAccessItem(w, q)
  {
    var id := RequestOf(w, q);
    && 0 <= id < |w.requests|
    && w.db.items[q].payload == E.AccessPayload(id, w.requests[id].requester, w.requests[id].durationHours)
    && w.db.items[q].requester == w.requests[id].requester
    && (w.requests[id].item.None? || w.requests[id].item == Some(q))
  }

  ghost predicate RowInv(w: World, id: nat)
    requires id < |w.requests|
  {
    var row := w.requests[id];
    row.item.Some? ==> IsAccessItem(w, row.item.value) && RequestOf(w, row.item.value) == id
                       && Coupled(row.status, w.db.items[row.item.value].status)
  }

  /** Exactly one grant, with the requested duration, if approved; none otherwise. */
  ghost predicate GrantsMatch(w: World, id: nat)
    requires id < |w.requests|
  {
    var row := w.requests[id];
    && (row.status == Approved ==> exists g: nat :: g < |w.grants| && w.grants[g].request == id)
    && (forall g: nat {:trigger w.grants[g]} :: g < |w.grants| && w.grants[g].request == id ==>
          && row.status == Approved
          && w.grants[g].grantee == row.requester
          && w.grants[g].expiresAt - w.grants[g].grantedAt == row.durationHours * E.MS_PER_HOUR)
    && (forall g: nat, h: nat {:trigger w.grants[g], w.grants[h]} ::
          g < |w.grants| && h < |w.grants| && w.grants[g].request == id && w.grants[h].request == id ==> g == h)
  }

  ghost predicate CoupledInv(w: World) {
    && (forall q: nat {:trigger w.db.items[q]} :: IsAccessItem(w, q) ==> ItemInv(w, q))
    && (forall id: nat {:trigger w.requests[id]} :: id < |w.requests| ==>
          RowInv(w, id) && (HalfSubmitted(w, id) || GrantsMatch(w, id)))
    && (forall g: nat {:trigger w.grants[g]} :: g < |w.grants| ==> w.grants[g].request < |w.requests|)
  }

  ghost predicate Inv(w: World) {
    R.Inv(w.db) && KIND in w.db.defs && w.db.defs[KIND] == DEF && CoupledInv(w)
  }

  // The status a transition leaves behind, by the hook it ran.
  function StatusAfter(hook: E.Hook): E.Status {
    match hook
    case OnApprove(_) => E.Approved
    case OnStepApproved(_) => E.InReview
    case OnReject(_) => E.Rejected
    case OnCancel => E.Cancelled
    case OnExpire => E.Expired
  }

  /** What the coupling needs to know about a call that is no submit: one open item moves, and its hook runs. */
  ghost predicate MovesOne(db: E.Db, db': E.Db) {
    || (db'.hooks == db.hooks && db'.items == db.items)
    || (&& |db'.hooks| == |db.hooks| + 1
        && var run := db'.hooks[|db.hooks|];
           run.request < |db.items| == |db'.items|
           && E.Open(db.items[run.request].status)
           && db'.items == db.items[run.request := db'.items[run.request]]
           && db'.items[run.request].status == StatusAfter(run.hook)
           && db'.items[run.request].kind == db.items[run.request].kind
           && db'.items[run.request].payload == db.items[run.request].payload
           && db'.items[run.request].requester == db.items[run.request].requester)
  }

  lemma EngineMovesOne(db: E.Db, op: E.Op)
    requires !op.Submit? || E.Refused(db, op).Some?
    ensures MovesOne(db, E.Next(db, op))
  {
  }

  lemma EngineSubmits(db: E.Db, op: E.Op)
    requires op.Submit? && E.Refused(db, op).None?
    ensures var db' := E.Next(db, op);
            && db'.hooks == db.hooks
            && |db'.items| == |db.items| + 1 && db'.items[..|db.items|] == db.items
            && db'.items[|db.items|].kind == op.kind && db'.items[|db.items|].payload == op.payload
            && db'.items[|db.items|].requester == op.actor
            && db'.items[|db.items|].status == E.Pending
  {
  }

  // Kinds and payloads never change, so neither does the request an item belongs to.
  ghost predicate SamePayloads(w: World, w': World) {
    && |w'.db.items| == |w.db.items|
    && forall q: nat {:trigger w'.db.items[q]} :: q < |w.db.items| ==>
         w'.db.items[q].kind == w.db.items[q].kind && w'.db.items[q].payload == w.db.items[q].payload
  }

  lemma HalfSubmittedStays(w: World, w': World, id: nat)
    requires SamePayloads(w, w') && id < |w.requests| && id < |w'.requests|
    requires w'.requests[id].item == w.requests[id].item
    ensures HalfSubmitted(w, id) <==> HalfSubmitted(w', id)
  {
    if HalfSubmitted(w, id) {
      var q: nat :| IsAccessItem(w, q) && RequestOf(w, q) == id;
      assert w'.db.items[q].kind == KIND;
      assert IsAccessItem(w', q) && RequestOf(w', q) == id;
    }
    if HalfSubmitted(w', id) {
      var q: nat :| IsAccessItem(w', q) && RequestOf(w', q) == id;
      assert w'.db.items[q].kind == KIND;
      assert IsAccessItem(w, q) && RequestOf(w, q) == id;
    }
  }

  lemma GrantsUntouched(w: World, w': World, id: nat)
    requires id < |w.requests| && id < |w'.requests| && GrantsMatch(w, id)
    requires w'.requests[id].status == w.requests[id].status
    requires w'.requests[id].requester == w.requests[id].requester
    requires w'.requests[id].durationHours == w.requests[id].durationHours
    requires w.grants <= w'.grants && forall g :: |w.grants| <= g < |w'.grants| ==> w'.grants[g].request != id
    ensures GrantsMatch(w', id)
  {
    if w'.requests[id].status == Approved {
      var g: nat :| g < |w.grants| && w.grants[g].request == id;
      assert w'.grants[g].request == id;
    }
  }

  // The row a hook does not write.
  lemma OtherRow(w: World, w': World, id: nat)
    requires CoupledInv(w) && SamePayloads(w, w') && id < |w.requests| && id < |w'.requests|
    requires w'.requests[id] == w.requests[id]
    requires w.grants <= w'.grants && forall g :: |w.grants| <= g < |w'.grants| ==> w'.grants[g].request != id
    requires w.requests[id].item.Some? && w.requests[id].item.value < |w.db.items| ==>
               w'.db.items[w.requests[id].item.value] == w.db.items[w.requests[id].item.value]
    ensures RowInv(w', id) && (HalfSubmitted(w', id) || GrantsMatch(w', id))
  {
    HalfSubmittedStays(w, w', id);
    assert RowInv(w, id);
    if !HalfSubmitted(w, id) {
      GrantsUntouched(w, w', id);
    }
  }

  // The row of the item that moved.
  lemma MovedRow(w: World, w': World, t: E.RequestId, run: E.HookRun, id: nat)
    requires CoupledInv(w) && IsAccessItem(w, t) && RequestOf(w, t) == id < |w.requests|
    requires E.Open(w.db.items[t].status) && SamePayloads(w, w') && run.request == t
    requires w'.db.items[t].status == StatusAfter(run.hook)
    requires w' == Hooked(w.(db := w'.db), run)
    ensures RowInv(w', id) && (HalfSubmitted(w', id) || GrantsMatch(w', id))
  {
    assert w.db.items[t].kind == KIND && w'.db.items[t].kind == KIND;
    assert ItemInv(w, t) && RowInv(w, id);
    HalfSubmittedStays(w, w', id);
    if w.requests[id].item.None? {
      assert HalfSubmitted(w, id);
    } else {
      assert w.requests[id].status == Pending;
      assert GrantsMatch(w, id);
      if run.hook.OnApprove? {
        assert w'.grants[|w.grants|].request == id;
      } else {
        assert w'.grants == w.grants;
      }
    }
  }

  lemma FollowKeepsRow(w: World, db: E.Db, id: nat)
    requires CoupledInv(w) && id < |w.requests| && MovesOne(w.db, db)
    ensures var w' := Follow(w, db);
            id < |w'.requests| && RowInv(w', id) && (HalfSubmitted(w', id) || GrantsMatch(w', id))
  {
    var w' := Follow(w, db);
    var row := w.requests[id];
    assert RowInv(w, id);
    if db.hooks == w.db.hooks {
      OtherRow(w, w', id);
    } else {
      var t := db.hooks[|w.db.hooks|].request;
      if IsAccessItem(w, t) && RequestOf(w, t) == id {
        MovedRow(w, w', t, db.hooks[|w.db.hooks|], id);
      } else {
        FollowLeavesRow(w, db, t, id);
        OtherRow(w, w', id);
      }
    }
  }

  lemma FollowLeavesRow(w: World, db: E.Db, t: nat, id: nat)
    requires CoupledInv(w) && id < |w.requests| && MovesOne(w.db, db) && db.hooks != w.db.hooks
    requires t == db.hooks[|w.db.hooks|].request && !(IsAccessItem(w, t) && RequestOf(w, t) == id)
    ensures var w' := Follow(w, db);
            && |w'.requests| == |w.requests| && w'.requests[id] == w.requests[id]
            && w.grants <= w'.grants && forall g :: |w.grants| <= g < |w'.grants| ==> w'.grants[g].request != id
  {
    if IsAccessItem(w, t) {
      assert w.db.items[t].kind == KIND;
      assert ItemInv(w, t);
    }
  }

  lemma FollowKeepsItem(w: World, db: E.Db, q: nat)
    requires CoupledInv(w) && MovesOne(w.db, db) && IsAccessItem(Follow(w, db), q)
    ensures ItemInv(Follow(w, db), q)
  {
    assert w.db.items[q].kind == KIND;
    assert ItemInv(w, q);
  }

  lemma FollowKeepsGrants(w: World, db: E.Db, g: nat)
    requires CoupledInv(w) && MovesOne(w.db, db) && g < |Follow(w, db).grants|
    ensures Follow(w, db).grants[g].request < |Follow(w, db).requests|
  {
    if g >= |w.grants| {
      var t := db.hooks[|w.db.hooks|].request;
      assert w.db.items[t].kind == KIND;
      assert ItemInv(w, t);
    } else {
      assert w.grants[g].request < |w.requests|;
    }
  }

  lemma FollowKeepsCoupled(w: World, db: E.Db)
    requires CoupledInv(w) && MovesOne(w.db, db)
    ensures CoupledInv(Follow(w, db))
  {
    var w' := Follow(w, db);
    forall q: nat | IsAccessItem(w', q) ensures ItemInv(w', q) {
      FollowKeepsItem(w, db, q);
    }
    forall id: nat | id < |w'.requests| ensures RowInv(w', id) && (HalfSubmitted(w', id) || GrantsMatch(w', id)) {
      FollowKeepsRow(w, db, id);
    }
    forall g: nat | g < |w'.grants| ensures w'.grants[g].request < |w'.requests| {
      FollowKeepsGrants(w, db, g);
    }
  }

  lemma DriveKeepsInv(w: World, op: E.Op)
    requires Inv(w) && (!op.Submit? || E.Refused(w.db, op).Some?)
    ensures Inv(Drive(w, op))
  {
    R.StepKeepsInv(w.db, op);
    EngineMovesOne(w.db, op);
    FollowKeepsCoupled(w, E.Next(w.db, op));
    DefinitionStays(w.db, op);
  }

  lemma DefinitionStays(db: E.Db, op: E.Op)
    requires KIND in db.defs
    ensures KIND in E.Next(db, op).defs && E.Next(db, op).defs[KIND] == db.defs[KIND]
  {
  }

  // An accepted submit of another kind adds an item no row is about.
  lemma ForeignSubmitKeepsInv(w: World, op: E.Op)
    requires Inv(w) && op.Submit? && op.kind != KIND && E.Refused(w.db, op).None?
    ensures Inv(Drive(w, op))
  {
    var w' := Drive(w, op);
    R.StepKeepsInv(w.db, op);
    EngineSubmits(w.db, op);
    forall q: nat | IsAccessItem(w', q)
      ensures IsAccessItem(w, q) && w'.db.items[q] == w.db.items[q] && ItemInv(w', q)
    {
      assert q < |w.db.items| ==> w'.db.items[..|w.db.items|][q] == w.db.items[q];
      assert w.db.items[q].kind == KIND;
      assert ItemInv(w, q);
    }
    forall id: nat | id < |w.requests| ensures RowInv(w', id) && (HalfSubmitted(w', id) || GrantsMatch(w', id)) {
      NewItemKeepsRow(w, w', id);
    }
  }

  lemma NewItemKeepsRow(w: World, w': World, id: nat)
    requires CoupledInv(w) && id < |w.requests| <= |w'.requests| && w'.requests[id] == w.requests[id]
    requires w'.grants == w.grants
    requires |w'.db.items| == |w.db.items| + 1 && w'.db.items[..|w.db.items|] == w.db.items
    ensures RowInv(w', id) && (HalfSubmitted(w', id) || GrantsMatch(w', id))
  {
    assert RowInv(w, id);
    forall q: nat | q < |w.db.items| ensures w'.db.items[q] == w.db.items[q] {
      assert w'.db.items[..|w.db.items|][q] == w.db.items[q];
    }
    if HalfSubmitted(w, id) {
      var q: nat :| IsAccessItem(w, q) && RequestOf(w, q) == id;
      assert IsAccessItem(w', q) && RequestOf(w', q) == id;
    } else {
      GrantsUntouched(w, w', id);
    }
  }

  lemma SubmitKeepsInv(w: World, requester: UserId, durationHours: int, now: int, reach: Reach)
    requires Inv(w)
    ensures Inv(SubmitNext(w, requester, durationHours, now, reach))
  {
    var op := SubmitCall(w, requester, durationHours, now);
    var w' := SubmitNext(w, requester, durationHours, now, reach);
    if reach != RowOnly {
      EngineSubmits(w.db, op);
      R.StepKeepsInv(w.db, op);
      forall q: nat | q < |w.db.items| ensures w'.db.items[q] == w.db.items[q] {
        assert w'.db.items[..|w.db.items|][q] == w.db.items[q];
      }
    }
    forall q: nat | IsAccessItem(w', q) ensures ItemInv(w', q) {
      if q < |w.db.items| {
        assert w.db.items[q].kind == KIND;
        assert ItemInv(w, q);
      }
    }
    forall id: nat | id < |w'.requests| ensures RowInv(w', id) && (HalfSubmitted(w', id) || GrantsMatch(w', id)) {
      if id == |w.requests| {
        NewRow(w, w', reach == EngineToo, id);
      } else if reach == RowOnly {
        OtherRow(w, w', id);
      } else {
        NewItemKeepsRow(w, w', id);
      }
    }
  }

  lemma NewRow(w: World, w': World, half: bool, id: nat)
    requires CoupledInv(w) && w'.grants == w.grants
    requires id == |w.requests| < |w'.requests| && w'.requests[id].status == Pending
    requires half ==> IsAccessItem(w', |w.db.items|) && RequestOf(w', |w.db.items|) == id && w'.requests[id].item.None?
    requires RowInv(w', id)
    ensures HalfSubmitted(w', id) || GrantsMatch(w', id)
  {
    forall g: nat | g < |w'.grants| ensures w'.grants[g].request != id {
      assert w.grants[g].request < |w.requests|;
    }
  }

  // A legacy row is decided without the engine.
  lemma LegacyKeepsInv(w: World, w': World, n: nat, status: Status, actor: UserId, now: int)
    requires Inv(w) && n < |w.requests| && w.requests[n].status == Pending && w.requests[n].item.None?
    requires status == Approved || status == Rejected
    requires w' == w.(requests := MarkReviewed(w.requests, n, status, Some(actor)),
                      grants := w.grants + if status == Approved
                                then [GrantFor(n, w.requests[n].requester, w.requests[n].durationHours, now)] else [])
    ensures Inv(w')
  {
    forall q: nat | IsAccessItem(w', q) ensures ItemInv(w', q) {
      assert w.db.items[q].kind == KIND;
      assert ItemInv(w, q);
    }
    forall id: nat | id < |w'.requests| ensures RowInv(w', id) && (HalfSubmitted(w', id) || GrantsMatch(w', id)) {
      if id != n {
        OtherRow(w, w', id);
      } else {
        HalfSubmittedStays(w, w', n);
        assert RowInv(w, n);
        if status == Approved {
          assert w'.grants[|w.grants|].request == n;
        }
      }
    }
  }

  lemma RevokeKeepsInv(w: World, n: nat, now: int)
    requires Inv(w) && n < |w.grants|
    ensures Inv(w.(grants := w.grants[n := w.grants[n].(revokedAt := Some(now))]))
  {
    var w' := w.(grants := w.grants[n := w.grants[n].(revokedAt := Some(now))]);
    forall q: nat | IsAccessItem(w', q) ensures ItemInv(w', q) {
      assert w.db.items[q].kind == KIND;
      assert ItemInv(w, q);
    }
    forall id: nat | id < |w'.requests| ensures RowInv(w', id) && (HalfSubmitted(w', id) || GrantsMatch(w', id)) {
      assert w.requests[id] == w'.requests[id];
      assert RowInv(w, id);
      HalfSubmittedStays(w, w', id);
      if GrantsMatch(w, id) && w.requests[id].status == Approved {
        var g: nat :| g < |w.grants| && w.grants[g].request == id;
        assert w'.grants[g].request == id;
      }
    }
  }

  lemma StepKeepsInv(w: World, op: Op)
    requires Inv(w) && Legal(w, op)
    ensures Inv(Next(w, op))
  {
    if op.Submit? || Refused(w, op).None? {
      AcceptedStepKeepsInv(w, op);
    }
  }

  lemma AcceptedStepKeepsInv(w: World, op: Op)
    requires Inv(w) && Legal(w, op) && (op.Submit? || Refused(w, op).None?)
    ensures Inv(Next(w, op))
  {
    match op
    case Submit(requester, hours, now, reach) => SubmitKeepsInv(w, requester, hours, now, reach);
    case Approve(id, note, actor, via, now, hookOk) =>
      if w.requests[id].item.Some? {
        DriveKeepsInv(w, ApproveCall(w, id, note, actor, via, now, hookOk));
      } else {
        LegacyKeepsInv(w, Next(w, op), id, Approved, actor, now);
      }
    case Reject(id, note, actor, via, now, hookOk) =>
      if w.requests[id].item.Some? {
        DriveKeepsInv(w, RejectCall(w, id, note, actor, via, now, hookOk));
      } else {
        LegacyKeepsInv(w, Next(w, op), id, Rejected, actor, now);
      }
    case RevokeGrant(g, now) => RevokeKeepsInv(w, g, now);
    case Inbox(call) =>
      if call.Submit? {
        ForeignSubmitKeepsInv(w, call);
      } else {
        DriveKeepsInv(w, call);
      }
  }

  lemma EmptyIsCoupled(db: E.Db)
    requires db.items == []
    ensures CoupledInv(World(db, [], []))
  {
    var w := World(db, [], []);
    assert forall q: nat :: !IsAccessItem(w, q);
  }

  lemma InitIsEmpty()
    ensures INIT.db == E.Next(E.EMPTY, E.Op.Register(KIND, DEF))
    ensures Inv(INIT)
  {
    assert E.Refused(E.EMPTY, E.Op.Register(KIND, DEF)).None?;
    EmptyIsCoupled(INIT.db);
  }

  lemma {:induction false} RunKeepsInv(ws: seq<World>, ops: seq<Op>, i: nat)
    requires IsRun(ws, ops) && i < |ws|
    ensures Inv(ws[i])
  {
    if i > 0 {
      RunKeepsInv(ws, ops, i - 1);
      var op := ops[i - 1];
      StepKeepsInv(ws[i - 1], op);
    } else {
      InitIsEmpty();
    }
  }

  // ---- Results ----

  lemma LinkedIsWhole(w: World, id: nat)
    requires Inv(w) && id < |w.requests| && w.requests[id].item.Some?
    ensures RowInv(w, id) && GrantsMatch(w, id)
    ensures R.RequestInv(w.db, w.requests[id].item.value) && E.LastStep(DEF) == 2
  {
    assert w.requests[id].requester == w.requests[id].requester;
    assert !HalfSubmitted(w, id);
  }

  /**
   * A fully submitted request agrees with its engine row whoever drove it: approved, rejected and
   * expired hold together, and the domain row is pending while the engine row is open or cancelled.
   */
  lemma DomainFollowsEngine(ws: seq<World>, ops: seq<Op>, i: nat, id: nat)
    requires IsRun(ws, ops) && i < |ws| && id < |ws[i].requests| && ws[i].requests[id].item.Some?
    ensures var w := ws[i]; var row := w.requests[id]; var q := row.item.value;
            && q < |w.db.items|
            && (row.status == Approved <==> w.db.items[q].status == E.Approved)
            && (row.status == Rejected <==> w.db.items[q].status == E.Rejected)
            && (row.status == Expired <==> w.db.items[q].status == E.Expired)
            && (row.status == Pending <==> w.db.items[q].status in {E.Pending, E.InReview, E.Cancelled})
            && w.db.items[q].payload == E.AccessPayload(id, row.requester, row.durationHours)
            && w.db.items[q].requester == row.requester
  {
    RunKeepsInv(ws, ops, i);
    var w := ws[i];
    assert w.requests[id].item.Some?;
    assert RowInv(w, id);
    var q := w.requests[id].item.value;
    assert w.db.items[q].kind == KIND;
    assert ItemInv(w, q);
  }

  /** The grants of one request, by position. */
  function GrantsOf(grants: seq<Grant>, id: nat): set<nat> {
    set g: nat | g < |grants| && grants[g].request == id
  }

  /** A fully submitted request is granted only after its manager step and then its security step. */
  lemma GrantNeedsBothSteps(ws: seq<World>, ops: seq<Op>, i: nat, g: nat)
    requires IsRun(ws, ops) && i < |ws| && g < |ws[i].grants|
    requires ws[i].grants[g].request < |ws[i].requests| && ws[i].requests[ws[i].grants[g].request].item.Some?
    ensures var w := ws[i]; var q := w.requests[w.grants[g].request].item.value;
            var log := E.ApprovalsOf(w.db.approvals, q);
            && |log| == 2 && log[0].approved && log[0].step == 1 && log[1].approved && log[1].step == 2
            && E.StepPermission(DEF, 1) == APPROVE && E.StepPermission(DEF, 2) == SECURITY_APPROVE
  {
    RunKeepsInv(ws, ops, i);
    var w := ws[i];
    var id := w.grants[g].request;
    var q := w.requests[id].item.value;
    LinkedIsWhole(w, id);
    assert w.db.items[q].status == E.Approved;
    assert E.FindStep(DEF.approvalSteps.value[1..], 2) == Some(E.StepDef(2, SECURITY_APPROVE));
  }

  lemma FinalStepGrants(w: World, id: nat, call: E.Op)
    requires Inv(w) && id < |w.requests| && w.requests[id].item.Some? && w.requests[id].status == Pending
    requires call.Approve? && call.id == w.requests[id].item.value && E.Refused(w.db, call).None?
    ensures call.id < |w.db.items|
    ensures w.db.items[call.id].currentStep == 2 ==>
              |Drive(w, call).grants| == |w.grants| + 1 && Drive(w, call).grants[|w.grants|].request == id
    ensures w.db.items[call.id].currentStep != 2 ==> Drive(w, call).grants == w.grants
  {
    LinkedIsWhole(w, id);
    assert w.db.items[call.id].kind == KIND;
    assert ItemInv(w, call.id);
    R.FinalIsLast(DEF, w.db.items[call.id].currentStep);
  }

  /**
   * service.approve() answers with a grant exactly when it completed the chain; after step 1 there is none to
   * return.
   */
  lemma ApproveAnswersGrantIffFinal(ws: seq<World>, ops: seq<Op>, i: nat, id: nat, note: Option<string>, actor: UserId,
                                    via: Option<E.Delegation>, now: int, hookOk: bool, answer: Option<Grant>)
    requires IsRun(ws, ops) && i < |ws| && id < |ws[i].requests| && ws[i].requests[id].item.Some?
    requires var op := Op.Approve(id, note, actor, via, now, hookOk);
             Refused(ws[i], op).None? && IsNewestGrant(Next(ws[i], op).grants, id, answer)
    ensures ws[i].requests[id].item.value < |ws[i].db.items|
    ensures answer.Some? <==> ws[i].db.items[ws[i].requests[id].item.value].currentStep == 2
  {
    RunKeepsInv(ws, ops, i);
    ApprovalAnswers(ws[i], id, Op.Approve(id, note, actor, via, now, hookOk), answer);
  }

  lemma ApprovalAnswers(w: World, id: nat, op: Op, answer: Option<Grant>)
    requires Inv(w) && id < |w.requests| && w.requests[id].item.Some?
    requires op.Approve? && op.id == id && Refused(w, op).None? && IsNewestGrant(Next(w, op).grants, id, answer)
    ensures w.requests[id].item.value < |w.db.items|
    ensures answer.Some? <==> w.db.items[w.requests[id].item.value].currentStep == 2
  {
    LinkedIsWhole(w, id);
    var call := ApproveCall(w, id, op.note, op.actor, op.via, op.now, op.hookOk);
    FinalStepGrants(w, id, call);
    var w' := Next(w, op);
    assert w' == Drive(w, call);
    if w.db.items[call.id].currentStep == 2 {
      assert w'.grants[|w.grants|] in w'.grants;
    }
  }
}
