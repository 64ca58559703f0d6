/**
 * How many grants a request gets. A submit that stops between the engine call and the backlink leaves a
 * row the service takes for a legacy one, so two routes may grant it; this is exactly when they do.
 */
module AccessGrants {
  import opened Common
  import opened AccessRequests
  import E = RequestEngine
  import R = RequestReplay

  /**
   * The row does not know its engine request, which is still open, and the service has granted it or still
   * may: the guard that sends a decision past the engine, and the one that would stop it, both pass.
   */
  ghost predicate Exposed(w: World, id: nat)
    requires id < |w.requests|
  {
    && w.requests[id].item.None? && (w.requests[id].status == Pending || w.requests[id].status == Approved)
    && exists q: nat :: IsOpenFor(w, q, id)
  }

  predicate IsOpenFor(w: World, q: nat, id: nat) {
    IsAccessItem(w, q) && RequestOf(w, q) == id && E.Open(w.db.items[q].status)
  }

  // ---- One engine request for each row ----

  ghost predicate OneItemEach(w: World) {
    forall p: nat, q: nat {:trigger w.db.items[p], w.db.items[q]} ::
      IsAccessItem(w, p) && IsAccessItem(w, q) && RequestOf(w, p) == RequestOf(w, q) ==> p == q
  }

  lemma SamePayloadsKeepOneItem(w: World, w': World)
    requires OneItemEach(w) && SamePayloads(w, w')
    ensures OneItemEach(w')
  {
    forall p: nat, q: nat | IsAccessItem(w', p) && IsAccessItem(w', q) && RequestOf(w', p) == RequestOf(w', q)
      ensures p == q
    {
      assert w.db.items[p].kind == KIND && w.db.items[q].kind == KIND;
    }
  }

  lemma NewItemKeepsOneItem(w: World, w': World)
    requires Inv(w) && OneItemEach(w)
    requires |w'.db.items| == |w.db.items| + 1 && w'.db.items[..|w.db.items|] == w.db.items
    requires IsAccessItem(w', |w.db.items|) ==> RequestOf(w', |w.db.items|) == |w.requests|
    ensures OneItemEach(w')
  {
    forall q: nat | q < |w.db.items| && IsAccessItem(w', q)
      ensures w'.db.items[q] == w.db.items[q] && 0 <= RequestOf(w', q) < |w.requests|
    {
      assert w'.db.items[..|w.db.items|][q] == w.db.items[q];
      assert w.db.items[q].kind == KIND;
      assert ItemInv(w, q);
    }
    forall p: nat, q: nat | IsAccessItem(w', p) && IsAccessItem(w', q) && RequestOf(w', p) == RequestOf(w', q)
      ensures p == q
    {
      if p < |w.db.items| && q < |w.db.items| {
        assert w.db.items[p].kind == KIND && w.db.items[q].kind == KIND;
      }
    }
  }

  // Every operation keeps old payloads, or adds one item.
  lemma DriveKeepsPayloads(w: World, op: E.Op)
    requires !op.Submit? || E.Refused(w.db, op).Some?
    ensures SamePayloads(w, Drive(w, op))
  {
    EngineMovesOne(w.db, op);
    FollowKeepsPayloads(w, E.Next(w.db, op));
  }

  lemma FollowKeepsPayloads(w: World, db: E.Db)
    requires MovesOne(w.db, db)
    ensures SamePayloads(w, Follow(w, db))
  {
  }

  lemma StepKeepsOneItem(w: World, op: Op)
    requires Inv(w) && Legal(w, op) && OneItemEach(w)
    ensures OneItemEach(Next(w, op))
  {
    var w' := Next(w, op);
    if op.Submit? {
      if op.reach == RowOnly {
        SamePayloadsKeepOneItem(w, w');
      } else {
        EngineSubmits(w.db, SubmitCall(w, op.requester, op.durationHours, op.now));
        NewItemKeepsOneItem(w, w');
      }
    } else if op.Inbox? && op.op.Submit? && E.Refused(w.db, op.op).None? {
      EngineSubmits(w.db, op.op);
      NewItemKeepsOneItem(w, w');
    } else {
      OtherStepKeepsPayloads(w, op);
      SamePayloadsKeepOneItem(w, w');
    }
  }

  lemma OtherStepKeepsPayloads(w: World, op: Op)
    requires !op.Submit? && !(op.Inbox? && op.op.Submit? && E.Refused(w.db, op.op).None?)
    ensures SamePayloads(w, Next(w, op))
  {
    if Refused(w, op).None? {
      match op
      case Approve(id, note, actor, via, now, hookOk) =>
        if w.requests[id].item.Some? {
          DriveKeepsPayloads(w, ApproveCall(w, id, note, actor, via, now, hookOk));
        }
      case Reject(id, note, actor, via, now, hookOk) =>
        if w.requests[id].item.Some? {
          DriveKeepsPayloads(w, RejectCall(w, id, note, actor, via, now, hookOk));
        }
      case RevokeGrant(_, _) =>
      case Inbox(call) => DriveKeepsPayloads(w, call);
    }
  }

  lemma {:induction false} RunKeepsOneItem(ws: seq<World>, ops: seq<Op>, i: nat)
    requires IsRun(ws, ops) && i < |ws|
    ensures OneItemEach(ws[i])
  {
    if i > 0 {
      RunKeepsOneItem(ws, ops, i - 1);
      RunKeepsInv(ws, ops, i - 1);
      var op := ops[i - 1];
      StepKeepsOneItem(ws[i - 1], op);
    } else {
      InitIsEmpty();
      assert forall q: nat :: !IsAccessItem(INIT, q);
    }
  }

  // ---- Rows that are not exposed keep their grants ----

  // A row whose engine request, if any, is settled or cannot add to what the service did.
  ghost predicate Sound(w: World, id: nat) {
    id < |w.requests| && GrantsMatch(w, id) && !Exposed(w, id)
  }

  // Nothing about the row or its items changes.
  lemma UntouchedStaysSound(w: World, w': World, id: nat)
    requires Sound(w, id) && id < |w'.requests| && w'.requests[id] == w.requests[id]
    requires w.grants <= w'.grants && forall g :: |w.grants| <= g < |w'.grants| ==> w'.grants[g].request != id
    requires forall q: nat {:trigger IsOpenFor(w', q, id)} :: IsOpenFor(w', q, id) ==> IsOpenFor(w, q, id)
    ensures Sound(w', id)
  {
    GrantsUntouched(w, w', id);
  }

  // Items appended for other rows.
  lemma SubmitKeepsSound(w: World, w': World, id: nat)
    requires Inv(w) && Sound(w, id) && w'.grants == w.grants
    requires id < |w'.requests| && w'.requests[id] == w.requests[id]
    requires |w.db.items| <= |w'.db.items| <= |w.db.items| + 1 && w'.db.items[..|w.db.items|] == w.db.items
    requires IsAccessItem(w', |w.db.items|) ==> RequestOf(w', |w.db.items|) == |w.requests|
    ensures Sound(w', id)
  {
    forall q: nat | IsOpenFor(w', q, id) ensures IsOpenFor(w, q, id) {
      if q < |w.db.items| {
        assert w'.db.items[..|w.db.items|][q] == w.db.items[q];
      }
    }
    UntouchedStaysSound(w, w', id);
  }

  // The engine moved item `t`, which is not the row's.
  lemma OtherItemKeepsSound(w: World, db: E.Db, t: nat, id: nat)
    requires Inv(w) && Sound(w, id) && MovesOne(w.db, db) && db.hooks != w.db.hooks
    requires t == db.hooks[|w.db.hooks|].request && !(IsAccessItem(w, t) && RequestOf(w, t) == id)
    ensures Sound(Follow(w, db), id)
  {
    var w' := Follow(w, db);
    FollowLeavesRow(w, db, t, id);
    forall q: nat | IsOpenFor(w', q, id) ensures IsOpenFor(w, q, id) {
      assert q != t ==> w'.db.items[q] == w.db.items[q];
      assert w'.db.items[q].kind == w.db.items[q].kind && w'.db.items[q].payload == w.db.items[q].payload;
    }
    UntouchedStaysSound(w, w', id);
  }

  // The engine moved the row's own item, so the item was open and the row is linked or already refused.
  lemma OwnItemKeepsSound(w: World, db: E.Db, t: nat, id: nat)
    requires Inv(w) && Sound(w, id) && OneItemEach(w) && MovesOne(w.db, db) && db.hooks != w.db.hooks
    requires t == db.hooks[|w.db.hooks|].request && IsAccessItem(w, t) && RequestOf(w, t) == id
    ensures Sound(Follow(w, db), id)
  {
    var w' := Follow(w, db);
    var run := db.hooks[|w.db.hooks|];
    assert w.db.items[t].kind == KIND && w'.db.items[t].kind == KIND;
    assert ItemInv(w, t) && IsOpenFor(w, t, id);
    assert w.requests[id].requester == w.requests[id].requester;
    assert RowInv(w, id);
    assert w.requests[id].status != Approved;
    OnlyItem(w, w', t, id);
    if run.hook.OnApprove? {
      assert w'.grants[|w.grants|].request == id;
    } else {
      assert w'.grants == w.grants;
    }
  }

  lemma OnlyItem(w: World, w': World, t: nat, id: nat)
    requires OneItemEach(w) && SamePayloads(w, w') && IsAccessItem(w, t) && RequestOf(w, t) == id
    ensures forall q: nat {:trigger IsOpenFor(w', q, id)} :: IsOpenFor(w', q, id) ==> q == t
  {
    forall q: nat | IsOpenFor(w', q, id) ensures q == t {
      assert w'.db.items[q].kind == w.db.items[q].kind;
      assert w.db.items[q].kind == KIND && w.db.items[t].kind == KIND;
    }
  }

  lemma DriveKeepsSound(w: World, op: E.Op, id: nat)
    requires Inv(w) && OneItemEach(w) && Sound(w, id) && (!op.Submit? || E.Refused(w.db, op).Some?)
    ensures Sound(Drive(w, op), id)
  {
    var db := E.Next(w.db, op);
    EngineMovesOne(w.db, op);
    if db.hooks == w.db.hooks {
      forall q: nat | IsOpenFor(Drive(w, op), q, id) ensures IsOpenFor(w, q, id) {
      }
      UntouchedStaysSound(w, Drive(w, op), id);
    } else {
      var t := db.hooks[|w.db.hooks|].request;
      if IsAccessItem(w, t) && RequestOf(w, t) == id {
        OwnItemKeepsSound(w, db, t, id);
      } else {
        OtherItemKeepsSound(w, db, t, id);
      }
    }
  }

  // The service decides a row without the engine.
  lemma LegacyKeepsSound(w: World, w': World, n: nat, status: Status, actor: UserId, now: int, id: nat)
    requires Inv(w) && Sound(w, id) && n < |w.requests| && w.requests[n].status == Pending && w.requests[n].item.None?
    requires status == Approved || status == Rejected
    requires w' == w.(requests := MarkReviewed(w.requests, n, status, Some(actor)),
                      grants := w.grants + if status == Approved
                                then [GrantFor(n, w.requests[n].requester, w.requests[n].durationHours, now)] else [])
    ensures Sound(w', id)
  {
    forall q: nat | IsOpenFor(w', q, id) ensures IsOpenFor(w, q, id) {
    }
    if n != id {
      UntouchedStaysSound(w, w', id);
    } else if status == Approved {
      assert w'.grants[|w.grants|].request == id;
    }
  }

  lemma RevokeKeepsSound(w: World, n: nat, now: int, id: nat)
    requires Sound(w, id) && n < |w.grants|
    ensures Sound(w.(grants := w.grants[n := w.grants[n].(revokedAt := Some(now))]), id)
  {
    var w' := w.(grants := w.grants[n := w.grants[n].(revokedAt := Some(now))]);
    forall q: nat | IsOpenFor(w', q, id) ensures IsOpenFor(w, q, id) {
    }
    if w.requests[id].status == Approved {
      var g: nat :| g < |w.grants| && w.grants[g].request == id;
      assert w'.grants[g].request == id;
    }
  }

  lemma StepKeepsSound(w: World, op: Op, id: nat)
    requires Inv(w) && OneItemEach(w) && Legal(w, op) && Sound(w, id)
    ensures Sound(Next(w, op), id)
  {
    if op.Submit? {
      if op.reach != RowOnly {
        EngineSubmits(w.db, SubmitCall(w, op.requester, op.durationHours, op.now));
      }
      SubmitKeepsSound(w, Next(w, op), id);
    } else if Refused(w, op).None? {
      AcceptedKeepsSound(w, op, id);
    }
  }

  lemma AcceptedKeepsSound(w: World, op: Op, id: nat)
    requires Inv(w) && OneItemEach(w) && Legal(w, op) && Sound(w, id) && !op.Submit? && Refused(w, op).None?
    ensures Sound(Next(w, op), id)
  {
    match op
    case Approve(n, note, actor, via, now, hookOk) =>
      if w.requests[n].item.Some? {
        DriveKeepsSound(w, ApproveCall(w, n, note, actor, via, now, hookOk), id);
      } else {
        LegacyKeepsSound(w, Next(w, op), n, Approved, actor, now, id);
      }
    case Reject(n, note, actor, via, now, hookOk) =>
      if w.requests[n].item.Some? {
        DriveKeepsSound(w, RejectCall(w, n, note, actor, via, now, hookOk), id);
      } else {
        LegacyKeepsSound(w, Next(w, op), n, Rejected, actor, now, id);
      }
    case RevokeGrant(g, now) => RevokeKeepsSound(w, g, now, id);
    case Inbox(call) =>
      if call.Submit? {
        EngineSubmits(w.db, call);
        SubmitKeepsSound(w, Next(w, op), id);
      } else {
        DriveKeepsSound(w, call, id);
      }
  }

  lemma RunStep(ws: seq<World>, ops: seq<Op>, i: nat)
    requires IsRun(ws, ops) && i < |ops|
    ensures Legal(ws[i], ops[i]) && ws[i + 1] == Next(ws[i], ops[i])
  {
  }

  lemma RunKeepsSound(ws: seq<World>, ops: seq<Op>, i: nat, id: nat)
    requires IsRun(ws, ops) && i < |ops| && Sound(ws[i], id)
    ensures Sound(ws[i + 1], id)
  {
    RunKeepsInv(ws, ops, i);
    RunKeepsOneItem(ws, ops, i);
    RunStep(ws, ops, i);
    StepKeepsSound(ws[i], ops[i], id);
  }

  lemma {:induction false} SoundLater(ws: seq<World>, ops: seq<Op>, k: nat, i: nat, id: nat)
    requires IsRun(ws, ops) && k <= i < |ws| && Sound(ws[k], id)
    ensures Sound(ws[i], id)
  {
    if k < i {
      SoundLater(ws, ops, k, i - 1, id);
      RunKeepsSound(ws, ops, i - 1, id);
    }
  }

  // ---- Rows that are exposed can be granted twice ----

  // An engine approval by `user`, with nobody delegating to them.
  function Decide(q: nat, user: UserId): Op {
    Inbox(E.Op.Approve(q, None, user, None, None, 0, true))
  }

  function Holds(user: UserId): map<UserId, set<E.Permission>> {
    map[user := {APPROVE, SECURITY_APPROVE}]
  }

  /** `user` may take both steps of the open engine request `q` of an unlinked, granted row. */
  ghost predicate AboutToGrant(w: World, q: nat, id: nat, user: UserId) {
    && Inv(w) && id < |w.requests| && IsOpenFor(w, q, id) && w.db.items[q].requester != user
    && w.db.holds == Holds(user) && w.db.delegations == []
    && exists g: nat :: g < |w.grants| && w.grants[g].request == id
  }

  ghost predicate TwoGrants(w: World, id: nat) {
    exists g: nat, h: nat :: g < h < |w.grants| && w.grants[g].request == id && w.grants[h].request == id
  }

  lemma ChainOfTwo(step: int)
    requires step == 1 || step == 2
    ensures E.IsFinalStep(DEF, step) <==> step == 2
    ensures E.StepPermission(DEF, step) in {APPROVE, SECURITY_APPROVE}
  {
    var steps := DEF.approvalSteps.value;
    assert E.MaxStep(steps) == 2;
    assert E.FindStep(steps, 1) == Some(steps[0]);
    assert E.FindStep(steps[1..], 2) == Some(steps[1]);
  }

  lemma DecideGrants(w: World, q: nat, id: nat, user: UserId)
    requires AboutToGrant(w, q, id, user)
    ensures Legal(w, Decide(q, user))
    ensures var w' := Next(w, Decide(q, user));
            if w.db.items[q].currentStep == 2 then id < |w'.requests| && TwoGrants(w', id)
            else AboutToGrant(w', q, id, user) && w'.db.items[q].currentStep == 2
  {
    var op := Decide(q, user).op;
    assert w.db.items[q].kind == KIND;
    assert R.RequestInv(w.db, q);
    assert E.LastStep(DEF) == 2;
    ChainOfTwo(w.db.items[q].currentStep);
    assert E.Refused(w.db, op).None?;
    assert ItemInv(w, q);
    StepKeepsInv(w, Decide(q, user));
    var g: nat :| g < |w.grants| && w.grants[g].request == id;
    if w.db.items[q].currentStep == 2 {
      var w' := Next(w, Decide(q, user));
      var p := w.db.items[q].payload;
      assert w'.grants == w.grants + [GrantFor(id, p.requesterId, p.durationHours, 0)];
      assert w'.grants[|w.grants|].request == id && w'.grants[g].request == id;
    }
  }

  lemma DecideToTheEnd(ws: seq<World>, ops: seq<Op>, q: nat, id: nat, user: UserId)
    returns (ws': seq<World>, ops': seq<Op>)
    requires IsRun(ws, ops) && AboutToGrant(ws[|ops|], q, id, user)
    ensures IsRun(ws', ops') && ws <= ws' && ops <= ops'
    ensures id < |ws'[|ops'|].requests| && TwoGrants(ws'[|ops'|], id)
    decreases if ws[|ops|].db.items[q].currentStep == 2 then 0 else 1
  {
    var w := ws[|ops|];
    DecideGrants(w, q, id, user);
    ws', ops' := Extend(ws, ops, Decide(q, user));
    if w.db.items[q].currentStep != 2 {
      ws', ops' := DecideToTheEnd(ws', ops', q, id, user);
    }
  }

  lemma Extend(ws: seq<World>, ops: seq<Op>, op: Op) returns (ws': seq<World>, ops': seq<Op>)
    requires IsRun(ws, ops) && Legal(ws[|ops|], op)
    ensures ws' == ws + [Next(ws[|ops|], op)] && ops' == ops + [op]
    ensures IsRun(ws', ops')
  {
    ws', ops' := ws + [Next(ws[|ops|], op)], ops + [op];
  }

  // An administrator can let anyone take both steps.
  lemma Empower(ws: seq<World>, ops: seq<Op>, user: UserId) returns (ws': seq<World>, ops': seq<Op>)
    requires IsRun(ws, ops)
    ensures IsRun(ws', ops') && ws <= ws' && ops <= ops'
    ensures ws'[|ops'|] == ws[|ops|].(db := ws[|ops|].db.(holds := Holds(user), delegations := []))
  {
    ws', ops' := Extend(ws, ops, Inbox(E.Op.SetPermissions(Holds(user))));
    ws', ops' := Extend(ws', ops', Inbox(E.Op.SetDelegations([])));
  }

  // The service's decision on a row it takes for a legacy one.
  lemma LegacyApproval(w: World, id: nat, user: UserId)
    requires id < |w.requests| && w.requests[id].status == Pending && w.requests[id].item.None?
    requires E.Check(w.db.holds, user, SECURITY_APPROVE)
    ensures var op := Op.Approve(id, None, user, None, 0, true);
            && Legal(w, op) && Refused(w, op).None?
            && Next(w, op).db == w.db && |Next(w, op).requests| == |w.requests|
            && |Next(w, op).grants| == |w.grants| + 1 && Next(w, op).grants[|w.grants|].request == id
  {
  }

  // From an exposed row the service grants, if it has not yet, and then the inbox does.
  lemma ExposedBreaks(ws: seq<World>, ops: seq<Op>, id: nat) returns (ws': seq<World>, ops': seq<Op>)
    requires IsRun(ws, ops) && id < |ws[|ops|].requests| && GrantsMatch(ws[|ops|], id) && Exposed(ws[|ops|], id)
    ensures IsRun(ws', ops') && ws <= ws' && ops <= ops'
    ensures id < |ws'[|ops'|].requests| && TwoGrants(ws'[|ops'|], id)
  {
    var w := ws[|ops|];
    var q: nat :| IsOpenFor(w, q, id);
    var user := w.db.items[q].requester + "x";
    ws', ops' := Empower(ws, ops, user);
    var ready := ws'[|ops'|];
    assert IsOpenFor(ready, q, id);
    if w.requests[id].status == Pending {
      LegacyApproval(ready, id, user);
      ws', ops' := Extend(ws', ops', Op.Approve(id, None, user, None, 0, true));
      assert IsOpenFor(ws'[|ops'|], q, id);
    }
    RunKeepsInv(ws', ops', |ops'|);
    ws', ops' := DecideToTheEnd(ws', ops', q, id, user);
  }

  // ---- Results ----

  /** However the run goes on, the request keeps one grant of the requested length if approved, and none otherwise. */
  ghost predicate GrantsStayMatched(ws: seq<World>, ops: seq<Op>, id: nat) {
    forall ws': seq<World>, ops': seq<Op> {:trigger IsRun(ws', ops')} ::
      IsRun(ws', ops') && ws <= ws' && ops <= ops' ==>
        id < |ws'[|ops'|].requests| && GrantsMatch(ws'[|ops'|], id)
  }

  /**
   * From any point of any run at which a request's grants are right, they stay right whatever follows if
   * and only if the request is not exposed.
   */
  lemma GrantsStayMatchedIff(ws: seq<World>, ops: seq<Op>, id: nat)
    requires IsRun(ws, ops) && id < |ws[|ops|].requests| && GrantsMatch(ws[|ops|], id)
    ensures GrantsStayMatched(ws, ops, id) <==> !Exposed(ws[|ops|], id)
  {
    if Exposed(ws[|ops|], id) {
      var ws', ops' := ExposedBreaks(ws, ops, id);
      assert IsRun(ws', ops');
    } else {
      forall ws': seq<World>, ops': seq<Op> | IsRun(ws', ops') && ws <= ws' && ops <= ops'
        ensures id < |ws'[|ops'|].requests| && GrantsMatch(ws'[|ops'|], id)
      {
        assert ws'[|ops|] == ws[|ops|];
        SoundLater(ws', ops', |ops|, |ops'|, id);
      }
    }
  }

  /** A row that knows its engine request, and a legacy row that never had one, is right and not exposed. */
  lemma WholeRowsAreSound(ws: seq<World>, ops: seq<Op>, i: nat, id: nat)
    requires IsRun(ws, ops) && i < |ws| && id < |ws[i].requests| && !HalfSubmitted(ws[i], id)
    ensures GrantsMatch(ws[i], id) && !Exposed(ws[i], id)
  {
    RunKeepsInv(ws, ops, i);
    assert ws[i].requests[id].requester == ws[i].requests[id].requester;
  }

  /**
   * One grant of exactly the requested length if approved, none otherwise, from any point at which that
   * held and the request was not exposed, whichever of service, inbox and cron drives it.
   */
  lemma OneGrantIffApproved(ws: seq<World>, ops: seq<Op>, k: nat, i: nat, id: nat)
    requires IsRun(ws, ops) && k <= i < |ws| && id < |ws[k].requests|
    requires GrantsMatch(ws[k], id) && !Exposed(ws[k], id)
    ensures id < |ws[i].requests|
    ensures |GrantsOf(ws[i].grants, id)| == if ws[i].requests[id].status == Approved then 1 else 0
    ensures forall g :: g in GrantsOf(ws[i].grants, id) ==>
              && ws[i].grants[g].grantee == ws[i].requests[id].requester
              && ws[i].grants[g].expiresAt - ws[i].grants[g].grantedAt
                 == ws[i].requests[id].durationHours * E.MS_PER_HOUR
  {
    SoundLater(ws, ops, k, i, id);
    var w := ws[i];
    if w.requests[id].status == Approved {
      var g: nat :| g < |w.grants| && w.grants[g].request == id;
      assert GrantsOf(w.grants, id) == {g};
    } else {
      assert GrantsOf(w.grants, id) == {};
    }
  }

  // ---- A concrete run ----

  lemma HalfSubmit(w: World, employee: UserId, user: UserId)
    requires w == World(E.EMPTY.(defs := map[KIND := DEF], holds := Holds(user)), [], [])
    ensures var w' := Next(w, Op.Submit(employee, 8, 1, EngineToo));
            && IsOpenFor(w', 0, 0) && w'.db.items[0].requester == employee
            && w'.db.holds == w.db.holds && w'.db.delegations == []
            && w'.requests == [Request(employee, 8, Pending, None, None)] && w'.grants == []
  {
    EngineSubmits(w.db, SubmitCall(w, employee, 8, 1));
  }

  /**
   * A submit that dies before the backlink: the security officer who made it approves it alone on the
   * service's route, without the chain, and once an administrator and another officer have acted in the
   * inbox it is granted again.
   */
  lemma HalfSubmittedGrantsTwice(officer: UserId) returns (ws: seq<World>, ops: seq<Op>)
    ensures IsRun(ws, ops) && |ops| >= 3
    ensures ops[1] == Op.Submit(officer, 8, 1, EngineToo)
    ensures ops[2] == Op.Approve(0, None, officer, None, 0, true) && Refused(ws[2], ops[2]).None?
    ensures TwoGrants(ws[|ops|], 0)
  {
    ws, ops := HalfSubmittedRun(officer);
    LegacyApproval(ws[2], 0, officer);
    var op := Op.Approve(0, None, officer, None, 0, true);
    var w := Next(ws[2], op);
    assert IsOpenFor(w, 0, 0) && w.grants[|ws[2].grants|].request == 0;
    ws, ops := Extend(ws, ops, op);
    ws, ops := GrantAgain(ws, ops, officer);
  }

  lemma EmpoweredRun(officer: UserId) returns (ws: seq<World>, ops: seq<Op>)
    ensures IsRun(ws, ops) && |ops| == 1
    ensures ws[1] == World(E.EMPTY.(defs := map[KIND := DEF], holds := Holds(officer)), [], [])
  {
    ws, ops := Extend([INIT], [], Inbox(E.Op.SetPermissions(Holds(officer))));
  }

  lemma HalfSubmittedRun(officer: UserId) returns (ws: seq<World>, ops: seq<Op>)
    ensures IsRun(ws, ops) && |ops| == 2 && ops[1] == Op.Submit(officer, 8, 1, EngineToo)
    ensures IsOpenFor(ws[2], 0, 0) && ws[2].db.items[0].requester == officer && ws[2].db.holds == Holds(officer)
    ensures ws[2].requests == [Request(officer, 8, Pending, None, None)]
  {
    ws, ops := EmpoweredRun(officer);
    HalfSubmit(ws[1], officer, officer);
    ws, ops := Extend(ws, ops, Op.Submit(officer, 8, 1, EngineToo));
  }

  lemma GrantAgain(ws: seq<World>, ops: seq<Op>, officer: UserId) returns (ws': seq<World>, ops': seq<Op>)
    requires IsRun(ws, ops) && |ws[|ops|].requests| > 0 && IsOpenFor(ws[|ops|], 0, 0)
    requires ws[|ops|].db.items[0].requester == officer
    requires exists g: nat :: g < |ws[|ops|].grants| && ws[|ops|].grants[g].request == 0
    ensures IsRun(ws', ops') && ws <= ws' && ops <= ops'
    ensures TwoGrants(ws'[|ops'|], 0)
  {
    var w := ws[|ops|];
    ws', ops' := Empower(ws, ops, officer + "x");
    assert IsOpenFor(ws'[|ops'|], 0, 0);
    RunKeepsInv(ws', ops', |ops'|);
    ws', ops' := DecideToTheEnd(ws', ops', 0, 0, officer + "x");
  }

  // An employee's complete request, its first step open to an officer.
  predicate FirstStepOpen(w: World, employee: UserId, officer: UserId) {
    && IsOpenFor(w, 0, 0) && w.db.items[0].requester == employee && w.db.items[0].currentStep == 1
    && w.db.holds == Holds(officer) && w.db.delegations == [] && w.db.defs == map[KIND := DEF]
    && w.requests == [Request(employee, 8, Pending, None, Some(0))] && w.grants == []
  }

  lemma FullSubmit(w: World, employee: UserId, officer: UserId)
    requires w == World(E.EMPTY.(defs := map[KIND := DEF], holds := Holds(officer)), [], [])
    ensures FirstStepOpen(Next(w, Op.Submit(employee, 8, 1, Complete)), employee, officer)
  {
    EngineSubmits(w.db, SubmitCall(w, employee, 8, 1));
  }

  lemma SubmittedRun(employee: UserId, officer: UserId) returns (ws: seq<World>, ops: seq<Op>)
    ensures IsRun(ws, ops) && |ops| == 2 && ops[1] == Op.Submit(employee, 8, 1, Complete)
    ensures FirstStepOpen(ws[2], employee, officer)
  {
    ws, ops := EmpoweredRun(officer);
    FullSubmit(ws[1], employee, officer);
    ws, ops := Extend(ws, ops, Op.Submit(employee, 8, 1, Complete));
  }

  lemma FirstApproval(w: World, employee: UserId, officer: UserId)
    requires employee != officer && FirstStepOpen(w, employee, officer)
    ensures var op := Op.Approve(0, None, officer, None, 2, true);
            Legal(w, op) && Refused(w, op).None? && Next(w, op).grants == []
  {
    ChainOfTwo(1);
    assert E.Refused(w.db, ApproveCall(w, 0, None, officer, None, 2, true)).None?;
  }

  /** A concrete run: the service accepts the first approval of a request, and has no grant to answer with. */
  lemma FirstApprovalAnswersNothing(employee: UserId, officer: UserId) returns (ws: seq<World>, ops: seq<Op>)
    requires employee != officer
    ensures IsRun(ws, ops) && |ops| == 3 && ops[1] == Op.Submit(employee, 8, 1, Complete)
    ensures ops[2] == Op.Approve(0, None, officer, None, 2, true) && Refused(ws[2], ops[2]).None?
    ensures IsNewestGrant(ws[3].grants, 0, None)
  {
    ws, ops := SubmittedRun(employee, officer);
    FirstApproval(ws[2], employee, officer);
    ws, ops := Extend(ws, ops, Op.Approve(0, None, officer, None, 2, true));
  }
}
