/**
 * What every serial run of the request engine keeps: the approvals log and the event stream of each
 * request both determine its row.
 */
module RequestReplay {
  import opened Common
  import opened RequestEngine

  // ---- The log ----

  // Steps of the chain that have been approved.
  function ApprovedSteps(item: Item): int {
    if item.status == Approved then item.currentStep else item.currentStep - 1
  }

  /** The log of a request, oldest row first, is exactly what its row says. */
  ghost predicate LogMatches(def: TypeDef, item: Item, log: seq<Approval>) {
    var k := ApprovedSteps(item);
    && 1 <= item.currentStep <= LastStep(def)
    && |log| == k + (if item.status == Rejected then 1 else 0)
    && (forall i :: 0 <= i < k ==> log[i].approved && log[i].step == i + 1)
    && (item.status == Rejected ==> !log[k].approved && log[k].step == item.currentStep)
    && (item.status == Approved ==> k == LastStep(def))
    && (Open(item.status) ==> item.status == if k == 0 then Pending else InReview)
    && (item.resolvedAt.Some? <==> !Open(item.status))
    && item.totalSteps == TotalSteps(def)
  }

  // ---- The event stream ----

  datatype Progress = Progress(status: Status, currentStep: int)

  /** A consumer's view of a request, rebuilt from its events alone. */
  function FoldEvents(events: seq<Event>): Progress {
    if events == [] then Progress(Pending, 1)
    else
      var before := FoldEvents(events[..|events| - 1]);
      var last := events[|events| - 1];
      match last.kind
      case SubmittedEvent => Progress(Pending, 1)
      case StepApprovedEvent => Progress(InReview, last.step + 1)
      case ApprovedEvent => Progress(Approved, last.step)
      case RejectedEvent => before.(status := Rejected)
      case CancelledEvent => before.(status := Cancelled)
      case ExpiredEvent => before.(status := Expired)
  }

  function TerminalEvent(status: Status): EventKind
    requires !Open(status)
  {
    match status
    case Approved => ApprovedEvent
    case Rejected => RejectedEvent
    case Cancelled => CancelledEvent
    case Expired => ExpiredEvent
  }

  /** Submitted, one step_approved per intermediate approval in order, then at most one terminal event. */
  ghost predicate StreamShape(item: Item, events: seq<Event>) {
    && item.currentStep >= 1
    && |events| == item.currentStep + (if Open(item.status) then 0 else 1)
    && events[0].kind == SubmittedEvent
    && (forall i :: 1 <= i < item.currentStep ==> events[i].kind == StepApprovedEvent && events[i].step == i)
    && (!Open(item.status) ==> events[item.currentStep].kind == TerminalEvent(item.status))
  }

  ghost predicate StreamMatches(item: Item, events: seq<Event>) {
    StreamShape(item, events) && FoldEvents(events) == Progress(item.status, item.currentStep)
  }

  // ---- The invariant ----

  ghost predicate RequestInv(db: Db, id: RequestId)
    requires id < |db.items|
  {
    var item := db.items[id];
    && item.kind in db.defs
    && LogMatches(db.defs[item.kind], item, ApprovalsOf(db.approvals, id))
    && StreamMatches(item, EventsOf(db.outbox, id))
  }

  ghost predicate Inv(db: Db) {
    (forall id :: 0 <= id < |db.items| ==> RequestInv(db, id)) && RowsNamed(db)
  }

  // Log and outbox speak of requests that exist.
  ghost predicate RowsNamed(db: Db) {
    && (forall i :: 0 <= i < |db.approvals| ==> db.approvals[i].request < |db.items|)
    && (forall i :: 0 <= i < |db.outbox| ==> db.outbox[i].request < |db.items|)
  }

  lemma FinalIsLast(def: TypeDef, step: int)
    requires step >= 1
    ensures IsFinalStep(def, step) <==> step >= LastStep(def)
  {
  }

  lemma FoldAppend(events: seq<Event>, e: Event)
    ensures FoldEvents(events + [e]) ==
              match e.kind
              case SubmittedEvent => Progress(Pending, 1)
              case StepApprovedEvent => Progress(InReview, e.step + 1)
              case ApprovedEvent => Progress(Approved, e.step)
              case RejectedEvent => FoldEvents(events).(status := Rejected)
              case CancelledEvent => FoldEvents(events).(status := Cancelled)
              case ExpiredEvent => FoldEvents(events).(status := Expired)
  {
    assert (events + [e])[..|events|] == events;
  }

  lemma ApproveMatches(def: TypeDef, item: Item, log: seq<Approval>, events: seq<Event>,
                       item': Item, a: Approval, e: Event)
    requires LogMatches(def, item, log) && StreamMatches(item, events) && Open(item.status)
    requires var final := IsFinalStep(def, item.currentStep);
             && item'.status == (if final then Approved else InReview)
             && item'.currentStep == (if final then item.currentStep else item.currentStep + 1)
             && (item'.resolvedAt.Some? <==> final) && item'.totalSteps == item.totalSteps
             && a.approved && a.step == item.currentStep
             && e.kind == (if final then ApprovedEvent else StepApprovedEvent) && e.step == item.currentStep
    ensures LogMatches(def, item', log + [a]) && StreamMatches(item', events + [e])
  {
    FinalIsLast(def, item.currentStep);
    FoldAppend(events, e);
  }

  lemma CloseMatches(def: TypeDef, item: Item, log: seq<Approval>, events: seq<Event>,
                     item': Item, log': seq<Approval>, e: Event)
    requires LogMatches(def, item, log) && StreamMatches(item, events) && Open(item.status)
    requires !Open(item'.status) && item'.status != Approved && e.kind == TerminalEvent(item'.status)
    requires item'.currentStep == item.currentStep && item'.totalSteps == item.totalSteps && item'.resolvedAt.Some?
    requires log' == log + ApprovalRow(log', item'.status)
    requires item'.status == Rejected ==>
               |log'| > 0 && !log'[|log'| - 1].approved && log'[|log'| - 1].step == item.currentStep
    ensures LogMatches(def, item', log') && StreamMatches(item', events + [e])
  {
    FoldAppend(events, e);
  }

  // The log row a rejection adds; cancelling and expiring add none.
  function ApprovalRow(log: seq<Approval>, status: Status): seq<Approval> {
    if status == Rejected && |log| > 0 then [log[|log| - 1]] else []
  }

  lemma NothingOfUnknown(db: Db)
    requires Inv(db)
    ensures ApprovalsOf(db.approvals, |db.items|) == [] && EventsOf(db.outbox, |db.items|) == []
  {
    FilterNone(OfRequest(|db.items|), db.approvals);
    FilterNone(AboutRequest(|db.items|), db.outbox);
  }

  lemma FirstEventMatches(item: Item, e: Event)
    requires item.status == Pending && item.currentStep == 1 && e.kind == SubmittedEvent
    ensures StreamMatches(item, [e])
  {
    FoldAppend([], e);
    assert [] + [e] == [e];
  }

  lemma NewRequestMatches(db: Db, item: Item)
    requires Inv(db) && item.kind in db.defs
    requires item.status == Pending && item.currentStep == 1 && item.resolvedAt.None?
    requires item.totalSteps == TotalSteps(db.defs[item.kind])
    ensures RequestInv(CommitSubmit(db, item), |db.items|)
  {
    var e := Event(|db.items|, SubmittedEvent, 1);
    NothingOfUnknown(db);
    EventsOfAppend(db.outbox, e, |db.items|);
    FirstEventMatches(item, e);
    FinalIsLast(db.defs[item.kind], 1);
  }

  // A step whose new rows all belong to request `id` leaves every other request's part alone.
  lemma OtherRowsUntouched(db: Db, db': Db, id: RequestId, other: RequestId)
    requires other != id
    requires db.outbox <= db'.outbox && |db'.outbox| <= |db.outbox| + 1
    requires forall i :: |db.outbox| <= i < |db'.outbox| ==> db'.outbox[i].request == id
    requires db.approvals <= db'.approvals && |db'.approvals| <= |db.approvals| + 1
    requires forall i :: |db.approvals| <= i < |db'.approvals| ==> db'.approvals[i].request == id
    ensures ApprovalsOf(db'.approvals, other) == ApprovalsOf(db.approvals, other)
    ensures EventsOf(db'.outbox, other) == EventsOf(db.outbox, other)
  {
    if |db'.outbox| > |db.outbox| {
      assert db'.outbox == db.outbox + [db'.outbox[|db.outbox|]];
      EventsOfAppend(db.outbox, db'.outbox[|db.outbox|], other);
    } else {
      assert db'.outbox == db.outbox;
    }
    if |db'.approvals| > |db.approvals| {
      assert db'.approvals == db.approvals + [db'.approvals[|db.approvals|]];
      ApprovalsOfAppend(db.approvals, db'.approvals[|db.approvals|], other);
    } else {
      assert db'.approvals == db.approvals;
    }
  }

  lemma RequestMatchesAfterSubmit(db: Db, item: Item, id: RequestId)
    requires Inv(db) && item.kind in db.defs && id <= |db.items|
    requires item.status == Pending && item.currentStep == 1 && item.resolvedAt.None?
    requires item.totalSteps == TotalSteps(db.defs[item.kind])
    ensures RequestInv(CommitSubmit(db, item), id)
  {
    if id == |db.items| {
      NewRequestMatches(db, item);
    } else {
      assert RequestInv(db, id);
      OtherRowsUntouched(db, CommitSubmit(db, item), |db.items|, id);
    }
  }

  lemma SubmitKeepsInv(db: Db, item: Item)
    requires Inv(db) && item.kind in db.defs
    requires item.status == Pending && item.currentStep == 1 && item.resolvedAt.None?
    requires item.totalSteps == TotalSteps(db.defs[item.kind])
    ensures Inv(CommitSubmit(db, item))
  {
    forall id | 0 <= id <= |db.items|
      ensures RequestInv(CommitSubmit(db, item), id)
    {
      RequestMatchesAfterSubmit(db, item, id);
    }
    assert RowsNamed(CommitSubmit(db, item));
  }

  lemma OthersKeepInv(db: Db, db': Db, id: RequestId)
    requires Inv(db) && id < |db.items| && db'.defs == db.defs
    requires |db'.items| == |db.items| && forall i :: 0 <= i < |db.items| && i != id ==> db'.items[i] == db.items[i]
    requires db.outbox <= db'.outbox && |db'.outbox| == |db.outbox| + 1 && db'.outbox[|db.outbox|].request == id
    requires db.approvals <= db'.approvals && |db'.approvals| <= |db.approvals| + 1
    requires forall i :: |db.approvals| <= i < |db'.approvals| ==> db'.approvals[i].request == id
    requires RequestInv(db', id)
    ensures Inv(db')
  {
    forall other | 0 <= other < |db'.items|
      ensures RequestInv(db', other)
    {
      if other != id {
        assert RequestInv(db, other);
        OtherRowsUntouched(db, db', id, other);
      }
    }
  }

  lemma ApproveKeepsInv(db: Db, id: RequestId, note: Option<string>, actor: UserId, via: Option<Delegation>,
                        resolved: Option<UserId>, now: int)
    requires Inv(db) && id < |db.items| && Open(db.items[id].status)
    requires db.items[id].kind in db.defs
    ensures Inv(CommitApprove(db, id, db.items[id], db.defs[db.items[id].kind], note, actor, via, resolved, now))
  {
    var item := db.items[id];
    var def := db.defs[item.kind];
    var db' := CommitApprove(db, id, item, def, note, actor, via, resolved, now);
    var a, e := db'.approvals[|db.approvals|], db'.outbox[|db.outbox|];
    assert RequestInv(db, id);
    ApprovalsOfAppend(db.approvals, a, id);
    EventsOfAppend(db.outbox, e, id);
    ApproveMatches(def, item, ApprovalsOf(db.approvals, id), EventsOf(db.outbox, id), db'.items[id], a, e);
    OthersKeepInv(db, db', id);
  }

  lemma RejectKeepsInv(db: Db, id: RequestId, note: Option<string>, actor: UserId, via: Option<Delegation>, now: int)
    requires Inv(db) && id < |db.items| && Open(db.items[id].status)
    ensures Inv(CommitReject(db, id, db.items[id], note, actor, via, now))
  {
    var item := db.items[id];
    var db' := CommitReject(db, id, item, note, actor, via, now);
    var a, e := db'.approvals[|db.approvals|], db'.outbox[|db.outbox|];
    assert RequestInv(db, id);
    ApprovalsOfAppend(db.approvals, a, id);
    EventsOfAppend(db.outbox, e, id);
    CloseMatches(db.defs[item.kind], item, ApprovalsOf(db.approvals, id), EventsOf(db.outbox, id),
                 db'.items[id], ApprovalsOf(db'.approvals, id), e);
    OthersKeepInv(db, db', id);
  }

  lemma ClosedRequestMatches(db: Db, id: RequestId, status: Status, now: int)
    requires id < |db.items| && RequestInv(db, id) && Open(db.items[id].status)
    requires status == Cancelled || status == Expired
    ensures RequestInv(CommitClose(db, id, status, now), id)
  {
    var item := db.items[id];
    var db' := CommitClose(db, id, status, now);
    var e := db'.outbox[|db.outbox|];
    assert db'.approvals == db.approvals && db'.outbox == db.outbox + [e];
    EventsOfAppend(db.outbox, e, id);
    var log := ApprovalsOf(db.approvals, id);
    CloseMatches(db.defs[item.kind], item, log, EventsOf(db.outbox, id), db'.items[id], log, e);
  }

  lemma CloseKeepsInv(db: Db, id: RequestId, status: Status, now: int)
    requires Inv(db) && id < |db.items| && Open(db.items[id].status)
    requires status == Cancelled || status == Expired
    ensures Inv(CommitClose(db, id, status, now))
  {
    assert RequestInv(db, id);
    ClosedRequestMatches(db, id, status, now);
    OthersKeepInv(db, CommitClose(db, id, status, now), id);
  }

  lemma StepKeepsInv(db: Db, op: Op)
    requires Inv(db)
    ensures Inv(Next(db, op))
  {
    if Refused(db, op).None? {
      match op
      case Submit(kind, payload, actor, assignee, expiresAt, now, _) =>
        SubmitKeepsInv(db, NewItem(db.defs[kind], kind, payload, actor, assignee, expiresAt, now));
      case Approve(id, note, actor, via, resolved, now, _) => ApproveKeepsInv(db, id, note, actor, via, resolved, now);
      case Reject(id, note, actor, via, now, _) => RejectKeepsInv(db, id, note, actor, via, now);
      case Cancel(id, _, now, _) => CloseKeepsInv(db, id, Cancelled, now);
      case Expire(id, now, _) =>
        if Open(db.items[id].status) {
          CloseKeepsInv(db, id, Expired, now);
        }
      case _ => EnvironmentKeepsInv(db, op);
    }
  }

  lemma EnvironmentKeepsInv(db: Db, op: Op)
    requires Inv(db)
    requires op.Register? || op.SetSubscriptions? || op.SetDelegations? || op.SetPermissions?
    ensures Inv(Next(db, op))
  {
    forall id | 0 <= id < |db.items|
      ensures RequestInv(Next(db, op), id)
    {
      assert RequestInv(db, id);
    }
  }

  lemma {:induction false} RunKeepsInv(ss: seq<Db>, ops: seq<Op>, i: nat)
    requires IsRun(ss, ops) && i < |ss|
    ensures Inv(ss[i])
  {
    if i > 0 {
      RunKeepsInv(ss, ops, i - 1);
      StepKeepsInv(ss[i - 1], ops[i - 1]);
    }
  }

  // ---- Results ----

  /**
   * The approvals log replays to the row: approved rows are exactly steps 1..k in order, a rejected
   * row is last and at the current step, and status, current step and resolution follow from k.
   */
  lemma LogReplaysToRow(ss: seq<Db>, ops: seq<Op>, i: nat, id: RequestId)
    requires IsRun(ss, ops) && i < |ss| && id < |ss[i].items|
    ensures var item := ss[i].items[id];
            item.kind in ss[i].defs && LogMatches(ss[i].defs[item.kind], item, ApprovalsOf(ss[i].approvals, id))
  {
    RunKeepsInv(ss, ops, i);
    assert RequestInv(ss[i], id);
  }

  /** The steps of a log strictly increase, so ordering it by step and then by time is the order it was written in. */
  lemma LogIsOrdered(ss: seq<Db>, ops: seq<Op>, i: nat, id: RequestId, j: nat, k: nat)
    requires IsRun(ss, ops) && i < |ss| && id < |ss[i].items| && j < k < |ApprovalsOf(ss[i].approvals, id)|
    ensures ApprovalsOf(ss[i].approvals, id)[j].step < ApprovalsOf(ss[i].approvals, id)[k].step
  {
    LogReplaysToRow(ss, ops, i, id);
  }

  /** A request never takes more accepted decisions than its chain has steps. */
  lemma DecisionsAreBounded(ss: seq<Db>, ops: seq<Op>, i: nat, id: RequestId)
    requires IsRun(ss, ops) && i < |ss| && id < |ss[i].items| && ss[i].items[id].kind in ss[i].defs
    ensures |ApprovalsOf(ss[i].approvals, id)| <= LastStep(ss[i].defs[ss[i].items[id].kind])
  {
    LogReplaysToRow(ss, ops, i, id);
  }

  /** The outbox reconstructs the row: its events have the documented shape and fold to status and step. */
  lemma StreamReconstructsRow(ss: seq<Db>, ops: seq<Op>, i: nat, id: RequestId)
    requires IsRun(ss, ops) && i < |ss| && id < |ss[i].items|
    ensures var events := EventsOf(ss[i].outbox, id);
            && StreamShape(ss[i].items[id], events)
            && FoldEvents(events) == Progress(ss[i].items[id].status, ss[i].items[id].currentStep)
  {
    RunKeepsInv(ss, ops, i);
    assert RequestInv(ss[i], id);
  }

  /** The request an operation writes to. */
  function Target(db: Db, op: Op): RequestId {
    match op
    case Approve(id, _, _, _, _, _, _) => id
    case Reject(id, _, _, _, _, _) => id
    case Cancel(id, _, _, _) => id
    case Expire(id, _, _) => id
    case _ => |db.items|
  }

  lemma StepWritesTarget(db: Db, op: Op, id: RequestId)
    requires id < |db.items| && (id != Target(db, op) || !Open(db.items[id].status))
    ensures var db' := Next(db, op);
            && id < |db'.items| && db'.items[id] == db.items[id]
            && db.outbox <= db'.outbox && |db'.outbox| <= |db.outbox| + 1
            && db.approvals <= db'.approvals && |db'.approvals| <= |db.approvals| + 1
            && (forall i :: |db.outbox| <= i < |db'.outbox| ==> db'.outbox[i].request == Target(db, op) != id)
            && (forall i :: |db.approvals| <= i < |db'.approvals| ==> db'.approvals[i].request == Target(db, op) != id)
  {
  }

  lemma SettledStep(db: Db, op: Op, id: RequestId)
    requires id < |db.items| && !Open(db.items[id].status)
    ensures var db' := Next(db, op);
            && id < |db'.items| && db'.items[id] == db.items[id]
            && ApprovalsOf(db'.approvals, id) == ApprovalsOf(db.approvals, id)
            && EventsOf(db'.outbox, id) == EventsOf(db.outbox, id)
  {
    var db' := Next(db, op);
    StepWritesTarget(db, op, id);
    if Target(db, op) != id {
      OtherRowsUntouched(db, db', Target(db, op), id);
    }
  }

  /** Terminal statuses absorb: nothing about a settled request ever changes again. */
  lemma {:induction false} TerminalAbsorbs(ss: seq<Db>, ops: seq<Op>, i: nat, j: nat, id: RequestId)
    requires IsRun(ss, ops) && i <= j < |ss|
    requires id < |ss[i].items| && !Open(ss[i].items[id].status)
    ensures id < |ss[j].items| && ss[j].items[id] == ss[i].items[id]
    ensures ApprovalsOf(ss[j].approvals, id) == ApprovalsOf(ss[i].approvals, id)
    ensures EventsOf(ss[j].outbox, id) == EventsOf(ss[i].outbox, id)
  {
    if i < j {
      TerminalAbsorbs(ss, ops, i, j - 1, id);
      SettledStep(ss[j - 1], ops[j - 1], id);
    }
  }

  /** First write wins: a registered definition never changes under the requests of its type. */
  lemma {:induction false} DefinitionsAreFixed(ss: seq<Db>, ops: seq<Op>, i: nat, j: nat, kind: string)
    requires IsRun(ss, ops) && i <= j < |ss| && kind in ss[i].defs
    ensures kind in ss[j].defs && ss[j].defs[kind] == ss[i].defs[kind]
  {
    if i < j {
      DefinitionsAreFixed(ss, ops, i, j - 1, kind);
      var op := ops[j - 1];
    }
  }

  ghost predicate IsPermutation(steps: seq<StepDef>) {
    && (forall i :: 0 <= i < |steps| ==> 1 <= steps[i].step <= |steps|)
    && (forall n :: 1 <= n <= |steps| ==> HasStep(steps, n))
  }

  ghost predicate HasStep(steps: seq<StepDef>, n: int) {
    exists i :: 0 <= i < |steps| && steps[i].step == n
  }

  /** totalSteps, stored at submit as the chain's length, is the step that decides when steps are 1..n in any order. */
  lemma TotalStepsIsLast(def: TypeDef)
    requires def.approvalSteps.Some? ==> def.approvalSteps.value != [] && IsPermutation(def.approvalSteps.value)
    ensures TotalSteps(def) == LastStep(def)
  {
    if def.approvalSteps.Some? {
      var steps := def.approvalSteps.value;
      assert HasStep(steps, |steps|);
    }
  }
}
