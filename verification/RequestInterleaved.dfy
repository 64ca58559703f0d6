/**
 * The request engine with calls interleaved: a call reads its row, and commits later on whatever the
 * row has become. The transaction does not look at the status again.
 *
 * Less survives than in the serial model, but no approval step is ever skipped.
 */
module RequestInterleaved {
  import opened Common
  import opened RequestEngine

  type CallId = nat

  // A call past its guards, holding the row as it read it.
  datatype Call =
    | ApproveCall(id: RequestId, read: Item, note: Option<string>, actor: UserId, via: Option<Delegation>,
                  resolved: Option<UserId>)
    | RejectCall(id: RequestId, read: Item, note: Option<string>, actor: UserId, via: Option<Delegation>)
    | CancelCall(id: RequestId, read: Item, actor: UserId)
    | ExpireCall(id: RequestId, read: Item)

  datatype World = World(db: Db, calls: map<CallId, Call>)

  datatype Step =
    | Atomic(op: Op)                 // submissions, registrations and the environment
    | Read(key: CallId, call: Call)  // a call reads its row and passes its guards
    | Commit(key: CallId, now: int)
    | Abandon(key: CallId)           // a guard after the read refuses, or the transaction rolls back

  predicate IsAtomic(op: Op) {
    op.Register? || op.Submit? || op.SetSubscriptions? || op.SetDelegations? || op.SetPermissions?
  }

  /**
   * A call goes in flight on an open row of a known type; permission and delegation guards only restrict it
   * further.
   */
  predicate Enabled(w: World, step: Step) {
    match step
    case Atomic(op) => IsAtomic(op) && Legal(w.db, op)
    case Read(key, call) =>
      && key !in w.calls && call.id < |w.db.items| && call.read == w.db.items[call.id]
      && Open(call.read.status) && call.read.kind in w.db.defs
    case Commit(key, _) => key in w.calls && w.calls[key].id < |w.db.items| && w.calls[key].read.kind in w.db.defs
    case Abandon(key) => key in w.calls
  }

  function CommitCall(db: Db, call: Call, now: int): Db
    requires call.id < |db.items| && call.read.kind in db.defs
  {
    match call
    case ApproveCall(id, read, note, actor, via, resolved) =>
      CommitApprove(db, id, read, db.defs[read.kind], note, actor, via, resolved, now)
    case RejectCall(id, read, note, actor, via) => CommitReject(db, id, read, note, actor, via, now)
    case CancelCall(id, _, _) => CommitClose(db, id, Cancelled, now)
    case ExpireCall(id, _) => CommitClose(db, id, Expired, now)
  }

  function Next(w: World, step: Step): World
    requires Enabled(w, step)
  {
    match step
    case Atomic(op) => w.(db := RequestEngine.Next(w.db, op))
    case Read(key, call) => w.(calls := w.calls[key := call])
    case Commit(key, now) => World(CommitCall(w.db, w.calls[key], now), w.calls - {key})
    case Abandon(key) => w.(calls := w.calls - {key})
  }

  ghost predicate IsRun(ws: seq<World>, steps: seq<Step>) {
    && |ws| == |steps| + 1
    && ws[0] == World(EMPTY, map[])
    && forall i {:trigger steps[i]} :: 0 <= i < |steps| ==>
         Enabled(ws[i], steps[i]) && ws[i + 1] == Next(ws[i], steps[i])
  }

  // ---- No step is skipped ----

  ghost predicate HasApproved(log: seq<Approval>, id: RequestId, step: int) {
    exists i :: 0 <= i < |log| && log[i].request == id && log[i].approved && log[i].step == step
  }

  /** The log holds an approval of every step before `step`. */
  ghost predicate Reached(log: seq<Approval>, id: RequestId, step: int) {
    forall s :: 1 <= s < step ==> HasApproved(log, id, s)
  }

  /** Every approved row is preceded by approved rows for all earlier steps of its request. */
  ghost predicate NoStepSkipped(log: seq<Approval>) {
    forall i :: 0 <= i < |log| && log[i].approved ==> log[i].step >= 1 && Reached(log[..i], log[i].request, log[i].step)
  }

  ghost predicate ItemInv(db: Db, id: RequestId, item: Item) {
    && item.kind in db.defs
    && 1 <= item.currentStep <= LastStep(db.defs[item.kind])
    && Reached(db.approvals, id, item.currentStep)
    && (item.resolvedAt.Some? <==> !Open(item.status))
  }

  ghost predicate Inv(w: World) {
    && (forall id :: 0 <= id < |w.db.items| ==> ItemInv(w.db, id, w.db.items[id]))
    && (forall key :: key in w.calls ==>
          && w.calls[key].id < |w.db.items|
          && w.calls[key].read.kind == w.db.items[w.calls[key].id].kind
          && ItemInv(w.db, w.calls[key].id, w.calls[key].read))
    && NoStepSkipped(w.db.approvals)
  }

  lemma ReachedGrows(log: seq<Approval>, a: Approval, id: RequestId, step: int)
    requires Reached(log, id, step)
    ensures Reached(log + [a], id, step)
    ensures a.request == id && a.approved && a.step == step ==> Reached(log + [a], id, step + 1)
  {
    var log' := log + [a];
    forall s | 1 <= s < step
      ensures HasApproved(log', id, s)
    {
      assert HasApproved(log, id, s);
      var i :| 0 <= i < |log| && log[i].request == id && log[i].approved && log[i].step == s;
      assert log'[i] == log[i];
    }
    assert log'[|log|] == a;
  }

  lemma NoStepSkippedGrows(log: seq<Approval>, a: Approval)
    requires NoStepSkipped(log)
    requires a.approved ==> a.step >= 1 && Reached(log, a.request, a.step)
    ensures NoStepSkipped(log + [a])
  {
    var log' := log + [a];
    forall i | 0 <= i < |log'| && log'[i].approved
      ensures log'[i].step >= 1 && Reached(log'[..i], log'[i].request, log'[i].step)
    {
      assert log'[..i] == log[..i];
      if i < |log| {
        assert log'[i] == log[i];
      } else {
        assert log[..i] == log;
      }
    }
  }

  // Adding one log row, and keeping the definitions, keeps what holds of a row or a snapshot.
  lemma ItemInvGrows(db: Db, db': Db, id: RequestId, item: Item)
    requires ItemInv(db, id, item)
    requires forall kind :: kind in db.defs ==> kind in db'.defs && db'.defs[kind] == db.defs[kind]
    requires db'.approvals == db.approvals
             || (|db'.approvals| == |db.approvals| + 1 && db.approvals <= db'.approvals)
    ensures ItemInv(db', id, item)
  {
    if db'.approvals != db.approvals {
      assert db'.approvals == db.approvals + [db'.approvals[|db.approvals|]];
      ReachedGrows(db.approvals, db'.approvals[|db.approvals|], id, item.currentStep);
    }
  }

  // What an atomic operation leaves alone: old rows and definitions, and the log; a new row is at its first step.
  ghost predicate AtomicFrame(db: Db, db': Db) {
    && db'.approvals == db.approvals
    && |db.items| <= |db'.items| && db'.items[..|db.items|] == db.items
    && (forall kind :: kind in db.defs ==> kind in db'.defs && db'.defs[kind] == db.defs[kind])
    && (forall id :: |db.items| <= id < |db'.items| ==>
          db'.items[id].kind in db'.defs && db'.items[id].currentStep == 1
          && db'.items[id].status == Pending && db'.items[id].resolvedAt.None?)
  }

  lemma AtomicFrames(db: Db, op: Op)
    requires IsAtomic(op)
    ensures AtomicFrame(db, RequestEngine.Next(db, op))
  {
  }

  lemma AtomicKeepsInv(w: World, db: Db)
    requires Inv(w) && AtomicFrame(w.db, db)
    ensures Inv(w.(db := db))
  {
    forall id | 0 <= id < |db.items|
      ensures ItemInv(db, id, db.items[id])
    {
      if id < |w.db.items| {
        assert db.items[..|w.db.items|][id] == w.db.items[id];
        ItemInvGrows(w.db, db, id, w.db.items[id]);
      }
    }
    forall key | key in w.calls
      ensures w.calls[key].read.kind == db.items[w.calls[key].id].kind
              && ItemInv(db, w.calls[key].id, w.calls[key].read)
    {
      assert db.items[..|w.db.items|][w.calls[key].id] == w.db.items[w.calls[key].id];
      ItemInvGrows(w.db, db, w.calls[key].id, w.calls[key].read);
    }
  }

  // The row a commit writes, given what held of the row it had read.
  lemma CommittedItem(w: World, key: CallId, now: int)
    requires Inv(w) && Enabled(w, Commit(key, now))
    ensures var db' := CommitCall(w.db, w.calls[key], now);
            var id := w.calls[key].id;
            ItemInv(db', id, db'.items[id]) && NoStepSkipped(db'.approvals)
  {
    var call := w.calls[key];
    var db' := CommitCall(w.db, call, now);
    var id := call.id;
    if call.ApproveCall? || call.RejectCall? {
      var a := db'.approvals[|w.db.approvals|];
      assert db'.approvals == w.db.approvals + [a];
      NoStepSkippedGrows(w.db.approvals, a);
      ReachedGrows(w.db.approvals, a, id, call.read.currentStep);
      ReachedGrows(w.db.approvals, a, id, w.db.items[id].currentStep);
    }
  }

  // What a commit leaves alone.
  ghost predicate CommitFrame(db: Db, db': Db, id: RequestId) {
    && |db'.items| == |db.items| && db'.defs == db.defs
    && (forall i :: 0 <= i < |db.items| && i != id ==> db'.items[i] == db.items[i])
    && (id < |db.items| ==> db'.items[id].kind == db.items[id].kind)
    && (db'.approvals == db.approvals || (|db'.approvals| == |db.approvals| + 1 && db.approvals <= db'.approvals))
  }

  lemma CommitFrames(db: Db, call: Call, now: int)
    requires call.id < |db.items| && call.read.kind in db.defs
    ensures CommitFrame(db, CommitCall(db, call, now), call.id)
  {
  }

  lemma FrameKeepsInv(w: World, w': World, id: RequestId)
    requires Inv(w) && CommitFrame(w.db, w'.db, id) && id < |w.db.items|
    requires ItemInv(w'.db, id, w'.db.items[id]) && NoStepSkipped(w'.db.approvals)
    requires forall key :: key in w'.calls ==> key in w.calls && w'.calls[key] == w.calls[key]
    ensures Inv(w')
  {
    forall i | 0 <= i < |w'.db.items|
      ensures ItemInv(w'.db, i, w'.db.items[i])
    {
      if i != id {
        ItemInvGrows(w.db, w'.db, i, w.db.items[i]);
      }
    }
    forall key | key in w'.calls
      ensures ItemInv(w'.db, w'.calls[key].id, w'.calls[key].read)
    {
      ItemInvGrows(w.db, w'.db, w.calls[key].id, w.calls[key].read);
    }
  }

  lemma CommitKeepsInv(w: World, key: CallId, now: int)
    requires Inv(w) && Enabled(w, Commit(key, now))
    ensures Inv(Next(w, Commit(key, now)))
  {
    CommitFrames(w.db, w.calls[key], now);
    CommittedItem(w, key, now);
    FrameKeepsInv(w, Next(w, Commit(key, now)), w.calls[key].id);
  }

  lemma {:induction false} RunKeepsInv(ws: seq<World>, steps: seq<Step>, i: nat)
    requires IsRun(ws, steps) && i < |ws|
    ensures Inv(ws[i])
  {
    if i > 0 {
      RunKeepsInv(ws, steps, i - 1);
      match steps[i - 1]
      case Atomic(op) =>
        AtomicFrames(ws[i - 1].db, op);
        AtomicKeepsInv(ws[i - 1], ws[i].db);
      case Read(key, call) =>
      case Commit(key, now) => CommitKeepsInv(ws[i - 1], key, now);
      case Abandon(key) =>
    }
  }

  /**
   * However reads and commits interleave: no approval step is skipped, the current step stays within
   * the chain, and a request has a resolution time exactly when its status is terminal.
   */
  lemma StepsAreNeverSkipped(ws: seq<World>, steps: seq<Step>, i: nat)
    requires IsRun(ws, steps) && i < |ws|
    ensures NoStepSkipped(ws[i].db.approvals)
    ensures forall id :: 0 <= id < |ws[i].db.items| ==>
              var item := ws[i].db.items[id];
              && item.kind in ws[i].db.defs
              && 1 <= item.currentStep <= LastStep(ws[i].db.defs[item.kind])
              && (item.resolvedAt.Some? <==> !Open(item.status))
  {
    RunKeepsInv(ws, steps, i);
    forall id | 0 <= id < |ws[i].db.items|
      ensures ItemInv(ws[i].db, id, ws[i].db.items[id])
    {
    }
  }

  // ---- Conservation ----

  predicate CommitsOn(w: World, step: Step, id: RequestId) {
    step.Commit? && step.key in w.calls && w.calls[step.key].id == id
  }

  predicate DecidesOn(w: World, step: Step, id: RequestId) {
    CommitsOn(w, step, id) && (w.calls[step.key].ApproveCall? || w.calls[step.key].RejectCall?)
  }

  /** Committed calls on request `id` among the first n steps. */
  function Commits(ws: seq<World>, steps: seq<Step>, id: RequestId, n: nat): nat
    requires n <= |steps| <= |ws|
  {
    if n == 0 then 0 else Commits(ws, steps, id, n - 1) + if CommitsOn(ws[n - 1], steps[n - 1], id) then 1 else 0
  }

  /** Those of them that approve or reject. */
  function Decisions(ws: seq<World>, steps: seq<Step>, id: RequestId, n: nat): nat
    requires n <= |steps| <= |ws|
  {
    if n == 0 then 0 else Decisions(ws, steps, id, n - 1) + if DecidesOn(ws[n - 1], steps[n - 1], id) then 1 else 0
  }

  function OnApproveRuns(hooks: seq<HookRun>, id: RequestId): nat {
    |Filter(RunsOnApprove(id), hooks)|
  }

  function RunsOnApprove(id: RequestId): HookRun -> bool {
    (h: HookRun) => h.request == id && h.hook.OnApprove?
  }

  function ApprovedEvents(outbox: seq<Event>, id: RequestId): nat {
    |Filter(SaysApproved(id), outbox)|
  }

  function SaysApproved(id: RequestId): Event -> bool {
    (e: Event) => e.request == id && e.kind == ApprovedEvent
  }

  lemma CountsAppend(outbox: seq<Event>, e: Event, hooks: seq<HookRun>, h: HookRun, id: RequestId)
    ensures ApprovedEvents(outbox + [e], id)
         == ApprovedEvents(outbox, id) + if e.request == id && e.kind == ApprovedEvent then 1 else 0
    ensures OnApproveRuns(hooks + [h], id)
         == OnApproveRuns(hooks, id) + if h.request == id && h.hook.OnApprove? then 1 else 0
  {
    FilterAppend(SaysApproved(id), outbox, e);
    FilterAppend(RunsOnApprove(id), hooks, h);
  }

  // What one commit adds to the counts of request `id`.
  lemma CommitAdds(db: Db, call: Call, now: int, id: RequestId)
    requires call.id < |db.items| && call.read.kind in db.defs
    ensures var db' := CommitCall(db, call, now);
            var mine := if call.id == id then 1 else 0;
            && |EventsOf(db'.outbox, id)| == |EventsOf(db.outbox, id)| + mine
            && |ApprovalsOf(db'.approvals, id)|
               == |ApprovalsOf(db.approvals, id)| + (if call.ApproveCall? || call.RejectCall? then mine else 0)
            && OnApproveRuns(db'.hooks, id) - OnApproveRuns(db.hooks, id)
               == ApprovedEvents(db'.outbox, id) - ApprovedEvents(db.outbox, id)
  {
    var db' := CommitCall(db, call, now);
    var e, h := db'.outbox[|db.outbox|], db'.hooks[|db.hooks|];
    EventsOfAppend(db.outbox, e, id);
    CountsAppend(db.outbox, e, db.hooks, h, id);
    if call.ApproveCall? || call.RejectCall? {
      ApprovalsOfAppend(db.approvals, db'.approvals[|db.approvals|], id);
    }
  }

  // Nothing is written about a request that does not exist yet.
  ghost predicate Counted(w: World, id: RequestId, commits: nat, decisions: nat) {
    && |ApprovalsOf(w.db.approvals, id)| == decisions
    && |EventsOf(w.db.outbox, id)| == (if id < |w.db.items| then 1 else 0) + commits
    && OnApproveRuns(w.db.hooks, id) == ApprovedEvents(w.db.outbox, id)
  }

  // An atomic operation writes no log row and runs no hook; a submission writes one event about the new request.
  ghost predicate OnlySubmits(db: Db, db': Db) {
    && db'.approvals == db.approvals && db'.hooks == db.hooks
    && ((|db'.items| == |db.items| && db'.outbox == db.outbox)
        || (|db'.items| == |db.items| + 1 && db'.outbox == db.outbox + [Event(|db.items|, SubmittedEvent, 1)]))
  }

  lemma AtomicOnlySubmits(db: Db, op: Op)
    requires IsAtomic(op)
    ensures OnlySubmits(db, RequestEngine.Next(db, op))
  {
  }

  lemma SubmitCounts(w: World, w': World, id: RequestId, commits: nat, decisions: nat)
    requires Counted(w, id, commits, decisions) && OnlySubmits(w.db, w'.db)
    ensures Counted(w', id, commits, decisions)
  {
    if w'.db.outbox != w.db.outbox {
      var e := Event(|w.db.items|, SubmittedEvent, 1);
      EventsOfAppend(w.db.outbox, e, id);
      FilterAppend(SaysApproved(id), w.db.outbox, e);
    }
  }

  /**
   * Conservation under any interleaving: a request's log rows are its committed decisions, its
   * events are its submission plus its committed calls, and its onApprove hook ran once per
   * request.approved event.
   */
  lemma {:induction false} CommitsAreCounted(ws: seq<World>, steps: seq<Step>, n: nat, id: RequestId)
    requires IsRun(ws, steps) && n <= |steps|
    ensures |ApprovalsOf(ws[n].db.approvals, id)| == Decisions(ws, steps, id, n)
    ensures |EventsOf(ws[n].db.outbox, id)| == (if id < |ws[n].db.items| then 1 else 0) + Commits(ws, steps, id, n)
    ensures OnApproveRuns(ws[n].db.hooks, id) == ApprovedEvents(ws[n].db.outbox, id)
  {
    if n > 0 {
      CommitsAreCounted(ws, steps, n - 1, id);
      match steps[n - 1]
      case Atomic(op) =>
        AtomicOnlySubmits(ws[n - 1].db, op);
        SubmitCounts(ws[n - 1], ws[n], id, Commits(ws, steps, id, n - 1), Decisions(ws, steps, id, n - 1));
      case Read(_, _) =>
      case Abandon(_) =>
      case Commit(key, now) => CommitAdds(ws[n - 1].db, ws[n - 1].calls[key], now, id);
    }
  }

  // ---- What interleaving breaks, and exactly when ----

  /** The same call made in one piece at `now`, `via` being the answer its delegation lookup gets then. */
  function AsOp(call: Call, via: Option<Delegation>, now: int): Op {
    match call
    case ApproveCall(id, _, note, actor, _, resolved) => Approve(id, note, actor, via, resolved, now, true)
    case RejectCall(id, _, note, actor, _) => Reject(id, note, actor, via, now, true)
    case CancelCall(id, _, actor) => Cancel(id, actor, now, true)
    case ExpireCall(id, _) => Expire(id, now, true)
  }

  predicate IsDecision(call: Call) {
    call.ApproveCall? || call.RejectCall?
  }

  // The delegation the call's own lookup answered with.
  function ViaOf(call: Call): Option<Delegation> {
    if IsDecision(call) then call.via else None
  }

  /** Some uninterrupted call at `now`, with an answer the delegation lookup may give then, has the same effect. */
  ghost predicate ActsSerially(db: Db, call: Call, now: int)
    requires call.id < |db.items| && call.read.kind in db.defs
  {
    exists via :: Legal(db, AsOp(call, via, now))
                  && CommitCall(db, call, now) == RequestEngine.Next(db, AsOp(call, via, now))
  }

  /**
   * The row is still open and, where the transaction writes what it read, at the step and with the assignee it
   * read.
   */
  predicate FindsWhatItRead(db: Db, call: Call)
    requires call.id < |db.items| && call.read.kind in db.defs
  {
    var row := db.items[call.id];
    && Open(row.status)
    && (IsDecision(call) ==> row.currentStep == call.read.currentStep)
    && (call.ApproveCall? ==>
          row.assignee == call.read.assignee
          || (call.resolved.Some? && !IsFinalStep(db.defs[call.read.kind], call.read.currentStep)))
  }

  /** A lookup at `now` may still answer that the actor acts for the same delegator, or for none. */
  ghost predicate DelegationStillAnswers(db: Db, call: Call, now: int) {
    IsDecision(call) ==>
      exists via :: IsActiveDelegation(db.delegations, call.actor, now, via) && Delegator(via) == Delegator(call.via)
  }

  /** The guards the call passed before its transaction still pass. */
  predicate GuardsStillPass(db: Db, call: Call, now: int) {
    RequestEngine.Refused(db, AsOp(call, ViaOf(call), now)).None?
  }

  // Guards look at a delegation for its delegator alone.
  lemma SameDelegatorSameGuards(db: Db, call: Call, via: Option<Delegation>, now: int)
    requires IsDecision(call) ==> Delegator(via) == Delegator(call.via)
    ensures RequestEngine.Refused(db, AsOp(call, via, now)) == RequestEngine.Refused(db, AsOp(call, ViaOf(call), now))
  {
  }

  // Whatever a serial call with this effect was, it passed its guards, on the row that was read, for the same
  // delegator.
  lemma SerialCallAgrees(db: Db, call: Call, via: Option<Delegation>, now: int)
    requires call.id < |db.items| && call.read.kind in db.defs && db.items[call.id].kind == call.read.kind
    requires CommitCall(db, call, now) == RequestEngine.Next(db, AsOp(call, via, now))
    ensures RequestEngine.Refused(db, AsOp(call, via, now)).None? && FindsWhatItRead(db, call)
    ensures IsDecision(call) ==> Delegator(via) == Delegator(call.via)
  {
    var committed, serial := CommitCall(db, call, now), RequestEngine.Next(db, AsOp(call, via, now));
    assert |committed.outbox| == |db.outbox| + 1;
    if IsDecision(call) {
      var a, b := committed.approvals[|db.approvals|], serial.approvals[|db.approvals|];
      assert a.step == call.read.currentStep && b.step == db.items[call.id].currentStep;
      assert a.delegatedFrom == Delegator(call.via) && b.delegatedFrom == Delegator(via);
      assert committed.items[call.id].assignee == serial.items[call.id].assignee;
    }
  }

  lemma AgreeingCallIsSerial(db: Db, call: Call, via: Option<Delegation>, now: int)
    requires call.id < |db.items| && call.read.kind in db.defs && db.items[call.id].kind == call.read.kind
    requires RequestEngine.Refused(db, AsOp(call, via, now)).None? && FindsWhatItRead(db, call)
    requires IsDecision(call) ==> Delegator(via) == Delegator(call.via)
    ensures CommitCall(db, call, now) == RequestEngine.Next(db, AsOp(call, via, now))
  {
  }

  /**
   * In every run a commit has the effect of an uninterrupted call at that moment exactly when the row is
   * still what the transaction assumes, the delegation it acts under still answers, and its guards still pass.
   */
  lemma CommitIsSerialIff(ws: seq<World>, steps: seq<Step>, i: nat)
    requires IsRun(ws, steps) && i < |steps| && steps[i].Commit?
    ensures var db, call, now := ws[i].db, ws[i].calls[steps[i].key], steps[i].now;
            && steps[i].key in ws[i].calls && call.id < |db.items| && call.read.kind in db.defs
            && (ActsSerially(db, call, now)
                <==> (&& FindsWhatItRead(db, call)
                      && DelegationStillAnswers(db, call, now)
                      && GuardsStillPass(db, call, now)))
  {
    RunKeepsInv(ws, steps, i);
    var step := steps[i];
    var db, call, now := ws[i].db, ws[i].calls[step.key], step.now;
    if ActsSerially(db, call, now) {
      var via :| Legal(db, AsOp(call, via, now))
                 && CommitCall(db, call, now) == RequestEngine.Next(db, AsOp(call, via, now));
      SerialCallAgrees(db, call, via, now);
      SameDelegatorSameGuards(db, call, via, now);
    }
    if FindsWhatItRead(db, call) && DelegationStillAnswers(db, call, now) && GuardsStillPass(db, call, now) {
      var via := ViaOf(call);
      if IsDecision(call) {
        via :| IsActiveDelegation(db.delegations, call.actor, now, via) && Delegator(via) == Delegator(call.via);
      }
      SameDelegatorSameGuards(db, call, via, now);
      AgreeingCallIsSerial(db, call, via, now);
      assert Legal(db, AsOp(call, via, now));
    }
  }

  /** The call passes all its guards, at some moment, on the row it reads. */
  ghost predicate GuardsPass(db: Db, step: Step) {
    step.Read? ==> exists at :: Legal(db, AsOp(step.call, ViaOf(step.call), at)) && GuardsStillPass(db, step.call, at)
  }

  ghost predicate IsGuardedRun(ws: seq<World>, steps: seq<Step>) {
    IsRun(ws, steps) && forall i {:trigger steps[i]} :: 0 <= i < |steps| ==> GuardsPass(ws[i].db, steps[i])
  }

  /** Some run whose calls all passed their guards ends in `w`. */
  ghost predicate Reachable(w: World) {
    exists ws: seq<World>, steps: seq<Step> :: IsGuardedRun(ws, steps) && ws[|steps|] == w
  }

  lemma StartIsReachable()
    ensures Reachable(World(EMPTY, map[]))
  {
    var ws, steps: seq<Step> := [World(EMPTY, map[])], [];
    assert IsGuardedRun(ws, steps) && ws[|steps|] == World(EMPTY, map[]);
  }

  lemma ReachNext(w: World, step: Step)
    requires Reachable(w) && Enabled(w, step) && GuardsPass(w.db, step)
    ensures Reachable(Next(w, step))
  {
    var ws: seq<World>, steps: seq<Step> :| IsGuardedRun(ws, steps) && ws[|steps|] == w;
    var ws', steps' := ws + [Next(w, step)], steps + [step];
    forall i {:trigger steps'[i]} | 0 <= i < |steps'|
      ensures Enabled(ws'[i], steps'[i]) && ws'[i + 1] == Next(ws'[i], steps'[i]) && GuardsPass(ws'[i].db, steps'[i])
    {
      if i < |steps| {
        assert steps'[i] == steps[i] && ws'[i] == ws[i] && ws'[i + 1] == ws[i + 1];
      }
    }
    assert IsGuardedRun(ws', steps') && ws'[|steps'|] == Next(w, step);
  }

  // A one-step request that is waiting.
  ghost predicate Waiting(db: Db, user: UserId, permission: Permission) {
    && |db.items| == 1 && db.items[0].kind in db.defs && db.items[0].status == Pending && db.items[0].requester == user
    && db.defs[db.items[0].kind] == TypeDef(permission, false, 0, None) && db.hooks == []
  }

  lemma WaitingRequest(kind: string, permission: Permission, user: UserId,
                       holds: map<UserId, set<Permission>>, delegations: seq<Delegation>) returns (w: World)
    requires forall d :: d in delegations ==> ValidDelegation(d)
    ensures Reachable(w) && w.calls == map[] && Waiting(w.db, user, permission)
    ensures w.db.holds == holds && w.db.delegations == delegations
  {
    var op1, op2 := Register(kind, TypeDef(permission, false, 0, None)), SetPermissions(holds);
    var op3, op4 := SetDelegations(delegations), Submit(kind, OtherPayload, user, None, None, 0, true);
    StartIsReachable();
    var w1 := Next(World(EMPTY, map[]), Atomic(op1));
    ReachNext(World(EMPTY, map[]), Atomic(op1));
    var w2 := Next(w1, Atomic(op2));
    ReachNext(w1, Atomic(op2));
    var w3 := Next(w2, Atomic(op3));
    ReachNext(w2, Atomic(op3));
    w := Next(w3, Atomic(op4));
    ReachNext(w3, Atomic(op4));
  }

  lemma ReadIsReachable(w: World, key: CallId, call: Call, at: int)
    requires Reachable(w) && key !in w.calls
    requires Legal(w.db, AsOp(call, ViaOf(call), at)) && GuardsStillPass(w.db, call, at)
    requires call.id < |w.db.items| && call.read == w.db.items[call.id] && Open(call.read.status)
             && call.read.kind in w.db.defs
    ensures Reachable(w.(calls := w.calls[key := call]))
  {
    ReachNext(w, Read(key, call));
  }

  /**
   * A permission withdrawn between the guard and the commit: the commit approves what a call made then would be
   * refused.
   */
  lemma LapsedPermissionCommits(kind: string, permission: Permission, user: UserId, ann: UserId, now: int)
    returns (w: World, w': World)
    requires user != ann
    ensures Reachable(w) && Enabled(w, Commit(0, now)) && w' == Next(w, Commit(0, now))
    ensures FindsWhatItRead(w.db, w.calls[0]) && DelegationStillAnswers(w.db, w.calls[0], now)
    ensures !GuardsStillPass(w.db, w.calls[0], now)
    ensures |w'.db.items| == 1 && w'.db.items[0].status == Approved
  {
    var w0 := WaitingRequest(kind, permission, user, map[ann := {permission}], []);
    var call := ApproveCall(0, w0.db.items[0], None, ann, None, None);
    ReadIsReachable(w0, 0, call, 0);
    var w1 := w0.(calls := map[0 := call]);
    w := Next(w1, Atomic(SetPermissions(map[])));
    ReachNext(w1, Atomic(SetPermissions(map[])));
    assert IsActiveDelegation(w.db.delegations, ann, now, None);
    w' := Next(w, Commit(0, now));
  }

  /** A delegation that ends between the lookup and the commit: the log records a delegate who no longer is one. */
  lemma LapsedDelegationCommits(kind: string, permission: Permission, user: UserId, ann: UserId, bob: UserId, now: int)
    returns (w: World, w': World)
    requires user != bob && bob != ann && now >= 10
    ensures Reachable(w) && Enabled(w, Commit(0, now)) && w' == Next(w, Commit(0, now))
    ensures FindsWhatItRead(w.db, w.calls[0]) && GuardsStillPass(w.db, w.calls[0], now)
    ensures !DelegationStillAnswers(w.db, w.calls[0], now)
    ensures |w'.db.items| == 1 && w'.db.items[0].status == Approved
    ensures |w'.db.approvals| > 0 && w'.db.approvals[|w'.db.approvals| - 1].delegatedFrom == Some(bob)
  {
    var d := Delegation(bob, ann, 0, 10);
    w := WaitingRequest(kind, permission, user, map[bob := {permission}], [d]);
    var call := ApproveCall(0, w.db.items[0], None, ann, Some(d), None);
    ReadIsReachable(w, 0, call, 5);
    w := w.(calls := map[0 := call]);
    w' := Next(w, Commit(0, now));
  }

  // Two approvals and a rejection of a one-step request, all read before any commits.
  lemma ThreeInFlight(kind: string, permission: Permission, user: UserId, ann: UserId, bob: UserId)
    returns (w: World)
    requires user != ann && user != bob
    ensures Reachable(w) && Waiting(w.db, user, permission)
    ensures var item := w.db.items[0];
            w.calls == map[0 := ApproveCall(0, item, None, ann, None, None),
                           1 := ApproveCall(0, item, None, bob, None, None),
                           2 := RejectCall(0, item, None, bob, None)]
  {
    w := WaitingRequest(kind, permission, user, map[ann := {permission}, bob := {permission}], []);
    var item := w.db.items[0];
    var c0, c1 := ApproveCall(0, item, None, ann, None, None), ApproveCall(0, item, None, bob, None, None);
    var c2 := RejectCall(0, item, None, bob, None);
    ReadIsReachable(w, 0, c0, 0);
    w := w.(calls := map[0 := c0]);
    ReadIsReachable(w, 1, c1, 0);
    w := w.(calls := w.calls[1 := c1]);
    ReadIsReachable(w, 2, c2, 0);
    w := w.(calls := w.calls[2 := c2]);
  }

  // What a commit does to a one-step request, whatever has become of it.
  lemma LateCommit(w: World, key: CallId, now: int)
    requires Enabled(w, Commit(key, now)) && w.calls[key].id == 0 && |w.db.items| == 1
    requires w.calls[key].ApproveCall? || w.calls[key].RejectCall?
    requires w.db.defs[w.calls[key].read.kind].approvalSteps.None?
    ensures var call := w.calls[key]; var db := Next(w, Commit(key, now)).db;
            && |db.items| == 1 && db.defs == w.db.defs
            && db.items[0].status == (if call.ApproveCall? then Approved else Rejected)
            && db.hooks == w.db.hooks + [HookRun(0, if call.ApproveCall? then OnApprove(call.actor)
                                                    else OnReject(call.actor), now)]
  {
  }

  /** The rejection commits, then the approvals: the rejected request comes back approved, its onApprove run twice. */
  lemma StaleApprovalsRevive(kind: string, permission: Permission, user: UserId, ann: UserId, bob: UserId)
    returns (w: World, w': World, w'': World)
    requires user != ann && user != bob
    ensures Reachable(w) && |w.db.items| == 1 && w.db.items[0].status == Rejected
    ensures Enabled(w, Commit(0, 2)) && w' == Next(w, Commit(0, 2))
    ensures Enabled(w', Commit(1, 3)) && w'' == Next(w', Commit(1, 3))
    ensures |w''.db.items| == 1 && w''.db.items[0].status == Approved && OnApproveRuns(w''.db.hooks, 0) == 2
  {
    var w0 := ThreeInFlight(kind, permission, user, ann, bob);
    w := Next(w0, Commit(2, 1));
    ReachNext(w0, Commit(2, 1));
    LateCommit(w0, 2, 1);
    w' := Next(w, Commit(0, 2));
    LateCommit(w, 0, 2);
    w'' := Next(w', Commit(1, 3));
    LateCommit(w', 1, 3);
    var a, b, c := HookRun(0, OnReject(bob), 1), HookRun(0, OnApprove(ann), 2), HookRun(0, OnApprove(bob), 3);
    assert w''.db.hooks == [] + [a] + [b] + [c];
    TwoApprovals(a, b, c);
  }

  lemma TwoApprovals(a: HookRun, b: HookRun, c: HookRun)
    requires a.hook.OnReject? && b.hook.OnApprove? && b.request == 0 && c.hook.OnApprove? && c.request == 0
    ensures OnApproveRuns([] + [a] + [b] + [c], 0) == 2
  {
    FilterAppend(RunsOnApprove(0), [], a);
    FilterAppend(RunsOnApprove(0), [] + [a], b);
    FilterAppend(RunsOnApprove(0), [] + [a] + [b], c);
  }
}
