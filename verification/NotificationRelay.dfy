/**
 * In-app notifications over the outbox: any number of relay workers, SKIP LOCKED batches, a send
 * that commits on its own connection, and transactions that can be lost at any moment.
 *
 * A worker whose transaction is lost does not know it yet: the await it is in goes on, so it may
 * still check for and create the notification of its current row while another worker has the row.
 */
module NotificationRelay {
  import opened Common

  type RowId = nat
  type WorkerId = nat
  type SourceId = string
  type NotificationId = nat

  datatype Status = Pending | Dispatched | Dead

  // `source` is the row's idempotency key, or its id if it has none.
  datatype Row = Row(status: Status, attempts: nat, source: SourceId)

  const MAX_ATTEMPTS: nat := 5

  /** in_app_notifications: written outside the relay's transaction, with a unique index on the source. */
  class NotificationTable {
    var sources: seq<SourceId>  // by notification id

    constructor ()
      ensures sources == []
    {
      sources := [];
    }

    method ExistsBySourceEventId(source: SourceId) returns (exists': bool)
      ensures exists' <==> source in sources
    {
      exists' := false;
      for i := 0 to |sources|
        invariant exists' <==> source in sources[..i]
      {
        if sources[i] == source {
          exists' := true;
        }
      }
      assert sources[..|sources|] == sources;
    }

    /** None when the insert violates the unique index. */
    method Create(source: SourceId) returns (id: Option<NotificationId>)
      modifies this
      ensures source in old(sources) ==> id == None && sources == old(sources)
      ensures source !in old(sources) ==> id == Some(|old(sources)|) && sources == old(sources) + [source]
    {
      var taken := ExistsBySourceEventId(source);
      if taken {
        return None;
      }
      id := Some(|sources|);
      sources := sources + [source];
    }

    /** One uninterrupted send: a second one for the same source is silently skipped. */
    method Send(source: SourceId) returns (id: Option<NotificationId>)
      modifies this
      ensures source in sources && old(sources) <= sources
      ensures id.Some? <==> source !in old(sources)
      ensures sources == if id.Some? then old(sources) + [source] else old(sources)
    {
      var exists' := ExistsBySourceEventId(source);
      if exists' {
        return None;
      }
      id := Create(source);
    }
  }

  // ---- The protocol ----

  // Where a worker is with its current row: before processRow, after the existence check, after the
  // send (with the post-commit push it produced, if any).
  datatype Phase = Ready | Checked(existed: bool) | Sent(task: Option<NotificationId>)

  // A worker inside relay(). `updates` are its uncommitted row updates, `suppressed` the rows among
  // them that a preference suppressed; `live` is false once its transaction, and with it its row
  // locks, is gone.
  datatype Worker = Worker(
    live: bool,
    locked: set<RowId>,
    todo: seq<RowId>,
    phase: Phase,
    updates: map<RowId, Row>,
    suppressed: set<RowId>,
    tasks: multiset<NotificationId>)

  datatype State = State(
    rows: map<RowId, Row>,
    sources: seq<SourceId>,               // notifications, by id
    optedOut: set<RowId>,                 // rows committed as dispatched because a preference suppressed them
    workers: map<WorkerId, Worker>,
    outbound: multiset<NotificationId>,   // post-commit tasks not yet run
    pushed: multiset<NotificationId>)

  const EMPTY := State(map[], [], {}, map[], multiset{}, multiset{})

  datatype Step =
    | Schedule(id: RowId, source: SourceId)
    | Begin(w: WorkerId, batch: seq<RowId>)
    | Suppress(w: WorkerId)
    | Check(w: WorkerId)
    | Create(w: WorkerId)
    | Fail(w: WorkerId)      // processRow throws: a failed query, or the unique index
    | MarkSent(w: WorkerId)
    | Commit(w: WorkerId)
    | LoseTransaction(w: WorkerId)
    | Vanish(w: WorkerId)    // relay() rejects, or the process dies
    | Push(n: NotificationId)
    | DropPush(n: NotificationId)

  predicate Unlocked(s: State, id: RowId) {
    forall w :: w in s.workers && s.workers[w].live ==> id !in s.workers[w].locked
  }

  predicate Busy(s: State, w: WorkerId, phase: Phase) {
    w in s.workers && s.workers[w].todo != [] && s.workers[w].phase == phase
  }

  predicate Enabled(s: State, step: Step) {
    match step
    case Schedule(id, _) => id !in s.rows
    case Begin(w, batch) =>
      && w !in s.workers && Distinct(batch)
      && forall id :: id in batch ==>
           id in s.rows && s.rows[id].status == Pending && s.rows[id].attempts < MAX_ATTEMPTS && Unlocked(s, id)
    case Suppress(w) => Busy(s, w, Ready) && s.workers[w].live
    case Check(w) => Busy(s, w, Ready)
    case Create(w) => Busy(s, w, Checked(false)) && Current(s, w).source !in s.sources
    case Fail(w) => w in s.workers && s.workers[w].todo != [] && s.workers[w].live && !s.workers[w].phase.Sent?
    case MarkSent(w) =>
      (Busy(s, w, Checked(true)) || (w in s.workers && s.workers[w].todo != [] && s.workers[w].phase.Sent?))
      && s.workers[w].live
    case Commit(w) => w in s.workers && s.workers[w].live && s.workers[w].todo == [] && s.workers[w].phase == Ready
    case LoseTransaction(w) => w in s.workers && s.workers[w].live
    case Vanish(w) => w in s.workers
    case Push(n) => n in s.outbound
    case DropPush(n) => n in s.outbound
  }

  // The row worker `w` is on, as it read it.
  function Current(s: State, w: WorkerId): Row
    requires w in s.workers && s.workers[w].todo != []
  {
    var id := s.workers[w].todo[0];
    if id in s.rows then s.rows[id] else Row(Pending, 0, "")
  }

  /** The worker after finishing its current row with `row`. */
  function Finish(k: Worker, row: Row, task: Option<NotificationId>): Worker
    requires k.todo != []
  {
    k.(todo := k.todo[1..], phase := Ready, updates := k.updates[k.todo[0] := row],
       tasks := if task.Some? then k.tasks + multiset{task.value} else k.tasks)
  }

  function Failed(row: Row): Row {
    var newAttempts := row.attempts + 1;
    row.(attempts := newAttempts, status := if newAttempts >= MAX_ATTEMPTS then Dead else Pending)
  }

  function SetWorker(s: State, w: WorkerId, k: Worker): State {
    s.(workers := s.workers[w := k])
  }

  function Next(s: State, step: Step): State
    requires Enabled(s, step)
  {
    match step
    case Schedule(id, source) =>  // a duplicate idempotency key is skipped on conflict
      if exists r :: r in s.rows && s.rows[r].source == source then s
      else s.(rows := s.rows[id := Row(Pending, 0, source)])
    case Begin(w, batch) =>
      SetWorker(s, w, Worker(true, (set id | id in batch), batch, Ready, map[], {}, multiset{}))
    case Suppress(w) =>
      var k := s.workers[w];
      var row := Current(s, w).(status := Dispatched);
      SetWorker(s, w, Finish(k, row, None).(suppressed := k.suppressed + {k.todo[0]}))
    case Check(w) =>
      SetWorker(s, w, s.workers[w].(phase := Checked(Current(s, w).source in s.sources)))
    case Create(w) =>
      SetWorker(s, w, s.workers[w].(phase := Sent(Some(|s.sources|)))).(sources := s.sources + [Current(s, w).source])
    case Fail(w) =>
      SetWorker(s, w, Finish(s.workers[w], Failed(Current(s, w)), None))
    case MarkSent(w) =>
      var k := s.workers[w];
      SetWorker(s, w, Finish(k, Current(s, w).(status := Dispatched), if k.phase.Sent? then k.phase.task else None))
    case Commit(w) =>
      var k := s.workers[w];
      s.(rows := s.rows + k.updates, optedOut := s.optedOut + k.suppressed, workers := s.workers - {w},
         outbound := s.outbound + k.tasks)
    case LoseTransaction(w) =>
      SetWorker(s, w,
                s.workers[w].(live := false, locked := {}, updates := map[], suppressed := {}, tasks := multiset{}))
    case Vanish(w) =>
      s.(workers := s.workers - {w})
    case Push(n) =>
      s.(outbound := s.outbound - multiset{n}, pushed := s.pushed + multiset{n})
    case DropPush(n) =>
      s.(outbound := s.outbound - multiset{n})
  }

  ghost predicate IsRun(ss: seq<State>, steps: seq<Step>) {
    && |ss| == |steps| + 1
    && ss[0] == EMPTY
    && forall i {:trigger steps[i]} :: 0 <= i < |steps| ==>
         Enabled(ss[i], steps[i]) && ss[i + 1] == Next(ss[i], steps[i])
  }

  // ---- What every step keeps ----

  // One notification per source, one row per source.
  ghost predicate SourcesUnique(s: State) {
    && (forall i, j :: 0 <= i < j < |s.sources| ==> s.sources[i] != s.sources[j])
    && (forall r, q :: r in s.rows && q in s.rows && s.rows[r].source == s.rows[q].source ==> r == q)
  }

  // A live worker has its rows to itself: they are pending until it commits, and what it has
  // written for those it finished keeps their source.
  ghost predicate OwnsRows(rows: map<RowId, Row>, k: Worker) {
    && (forall id :: id in k.todo ==> id in rows)
    && Distinct(k.todo)
    && (k.live ==>
          && (forall id :: id in k.todo ==> id in k.locked && id !in k.updates)
          && (forall id :: id in k.updates ==> id in k.locked)
          && (forall id :: id in k.locked ==> id in rows && rows[id].status == Pending)
          && (forall id :: id in k.updates && id in rows ==> k.updates[id].source == rows[id].source))
    && (!k.live ==> k.locked == {} && k.updates == map[] && k.tasks == multiset{})
    && (k.phase.Sent? ==> k.todo != [])
  }

  ghost predicate LocksExclusive(s: State) {
    && (forall w :: w in s.workers ==> OwnsRows(s.rows, s.workers[w]))
    && (forall w, v :: w in s.workers && v in s.workers && w != v ==> s.workers[w].locked !! s.workers[v].locked)
  }

  ghost predicate Delivered(id: RowId, row: Row, suppressed: set<RowId>, sources: seq<SourceId>) {
    row.status == Dispatched ==> id in suppressed || row.source in sources
  }

  ghost predicate WorkerDelivers(s: State, k: Worker) {
    && (forall id :: id in k.updates ==> Delivered(id, k.updates[id], k.suppressed, s.sources))
    && (k.todo != [] && k.todo[0] in s.rows && (k.phase == Checked(true) || k.phase.Sent?) ==>
          s.rows[k.todo[0]].source in s.sources)
  }

  // Dispatched means suppressed or notified, for committed rows and uncommitted updates alike.
  ghost predicate DispatchedIsDelivered(s: State) {
    && (forall id :: id in s.rows ==> Delivered(id, s.rows[id], s.optedOut, s.sources))
    && (forall w :: w in s.workers ==> WorkerDelivers(s, s.workers[w]))
  }

  // How many pushes of notification n worker k is holding.
  function Held(k: Worker, n: NotificationId): nat {
    k.tasks[n] + if k.phase == Sent(Some(n)) then 1 else 0
  }

  // At most one push of each notification exists anywhere: held by a worker, waiting, or done.
  ghost predicate PushUnique(s: State, n: NotificationId) {
    && s.outbound[n] + s.pushed[n] <= 1
    && (n >= |s.sources| ==> s.outbound[n] + s.pushed[n] == 0)
    && (forall w :: w in s.workers && Held(s.workers[w], n) > 0 ==>
          Held(s.workers[w], n) == 1 && n < |s.sources| && s.outbound[n] + s.pushed[n] == 0)
    && (forall w, v :: w in s.workers && v in s.workers && w != v && Held(s.workers[w], n) > 0 ==>
          Held(s.workers[v], n) == 0)
  }

  ghost predicate PushesUnique(s: State) {
    forall n: NotificationId :: PushUnique(s, n)
  }

  ghost predicate CommittedFor(rows: map<RowId, Row>, source: SourceId) {
    exists id :: id in rows && rows[id].source == source && rows[id].status == Dispatched
  }

  // A push that is waiting or done has its outbox row committed as dispatched; one a worker holds
  // has it among the worker's uncommitted updates.
  ghost predicate PushFollowsCommit(s: State, n: NotificationId) {
    && n < |s.sources|
    && (s.outbound[n] + s.pushed[n] > 0 ==> CommittedFor(s.rows, s.sources[n]))
    && (forall w :: w in s.workers && s.workers[w].tasks[n] > 0 ==> CommittedFor(s.workers[w].updates, s.sources[n]))
    && (forall w :: w in s.workers && s.workers[w].phase == Sent(Some(n)) ==>
          && s.workers[w].todo != [] && s.workers[w].todo[0] in s.rows
          && s.rows[s.workers[w].todo[0]].source == s.sources[n])
  }

  ghost predicate PushesFollowCommit(s: State) {
    forall n: NotificationId :: n < |s.sources| ==> PushFollowsCommit(s, n)
  }

  // Dispatched rows stay; locked rows change only by their own worker's commit.
  lemma CommitFrame(s: State, w: WorkerId, v: WorkerId)
    requires LocksExclusive(s) && Enabled(s, Commit(w))
    requires v in s.workers && v != w
    ensures forall id :: id in s.workers[v].locked ==> id !in s.workers[w].updates
    ensures forall id :: id in s.rows ==>
              id in Next(s, Commit(w)).rows && Next(s, Commit(w)).rows[id].source == s.rows[id].source
  {
    assert OwnsRows(s.rows, s.workers[w]) && OwnsRows(s.rows, s.workers[v]);
    assert s.workers[w].locked !! s.workers[v].locked;
  }

  lemma SourcesStayUnique(s: State, step: Step)
    requires Enabled(s, step) && SourcesUnique(s) && LocksExclusive(s)
    ensures SourcesUnique(Next(s, step))
  {
    if step.Commit? {
      var k := s.workers[step.w];
      assert OwnsRows(s.rows, k);
    }
  }

  lemma WorkerStillOwns(s: State, step: Step, v: WorkerId)
    requires Enabled(s, step) && LocksExclusive(s)
    requires v in Next(s, step).workers
    ensures OwnsRows(Next(s, step).rows, Next(s, step).workers[v])
  {
    if v in s.workers {
      assert OwnsRows(s.rows, s.workers[v]);
    }
    if step.Commit? {
      CommitFrame(s, step.w, v);
    } else if step.Suppress? || step.Fail? || step.MarkSent? {
      if v == step.w {
        FinisherStillOwns(s, step);
      }
    }
  }

  lemma FinisherStillOwns(s: State, step: Step)
    requires Enabled(s, step) && (step.Suppress? || step.Fail? || step.MarkSent?)
    requires OwnsRows(s.rows, s.workers[step.w])
    ensures OwnsRows(Next(s, step).rows, Next(s, step).workers[step.w])
  {
  }

  lemma LocksStayExclusive(s: State, step: Step)
    requires Enabled(s, step) && LocksExclusive(s)
    ensures LocksExclusive(Next(s, step))
  {
    forall v | v in Next(s, step).workers
      ensures OwnsRows(Next(s, step).rows, Next(s, step).workers[v])
    {
      WorkerStillOwns(s, step, v);
    }
    LocksStayDisjoint(s, step);
  }

  lemma LocksStayDisjoint(s: State, step: Step)
    requires Enabled(s, step) && LocksExclusive(s)
    ensures var s' := Next(s, step);
            forall w, v :: w in s'.workers && v in s'.workers && w != v ==> s'.workers[w].locked !! s'.workers[v].locked
  {
    if step.Begin? {
      forall v | v in s.workers
        ensures s.workers[v].locked !! Next(s, step).workers[step.w].locked
      {
        assert OwnsRows(s.rows, s.workers[v]);
      }
    } else {
      forall v | v in Next(s, step).workers
        ensures v in s.workers && Next(s, step).workers[v].locked <= s.workers[v].locked
      {
      }
    }
  }

  lemma WorkerStillDelivers(s: State, step: Step, v: WorkerId)
    requires Enabled(s, step) && LocksExclusive(s) && DispatchedIsDelivered(s)
    requires v in Next(s, step).workers
    ensures WorkerDelivers(Next(s, step), Next(s, step).workers[v])
  {
    if v in s.workers {
      assert OwnsRows(s.rows, s.workers[v]) && WorkerDelivers(s, s.workers[v]);
    }
    if step.Commit? {
      CommitFrame(s, step.w, v);
    } else if step.Suppress? || step.Fail? || step.MarkSent? {
      if v == step.w {
        FinisherStillDelivers(s, step);
      }
    }
  }

  lemma FinisherStillDelivers(s: State, step: Step)
    requires Enabled(s, step) && (step.Suppress? || step.Fail? || step.MarkSent?)
    requires OwnsRows(s.rows, s.workers[step.w]) && WorkerDelivers(s, s.workers[step.w])
    ensures WorkerDelivers(Next(s, step), Next(s, step).workers[step.w])
  {
  }

  lemma DispatchedStaysDelivered(s: State, step: Step)
    requires Enabled(s, step) && LocksExclusive(s) && DispatchedIsDelivered(s)
    ensures DispatchedIsDelivered(Next(s, step))
  {
    forall v | v in Next(s, step).workers
      ensures WorkerDelivers(Next(s, step), Next(s, step).workers[v])
    {
      WorkerStillDelivers(s, step, v);
    }
    if step.Commit? {
      assert WorkerDelivers(s, s.workers[step.w]);
    }
  }

  // A worker that holds no more than before changes nothing about uniqueness.
  lemma HoldingLessStaysUnique(s: State, s': State, w: WorkerId, k: Worker, n: NotificationId)
    requires PushUnique(s, n)
    requires s'.workers == s.workers[w := k] && s'.outbound == s.outbound && s'.pushed == s.pushed
    requires |s'.sources| >= |s.sources|
    requires Held(k, n) <= if w in s.workers then Held(s.workers[w], n) else 0
    ensures PushUnique(s', n)
  {
  }

  lemma CommitStaysUnique(s: State, w: WorkerId, n: NotificationId)
    requires Enabled(s, Commit(w)) && PushUnique(s, n)
    ensures PushUnique(Next(s, Commit(w)), n)
  {
    assert Held(s.workers[w], n) == s.workers[w].tasks[n];
  }

  lemma CreateStaysUnique(s: State, w: WorkerId, n: NotificationId)
    requires Enabled(s, Create(w)) && PushUnique(s, n)
    ensures PushUnique(Next(s, Create(w)), n)
  {
    var s' := Next(s, Create(w));
    if n != |s.sources| {
      HoldingLessStaysUnique(s, s', w, s'.workers[w], n);
    } else {
      assert forall v :: v in s.workers ==> Held(s.workers[v], n) == 0;
    }
  }

  lemma WorkerStepStaysUnique(s: State, step: Step, w: WorkerId, n: NotificationId)
    requires Enabled(s, step) && PushUnique(s, n)
    requires (step.Begin? && step.w == w) || step in {Suppress(w), Check(w), Fail(w), MarkSent(w), LoseTransaction(w)}
    ensures PushUnique(Next(s, step), n)
  {
    var s' := Next(s, step);
    assert Held(s'.workers[w], n) <= if w in s.workers then Held(s.workers[w], n) else 0;
    HoldingLessStaysUnique(s, s', w, s'.workers[w], n);
  }

  lemma OtherStepStaysUnique(s: State, step: Step, n: NotificationId)
    requires Enabled(s, step) && PushUnique(s, n)
    requires step.Schedule? || step.Push? || step.DropPush? || step.Vanish?
    ensures PushUnique(Next(s, step), n)
  {
  }

  lemma PushStaysUnique(s: State, step: Step, n: NotificationId)
    requires Enabled(s, step) && PushUnique(s, n)
    ensures PushUnique(Next(s, step), n)
  {
    if step.Schedule? || step.Push? || step.DropPush? || step.Vanish? {
      OtherStepStaysUnique(s, step, n);
    } else if step.Commit? {
      CommitStaysUnique(s, step.w, n);
    } else if step.Create? {
      CreateStaysUnique(s, step.w, n);
    } else {
      WorkerStepStaysUnique(s, step, step.w, n);
    }
  }

  // Finishing a row never overwrites an update: the row was still to do.
  lemma FinishKeepsUpdates(s: State, w: WorkerId, row: Row, task: Option<NotificationId>, source: SourceId)
    requires w in s.workers && s.workers[w].live && s.workers[w].todo != [] && OwnsRows(s.rows, s.workers[w])
    requires CommittedFor(s.workers[w].updates, source)
    ensures CommittedFor(Finish(s.workers[w], row, task).updates, source)
  {
    var updates := s.workers[w].updates;
    var id :| id in updates && updates[id].source == source && updates[id].status == Dispatched;
    assert id in Finish(s.workers[w], row, task).updates;
  }

  lemma SentIsCommittedFor(s: State, w: WorkerId, n: NotificationId)
    requires Enabled(s, MarkSent(w)) && LocksExclusive(s)
    requires PushFollowsCommit(s, n)
    ensures PushFollowsCommit(Next(s, MarkSent(w)), n)
  {
    var k := s.workers[w];
    var k' := Next(s, MarkSent(w)).workers[w];
    assert OwnsRows(s.rows, k);
    if k'.tasks[n] > 0 {
      if k.tasks[n] > 0 {
        var task := if k.phase.Sent? then k.phase.task else None;
        FinishKeepsUpdates(s, w, Current(s, w).(status := Dispatched), task, s.sources[n]);
      } else {
        assert k.phase == Sent(Some(n));
        assert k.todo[0] in k'.updates && k'.updates[k.todo[0]].source == s.sources[n];
      }
    }
  }

  lemma CommitPublishes(s: State, w: WorkerId, n: NotificationId)
    requires Enabled(s, Commit(w)) && LocksExclusive(s)
    requires PushFollowsCommit(s, n)
    ensures PushFollowsCommit(Next(s, Commit(w)), n)
  {
    var s' := Next(s, Commit(w));
    var k := s.workers[w];
    assert OwnsRows(s.rows, k);
    if k.tasks[n] > 0 {
      var id :| id in k.updates && k.updates[id].source == s.sources[n] && k.updates[id].status == Dispatched;
      assert s'.rows[id] == k.updates[id];
    } else if s.outbound[n] + s.pushed[n] > 0 {
      var id :| id in s.rows && s.rows[id].source == s.sources[n] && s.rows[id].status == Dispatched;
      assert id !in k.updates && s'.rows[id] == s.rows[id];
    }
  }

  lemma ScheduleKeepsCommitted(s: State, id: RowId, source: SourceId, n: NotificationId)
    requires Enabled(s, Schedule(id, source)) && LocksExclusive(s)
    requires PushFollowsCommit(s, n)
    ensures PushFollowsCommit(Next(s, Schedule(id, source)), n)
  {
    var s' := Next(s, Schedule(id, source));
    if CommittedFor(s.rows, s.sources[n]) {
      var q :| q in s.rows && s.rows[q].source == s.sources[n] && s.rows[q].status == Dispatched;
      assert s'.rows[q] == s.rows[q];
    }
  }

  // A worker finished a row without a push.
  lemma FinishStillFollowsCommit(s: State, s': State, w: WorkerId, row: Row, n: NotificationId)
    requires w in s.workers && s.workers[w].live && s.workers[w].todo != [] && OwnsRows(s.rows, s.workers[w])
    requires w in s'.workers && s' == SetWorker(s, w, s'.workers[w])
    requires s'.workers[w].(suppressed := {}) == Finish(s.workers[w], row, None).(suppressed := {})
    requires PushFollowsCommit(s, n)
    ensures PushFollowsCommit(s', n)
  {
    if s.workers[w].tasks[n] > 0 {
      FinishKeepsUpdates(s, w, row, None, s.sources[n]);
    }
  }

  lemma OtherStepStillFollowsCommit(s: State, step: Step, n: NotificationId)
    requires Enabled(s, step) && PushFollowsCommit(s, n)
    requires step.Begin? || step.Push? || step.DropPush? || step.Vanish? || step.Create? || step.Check?
             || step.LoseTransaction?
    ensures PushFollowsCommit(Next(s, step), n)
  {
  }

  lemma PushStillFollowsCommit(s: State, step: Step, n: NotificationId)
    requires Enabled(s, step) && LocksExclusive(s) && PushFollowsCommit(s, n)
    ensures PushFollowsCommit(Next(s, step), n)
  {
    if step.Schedule? {
      ScheduleKeepsCommitted(s, step.id, step.source, n);
    } else if step.Commit? {
      CommitPublishes(s, step.w, n);
    } else if step.MarkSent? {
      SentIsCommittedFor(s, step.w, n);
    } else if step.Suppress? {
      FinishStillFollowsCommit(s, Next(s, step), step.w, Current(s, step.w).(status := Dispatched), n);
    } else if step.Fail? {
      FinishStillFollowsCommit(s, Next(s, step), step.w, Failed(Current(s, step.w)), n);
    } else {
      OtherStepStillFollowsCommit(s, step, n);
    }
  }

  lemma PushesStillFollowCommit(s: State, step: Step)
    requires Enabled(s, step) && LocksExclusive(s) && PushesUnique(s) && PushesFollowCommit(s)
    ensures PushesFollowCommit(Next(s, step))
  {
    forall n: NotificationId | n < |Next(s, step).sources|
      ensures PushFollowsCommit(Next(s, step), n)
    {
      if n < |s.sources| {
        assert PushFollowsCommit(s, n);
        PushStillFollowsCommit(s, step, n);
      } else {
        // The notification Create just made: nobody else can hold a push of it.
        assert step.Create? && n == |s.sources|;
        assert PushUnique(s, n);
        assert OwnsRows(s.rows, s.workers[step.w]);
        assert forall v :: v in s.workers ==> Held(s.workers[v], n) == 0;
      }
    }
  }

  // ---- The protocol's guarantees ----

  ghost predicate Inv(s: State) {
    SourcesUnique(s) && LocksExclusive(s) && DispatchedIsDelivered(s) && PushesUnique(s) && PushesFollowCommit(s)
  }

  lemma {:induction false} RunKeepsInv(ss: seq<State>, steps: seq<Step>, i: nat)
    requires IsRun(ss, steps) && i < |ss|
    ensures Inv(ss[i])
  {
    if i > 0 {
      RunKeepsInv(ss, steps, i - 1);
      var s, step := ss[i - 1], steps[i - 1];
      SourcesStayUnique(s, step);
      LocksStayExclusive(s, step);
      DispatchedStaysDelivered(s, step);
      PushesStillFollowCommit(s, step);
      forall n: NotificationId
        ensures PushUnique(Next(s, step), n)
      {
        assert PushUnique(s, n);
        PushStaysUnique(s, step, n);
      }
    }
  }

  /** Every source event has at most one notification. */
  lemma AtMostOneNotification(ss: seq<State>, steps: seq<Step>, i: nat, m: NotificationId, n: NotificationId)
    requires IsRun(ss, steps) && i < |ss| && m < n < |ss[i].sources|
    ensures ss[i].sources[m] != ss[i].sources[n]
  {
    RunKeepsInv(ss, steps, i);
  }

  /** A row committed as dispatched was suppressed by a preference or has its one notification. */
  lemma DispatchedRowsAreNotified(ss: seq<State>, steps: seq<Step>, i: nat, id: RowId)
    requires IsRun(ss, steps) && i < |ss|
    requires id in ss[i].rows && ss[i].rows[id].status == Dispatched
    ensures id in ss[i].optedOut || multiset(ss[i].sources)[ss[i].rows[id].source] == 1
  {
    RunKeepsInv(ss, steps, i);
    if id !in ss[i].optedOut {
      var n :| 0 <= n < |ss[i].sources| && ss[i].sources[n] == ss[i].rows[id].source;
      CountsOnce(ss[i].sources, n);
    }
  }

  lemma CountsOnce(sources: seq<SourceId>, n: nat)
    requires n < |sources|
    requires forall i, j :: 0 <= i < j < |sources| ==> sources[i] != sources[j]
    ensures multiset(sources)[sources[n]] == 1
  {
    assert sources == sources[..n] + [sources[n]] + sources[n + 1..];
    assert sources[n] !in sources[..n] && sources[n] !in sources[n + 1..];
  }

  /** A notification is pushed at most once, and only after its outbox row is committed as dispatched. */
  lemma PushedOnceAfterCommit(ss: seq<State>, steps: seq<Step>, i: nat, n: NotificationId)
    requires IsRun(ss, steps) && i < |ss|
    ensures ss[i].pushed[n] <= 1
    ensures n in ss[i].pushed ==> n < |ss[i].sources| && CommittedFor(ss[i].rows, ss[i].sources[n])
  {
    RunKeepsInv(ss, steps, i);
    assert PushUnique(ss[i], n);
    if n in ss[i].pushed {
      assert PushFollowsCommit(ss[i], n);
    }
  }
}
