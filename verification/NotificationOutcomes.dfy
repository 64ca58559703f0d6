/**
 * What the notification relay makes of a row and of a notification it creates: how rows advance and when
 * they are given up, and that a notification whose transaction commits is pushed.
 */
module NotificationOutcomes {
  import opened Common
  import opened NotificationRelay

  // ---- How rows advance ----

  /** A pending row is dispatched as it is, or has one more failed attempt; the fifth gives it up. */
  predicate Advances(row: Row, row': Row) {
    && row.status == Pending
    && (row' == row.(status := Dispatched)
        || row' == row.(attempts := row.attempts + 1, status := if row.attempts < 4 then Pending else Dead))
  }

  // What a worker has written but not committed.
  ghost predicate UpdatesAdvance(rows: map<RowId, Row>, k: Worker) {
    forall id :: id in k.updates ==> id in rows && Advances(rows[id], k.updates[id])
  }

  ghost predicate AllAdvance(s: State) {
    forall w :: w in s.workers ==> UpdatesAdvance(s.rows, s.workers[w])
  }

  lemma FinishAdvances(s: State, step: Step)
    requires Enabled(s, step) && (step.Suppress? || step.Fail? || step.MarkSent?)
    requires OwnsRows(s.rows, s.workers[step.w]) && UpdatesAdvance(s.rows, s.workers[step.w])
    ensures UpdatesAdvance(s.rows, Next(s, step).workers[step.w])
  {
    var id := s.workers[step.w].todo[0];
    assert id in s.rows && s.rows[id].status == Pending;
  }

  lemma WorkerStillAdvances(s: State, step: Step, v: WorkerId)
    requires Enabled(s, step) && LocksExclusive(s) && AllAdvance(s) && v in Next(s, step).workers
    ensures UpdatesAdvance(Next(s, step).rows, Next(s, step).workers[v])
  {
    if v in s.workers {
      assert OwnsRows(s.rows, s.workers[v]) && UpdatesAdvance(s.rows, s.workers[v]);
    }
    if step.Commit? {
      CommitFrame(s, step.w, v);
    } else if (step.Suppress? || step.Fail? || step.MarkSent?) && v == step.w {
      FinishAdvances(s, step);
    }
  }

  lemma StepAdvances(s: State, step: Step)
    requires Enabled(s, step) && LocksExclusive(s) && AllAdvance(s)
    ensures AllAdvance(Next(s, step))
  {
    forall v | v in Next(s, step).workers
      ensures UpdatesAdvance(Next(s, step).rows, Next(s, step).workers[v])
    {
      WorkerStillAdvances(s, step, v);
    }
  }

  lemma {:induction false} RunAdvances(ss: seq<State>, steps: seq<Step>, i: nat)
    requires IsRun(ss, steps) && i < |ss|
    ensures AllAdvance(ss[i])
  {
    if i > 0 {
      RunAdvances(ss, steps, i - 1);
      RunKeepsInv(ss, steps, i - 1);
      StepAdvances(ss[i - 1], steps[i - 1]);
    }
  }

  /** A row changes only by a commit, and then it advances: only pending rows do, dispatched and dead ones stay. */
  lemma RowsAdvance(ss: seq<State>, steps: seq<Step>, i: nat, id: RowId)
    requires IsRun(ss, steps) && i < |steps| && id in ss[i].rows
    ensures id in ss[i + 1].rows
    ensures ss[i + 1].rows[id] == ss[i].rows[id] || (steps[i].Commit? && Advances(ss[i].rows[id], ss[i + 1].rows[id]))
  {
    RunAdvances(ss, steps, i);
    var step := steps[i];
    if step.Commit? {
      assert UpdatesAdvance(ss[i].rows, ss[i].workers[step.w]);
    }
  }

  /** A row is given up with exactly its fifth failed attempt. */
  lemma {:induction false} DeadAtFiveAttempts(ss: seq<State>, steps: seq<Step>, i: nat, id: RowId)
    requires IsRun(ss, steps) && i < |ss| && id in ss[i].rows
    ensures ss[i].rows[id].attempts <= 5
    ensures ss[i].rows[id].status == Dead <==> ss[i].rows[id].attempts == 5
  {
    var step := steps[i - 1];
    if id in ss[i - 1].rows {
      DeadAtFiveAttempts(ss, steps, i - 1, id);
      RowsAdvance(ss, steps, i - 1, id);
    } else {
      NewRowIsFresh(ss[i - 1], step, id);
      RunAdvances(ss, steps, i - 1);
    }
  }

  lemma NewRowIsFresh(s: State, step: Step, id: RowId)
    requires Enabled(s, step) && id !in s.rows && id in Next(s, step).rows
    ensures step.Commit? || Next(s, step).rows[id] == Row(Pending, 0, step.source)
    ensures step.Commit? ==> id in s.workers[step.w].updates
  {
  }

  // ---- A created notification is pushed ----

  function Actor(step: Step): Option<WorkerId> {
    match step
    case Schedule(_, _) => None
    case Push(_) => None
    case DropPush(_) => None
    case _ => Some(step.w)
  }

  lemma OthersLeaveWorker(s: State, step: Step, w: WorkerId)
    requires Enabled(s, step) && w in s.workers && Actor(step) != Some(w)
    ensures w in Next(s, step).workers && Next(s, step).workers[w] == s.workers[w]
  {
  }

  // The worker has just created the notification of its row.
  ghost predicate HasCreated(s: State, w: WorkerId, n: NotificationId) {
    w in s.workers && s.workers[w].phase == Sent(Some(n)) && s.workers[w].todo != []
  }

  // It is among the pushes the worker's commit will release.
  ghost predicate HoldsPush(s: State, w: WorkerId, n: NotificationId) {
    w in s.workers && n in s.workers[w].tasks
  }

  predicate EndsTransaction(step: Step, w: WorkerId) {
    step == LoseTransaction(w) || step == Vanish(w) || step == Commit(w)
  }

  lemma PushStaysHeld(s: State, step: Step, w: WorkerId, n: NotificationId)
    requires Enabled(s, step) && HoldsPush(s, w, n) && !EndsTransaction(step, w)
    ensures HoldsPush(Next(s, step), w, n)
  {
    if Actor(step) != Some(w) {
      OthersLeaveWorker(s, step, w);
    }
  }

  lemma {:induction false} StillCreated(ss: seq<State>, steps: seq<Step>, j: nat, k: nat, w: WorkerId,
                                        n: NotificationId)
    requires IsRun(ss, steps) && j <= k < |ss| && HasCreated(ss[j], w, n)
    requires forall i {:trigger steps[i]} :: j <= i < k ==> Actor(steps[i]) != Some(w)
    ensures HasCreated(ss[k], w, n)
  {
    if j < k {
      StillCreated(ss, steps, j, k - 1, w, n);
      var step := steps[k - 1];
      OthersLeaveWorker(ss[k - 1], step, w);
    }
  }

  lemma {:induction false} StillHeld(ss: seq<State>, steps: seq<Step>, k: nat, m: nat, w: WorkerId, n: NotificationId)
    requires IsRun(ss, steps) && k <= m < |ss| && HoldsPush(ss[k], w, n)
    requires forall i {:trigger steps[i]} :: k <= i < m ==> !EndsTransaction(steps[i], w)
    ensures HoldsPush(ss[m], w, n)
  {
    if k < m {
      StillHeld(ss, steps, k, m - 1, w, n);
      var step := steps[m - 1];
      PushStaysHeld(ss[m - 1], step, w, n);
    }
  }

  /**
   * A worker that creates a notification, marks its row sent next, and then commits without having lost its
   * transaction releases exactly one push of it.
   */
  lemma CreatedIsPushed(ss: seq<State>, steps: seq<Step>, j: nat, k: nat, m: nat, w: WorkerId)
    requires IsRun(ss, steps) && j < k < m < |steps|
    requires steps[j] == Create(w) && steps[k] == MarkSent(w) && steps[m] == Commit(w)
    requires forall i {:trigger steps[i]} :: j < i < k ==> Actor(steps[i]) != Some(w)
    requires forall i {:trigger steps[i]} :: k < i < m ==> !EndsTransaction(steps[i], w)
    ensures ss[m + 1].outbound[|ss[j].sources|] == 1
    ensures |ss[j].sources| < |ss[m + 1].sources|
  {
    var n := |ss[j].sources|;
    assert HasCreated(ss[j + 1], w, n);
    StillCreated(ss, steps, j + 1, k, w, n);
    assert HoldsPush(ss[k + 1], w, n);
    StillHeld(ss, steps, k + 1, m, w, n);
    RunKeepsInv(ss, steps, m + 1);
    assert PushUnique(ss[m + 1], n);
  }

  /** A push that is released waits until it is done or dropped: nothing else takes it away. */
  lemma ReleasedIsPushedOrDropped(ss: seq<State>, steps: seq<Step>, i: nat, n: NotificationId)
    requires IsRun(ss, steps) && i < |steps| && n in ss[i].outbound
    ensures n in ss[i + 1].outbound || (steps[i] == Push(n) && n in ss[i + 1].pushed) || steps[i] == DropPush(n)
  {
    RunKeepsInv(ss, steps, i);
    var step := steps[i];
  }
}
