/**
 * The life of a webhook delivery row: relay attempts with back-off, transactions that roll back
 * after the request was sent, and manual retries.
 */
module WebhookDelivery {

  datatype Status = Pending | Delivered | Failed

  datatype Delivery = Delivery(status: Status, attempts: nat, nextAttemptAt: int)

  const MAX_ATTEMPTS: nat := 5
  const RETRY_DELAYS_SECONDS: seq<int> := [60, 300, 900, 3600]

  function Created(at: int): Delivery {
    Delivery(Pending, 0, at)
  }

  /** The relay's query takes the row, given whether its subscription is still there and active. */
  predicate Fetchable(d: Delivery, subscribed: bool, now: int) {
    subscribed && d.status == Pending && d.attempts < MAX_ATTEMPTS && d.nextAttemptAt <= now
  }

  function Min(a: int, b: int): int {
    if a < b then a else b
  }

  function DelayMs(newAttempts: nat): int
    requires newAttempts > 0
  {
    RETRY_DELAYS_SECONDS[Min(newAttempts - 1, |RETRY_DELAYS_SECONDS| - 1)] * 1000
  }

  function AfterFailure(d: Delivery, now: int): Delivery {
    var newAttempts := d.attempts + 1;
    if newAttempts >= MAX_ATTEMPTS then Delivery(Failed, newAttempts, now)
    else Delivery(Pending, newAttempts, now + DelayMs(newAttempts))
  }

  function AfterManualRetry(d: Delivery, now: int): Delivery {
    d.(status := Pending, nextAttemptAt := now)
  }

  class DeliveryTable {
    var rows: map<nat, Delivery>  // by delivery id

    constructor ()
      ensures rows == map[]
    {
      rows := map[];
    }

    method MarkSent(id: nat)
      modifies this
      ensures rows == if id in old(rows) then old(rows)[id := old(rows)[id].(status := Delivered)] else old(rows)
    {
      if id in rows {
        rows := rows[id := rows[id].(status := Delivered)];
      }
    }

    method MarkFailed(id: nat, newAttempts: nat, newStatus: Status, now: int)
      requires newAttempts > 0
      modifies this
      ensures id !in old(rows) ==> rows == old(rows)
      ensures id in old(rows) ==> rows == old(rows)[id :=
                Delivery(newStatus, newAttempts, if newStatus == Failed then now else now + DelayMs(newAttempts))]
    {
      var slot := Min(newAttempts - 1, |RETRY_DELAYS_SECONDS| - 1);
      var delaySeconds := RETRY_DELAYS_SECONDS[slot];
      var nextAttemptAt := now + delaySeconds * 1000;
      if id in rows {
        rows := rows[id := Delivery(newStatus, newAttempts, if newStatus == Failed then now else nextAttemptAt)];
      }
    }

    /** What the relay does for one fetched row whose request failed at `now`. */
    method RelayFailure(id: nat, now: int)
      requires id in rows
      modifies this
      ensures rows == old(rows)[id := AfterFailure(old(rows)[id], now)]
    {
      var newAttempts := rows[id].attempts + 1;
      var newStatus := if newAttempts >= MAX_ATTEMPTS then Failed else Pending;
      MarkFailed(id, newAttempts, newStatus, now);
    }

    /** Returns false when there is no such delivery. */
    method RetryDelivery(id: nat, now: int) returns (found: bool)
      modifies this
      ensures found <==> id in old(rows)
      ensures rows == if found then old(rows)[id := AfterManualRetry(old(rows)[id], now)] else old(rows)
    {
      found := id in rows;
      if found {
        rows := rows[id := rows[id].(status := Pending, nextAttemptAt := now)];
      }
    }
  }

  // ---- Runs of one delivery ----

  datatype Outcome = Accepted | Refused | RolledBack

  datatype Op =
    | Attempt(at: int, ended: int, outcome: Outcome)  // fetched `at`, its transaction settled by `ended`
    | ManualRetry(at: int)
    | SetSubscribed(on: bool)  // its subscription is deactivated, deleted or active again

  // The row, the latest time seen, and whether its subscription is active.
  datatype State = State(row: Delivery, clock: int, subscribed: bool)

  predicate Legal(s: State, op: Op) {
    match op
    case Attempt(at, ended, _) => s.clock <= at <= ended && Fetchable(s.row, s.subscribed, at)
    case ManualRetry(at) => s.clock <= at
    case SetSubscribed(_) => true
  }

  function Next(s: State, op: Op): State {
    match op
    case Attempt(_, ended, Accepted) => s.(row := s.row.(status := Delivered), clock := ended)
    case Attempt(_, ended, Refused) => s.(row := AfterFailure(s.row, ended), clock := ended)
    case Attempt(_, ended, RolledBack) => s.(clock := ended)
    case ManualRetry(at) => s.(row := AfterManualRetry(s.row, at), clock := at)
    case SetSubscribed(on) => s.(subscribed := on)
  }

  ghost predicate IsRun(ss: seq<State>, ops: seq<Op>, createdAt: int) {
    && |ss| == |ops| + 1
    && ss[0] == State(Created(createdAt), createdAt, true)
    && forall i {:trigger ops[i]} :: 0 <= i < |ops| ==> Legal(ss[i], ops[i]) && ss[i + 1] == Next(ss[i], ops[i])
  }

  predicate Failure(op: Op) {
    op.Attempt? && op.outcome == Refused
  }

  /** Committed failures among the first n operations. */
  function Failures(ops: seq<Op>, n: nat): nat
    requires n <= |ops|
  {
    if n == 0 then 0 else Failures(ops, n - 1) + if Failure(ops[n - 1]) then 1 else 0
  }

  /** `attempts` counts the committed failures and stops at the cap, whatever is retried by hand. */
  lemma {:induction false} AttemptsCountFailures(ss: seq<State>, ops: seq<Op>, createdAt: int, n: nat)
    requires IsRun(ss, ops, createdAt) && n <= |ops|
    ensures ss[n].row.attempts == Failures(ops, n) <= MAX_ATTEMPTS
    ensures ss[n].row.status == Failed ==> Failures(ops, n) == MAX_ATTEMPTS
  {
    if n > 0 {
      AttemptsCountFailures(ss, ops, createdAt, n - 1);
      var op := ops[n - 1];
    }
  }

  /** Whether the subscription is active after the first n operations: it was when the delivery was created. */
  predicate SubscribedAfter(ops: seq<Op>, n: nat)
    requires n <= |ops|
  {
    if n == 0 then true
    else if ops[n - 1].SetSubscribed? then ops[n - 1].on
    else SubscribedAfter(ops, n - 1)
  }

  /** A delivery is due from its creation; an attempt is made only on a pending, due row of an active subscription. */
  lemma {:induction false} AttemptsAreDue(ss: seq<State>, ops: seq<Op>, createdAt: int, n: nat)
    requires IsRun(ss, ops, createdAt) && n <= |ops|
    ensures ss[n].subscribed == SubscribedAfter(ops, n)
    ensures ss[0].row.status == Pending && ss[0].row.nextAttemptAt == createdAt
    ensures n < |ops| && ops[n].Attempt? ==>
              SubscribedAfter(ops, n) && ss[n].row.status == Pending && ss[n].row.nextAttemptAt <= ops[n].at
  {
    if n > 0 {
      AttemptsAreDue(ss, ops, createdAt, n - 1);
      var op := ops[n - 1];
    }
  }

  /** Back-off before the attempt that follows c committed failures. */
  function TotalDelayMs(c: nat): int {
    if c == 0 then 0 else TotalDelayMs(c - 1) + DelayMs(c)
  }

  ghost predicate NoManualRetry(ops: seq<Op>) {
    forall i {:trigger ops[i]} :: 0 <= i < |ops| ==> !ops[i].ManualRetry?
  }

  // Without manual retries the schedule never falls behind the delays, and a failed row has waited for all of them.
  lemma {:induction false} ScheduleKeepsDelays(ss: seq<State>, ops: seq<Op>, createdAt: int, n: nat)
    requires IsRun(ss, ops, createdAt) && n <= |ops| && NoManualRetry(ops)
    ensures var s := ss[n];
            && s.row.attempts == Failures(ops, n) <= MAX_ATTEMPTS
            && (s.row.status == Failed <==> s.row.attempts == MAX_ATTEMPTS)
            && (s.row.status != Failed ==> createdAt + TotalDelayMs(s.row.attempts) <= s.row.nextAttemptAt)
            && (s.row.status == Failed ==> createdAt + TotalDelayMs(MAX_ATTEMPTS - 1) <= s.clock)
  {
    if n > 0 {
      ScheduleKeepsDelays(ss, ops, createdAt, n - 1);
      var op := ops[n - 1];
    }
  }

  /**
   * Back-off: without manual retries an attempt that follows c committed failures is made no earlier
   * than creation plus the first c delays, whether or not earlier attempts were rolled back.
   */
  lemma AttemptsWaitForBackoff(ss: seq<State>, ops: seq<Op>, createdAt: int, i: nat)
    requires IsRun(ss, ops, createdAt) && i < |ops| && NoManualRetry(ops)
    requires ops[i].Attempt?
    ensures Failures(ops, i) < 5
    ensures ops[i].at >= createdAt + [0, 60_000, 360_000, 1_260_000, 4_860_000][Failures(ops, i)]
  {
    ScheduleKeepsDelays(ss, ops, createdAt, i);
    var op := ops[i];
    assert TotalDelayMs(4) == TotalDelayMs(3) + 3_600_000 == TotalDelayMs(2) + 4_500_000;
    assert TotalDelayMs(2) == TotalDelayMs(1) + 300_000 == 360_000;
  }

  /**
   * What a committed attempt leaves: delivered, or one more failure and the wait that belongs to it, 1, 5, 15 or
   * 60 minutes from then, or failed with the fifth.
   */
  lemma AttemptSettles(ss: seq<State>, ops: seq<Op>, createdAt: int, i: nat)
    requires IsRun(ss, ops, createdAt) && i < |ops| && ops[i].Attempt?
    ensures Failures(ops, i) < 5
    ensures var before, after, failures := ss[i].row, ss[i + 1].row, Failures(ops, i) + 1;
            match ops[i].outcome
            case RolledBack => after == before
            case Accepted => after == before.(status := Delivered)
            case Refused =>
              && after.attempts == failures
              && (failures < 5 ==> after.status == Pending
                                   && after.nextAttemptAt == ops[i].ended + 60_000 * [1, 5, 15, 60][failures - 1])
              && (failures == 5 ==> after.status == Failed && after.nextAttemptAt == ops[i].ended)
  {
    AttemptsCountFailures(ss, ops, createdAt, i);
    var op := ops[i];
  }

  /** 'failed' takes exactly five committed failures and at least 4860 seconds. */
  lemma FailedTakesFiveFailures(ss: seq<State>, ops: seq<Op>, createdAt: int, n: nat)
    requires IsRun(ss, ops, createdAt) && n <= |ops| && NoManualRetry(ops)
    ensures ss[n].row.status == Failed <==> Failures(ops, n) == 5
    ensures ss[n].row.status == Failed ==> ss[n].clock - createdAt >= 4860 * 1000
  {
    ScheduleKeepsDelays(ss, ops, createdAt, n);
    assert TotalDelayMs(4) == TotalDelayMs(3) + 3600000 == TotalDelayMs(2) + 4500000;
    assert TotalDelayMs(2) == TotalDelayMs(1) + 300000 == 360000;
  }

  /**
   * A manual retry makes the delivery due exactly when its attempts, which are its failures so far, are
   * not used up: they are not reset. The service documents it as the way to retry a failed delivery.
   */
  lemma ManualRetryWorksIff(ss: seq<State>, ops: seq<Op>, createdAt: int, i: nat, later: int)
    requires IsRun(ss, ops, createdAt) && i < |ops| && ops[i].ManualRetry? && ops[i].at <= later
    ensures Fetchable(ss[i + 1].row, true, later) <==> ss[i].row.attempts < MAX_ATTEMPTS
    ensures Fetchable(ss[i + 1].row, true, later) <==> Failures(ops, i) != 5
    ensures ss[i + 1].row == ss[i].row.(status := Pending, nextAttemptAt := ops[i].at)
  {
    AttemptsCountFailures(ss, ops, createdAt, i);
    var op := ops[i];
  }

  /** Hence a delivery that has failed is never attempted again, whatever is retried. */
  lemma {:induction false} FailedIsNeverAttempted(ss: seq<State>, ops: seq<Op>, createdAt: int, i: nat, j: nat)
    requires IsRun(ss, ops, createdAt) && i <= j < |ops|
    requires ss[i].row.status == Failed
    ensures !ops[j].Attempt?
    ensures ss[j].row.attempts == MAX_ATTEMPTS
  {
    if i == j {
      AttemptsCountFailures(ss, ops, createdAt, i);
    } else {
      FailedIsNeverAttempted(ss, ops, createdAt, i, j - 1);
    }
  }

  /** The retry that does not retry: five refusals, a manual retry, and the row is pending but never due. */
  lemma RetryOfFailedWitness() returns (ss: seq<State>, ops: seq<Op>)
    ensures IsRun(ss, ops, 0) && |ops| == 6 && ops[5] == ManualRetry(5000000)
    ensures ss[5].row.status == Failed && ss[6].row.status == Pending
    ensures forall later :: !Fetchable(ss[6].row, true, later)
  {
    ops := [Attempt(0, 0, Refused), Attempt(60000, 60000, Refused), Attempt(360000, 360000, Refused),
            Attempt(1260000, 1260000, Refused), Attempt(4860000, 4860000, Refused), ManualRetry(5000000)];
    var s0 := State(Created(0), 0, true);
    var s1 := Next(s0, ops[0]);
    var s2 := Next(s1, ops[1]);
    var s3 := Next(s2, ops[2]);
    var s4 := Next(s3, ops[3]);
    var s5 := Next(s4, ops[4]);
    ss := [s0, s1, s2, s3, s4, s5, Next(s5, ops[5])];
  }
}
