/**
 * The email relay: which rows one pass takes, what it does to them, and how long a due row can be
 * held up by rows ahead of it that keep failing.
 */
module EmailRelay {
  import opened Common

  datatype Status = Pending | Sent | Failed

  datatype Row = Row(status: Status, attempts: nat, scheduledAt: int)

  datatype Config = Config(maxAttempts: nat, batchSize: nat)

  // The base class's settings, which the email relay keeps.
  const DEFAULTS := Config(5, 50)

  // A row id is its position in the table: rows are only ever appended.
  type Table = seq<Row>

  predicate Fetchable(row: Row, now: int, cfg: Config) {
    row.status == Pending && row.attempts < cfg.maxAttempts && row.scheduledAt <= now
  }

  predicate InTable(rows: Table, ids: seq<nat>) {
    forall k :: 0 <= k < |ids| ==> ids[k] < |rows|
  }

  /**
   * A result the query may return: fetchable rows, earliest first, at most batchSize of them, and
   * every fetchable row left out is no earlier than the ones taken. Ties come in any order.
   */
  predicate IsBatch(rows: Table, now: int, batch: seq<nat>, cfg: Config) {
    && |batch| <= cfg.batchSize
    && Distinct(batch)
    && InTable(rows, batch)
    && (forall k :: 0 <= k < |batch| ==> Fetchable(rows[batch[k]], now, cfg))
    && (forall j, k :: 0 <= j < k < |batch| ==> rows[batch[j]].scheduledAt <= rows[batch[k]].scheduledAt)
    && (forall i :: 0 <= i < |rows| && Fetchable(rows[i], now, cfg) && i !in batch ==>
          |batch| == cfg.batchSize && NoLaterThan(rows, batch, rows[i].scheduledAt))
  }

  predicate NoLaterThan(rows: Table, batch: seq<nat>, at: int)
    requires InTable(rows, batch)
  {
    forall k :: 0 <= k < |batch| ==> rows[batch[k]].scheduledAt <= at
  }

  /** The row after its send succeeded or threw. */
  function Processed(row: Row, ok: bool, cfg: Config): Row {
    if ok then row.(status := Sent)
    else row.(attempts := row.attempts + 1, status := if row.attempts + 1 >= cfg.maxAttempts then Failed else Pending)
  }

  /** The table after the first n rows of `batch`; `oks` says which sends succeeded. */
  function AfterFirst(rows: Table, batch: seq<nat>, oks: seq<bool>, n: nat, cfg: Config): (rows': Table)
    requires n <= |batch| == |oks| && InTable(rows, batch)
    ensures |rows'| == |rows|
  {
    if n == 0 then rows
    else
      var before := AfterFirst(rows, batch, oks, n - 1, cfg);
      before[batch[n - 1] := Processed(before[batch[n - 1]], oks[n - 1], cfg)]
  }

  class EmailOutbox {
    const cfg: Config
    var rows: Table

    constructor (cfg: Config)
      ensures this.cfg == cfg && rows == []
    {
      this.cfg := cfg;
      rows := [];
    }

    method Schedule(at: int)
      modifies this
      ensures rows == old(rows) + [Row(Pending, 0, at)]
    {
      rows := rows + [Row(Pending, 0, at)];
    }

    /** One order the query may answer in: repeatedly the earliest row not taken yet. */
    method FetchBatch(now: int) returns (batch: seq<nat>)
      ensures IsBatch(rows, now, batch, cfg)
    {
      batch := [];
      while |batch| < cfg.batchSize
        invariant |batch| <= cfg.batchSize && Distinct(batch) && InTable(rows, batch)
        invariant forall k :: 0 <= k < |batch| ==> Fetchable(rows[batch[k]], now, cfg)
        invariant forall j, k :: 0 <= j < k < |batch| ==> rows[batch[j]].scheduledAt <= rows[batch[k]].scheduledAt
        invariant forall i :: 0 <= i < |rows| && Fetchable(rows[i], now, cfg) && i !in batch ==>
                    NoLaterThan(rows, batch, rows[i].scheduledAt)
        decreases cfg.batchSize - |batch|
      {
        var best: nat := |rows|;
        for i := 0 to |rows|
          invariant best == |rows| || best < i
          invariant best < |rows| ==> best !in batch && Fetchable(rows[best], now, cfg)
          invariant forall j :: 0 <= j < i && Fetchable(rows[j], now, cfg) && j !in batch ==>
                      best < |rows| && rows[best].scheduledAt <= rows[j].scheduledAt
        {
          if Fetchable(rows[i], now, cfg) && i !in batch {
            if best == |rows| || rows[i].scheduledAt < rows[best].scheduledAt {
              best := i;
            }
          }
        }
        if best == |rows| {
          return;
        }
        batch := batch + [best];
      }
    }

    /** The loop of one relay transaction that commits. */
    method RelayBatch(now: int, batch: seq<nat>, oks: seq<bool>)
      requires IsBatch(rows, now, batch, cfg) && |oks| == |batch|
      modifies this
      ensures rows == AfterFirst(old(rows), batch, oks, |batch|, cfg)
    {
      for k := 0 to |batch|
        invariant rows == AfterFirst(old(rows), batch, oks, k, cfg)
      {
        var row := rows[batch[k]];
        if oks[k] {
          rows := rows[batch[k] := row.(status := Sent)];
        } else {
          var newAttempts := row.attempts + 1;
          var newStatus := if newAttempts >= cfg.maxAttempts then Failed else Pending;
          rows := rows[batch[k] := row.(attempts := newAttempts, status := newStatus)];
        }
      }
    }
  }

  // ---- Runs of one worker whose passes all commit ----

  datatype Step = Pass(now: int, batch: seq<nat>, oks: seq<bool>) | Insert(row: Row)

  /** One worker's run in which row `r` is due at every pass and everything inserted is scheduled after it. */
  ghost predicate IsRun(ts: seq<Table>, steps: seq<Step>, r: nat, due: int, cfg: Config) {
    && |ts| == |steps| + 1
    && r < |ts[0]| && ts[0][r].scheduledAt == due
    && ts[0][r].status == Pending && ts[0][r].attempts < cfg.maxAttempts
    && forall i {:trigger steps[i]} :: 0 <= i < |steps| ==> StepOk(ts[i], steps[i], ts[i + 1], due, cfg)
  }

  ghost predicate StepOk(rows: Table, step: Step, rows': Table, due: int, cfg: Config) {
    match step
    case Pass(now, batch, oks) =>
      && due <= now && IsBatch(rows, now, batch, cfg) && |oks| == |batch|
      && rows' == AfterFirst(rows, batch, oks, |batch|, cfg)
    case Insert(row) =>
      due < row.scheduledAt && rows' == rows + [row]
  }

  /** Passes among the first n steps. */
  function Passes(steps: seq<Step>, n: nat): nat
    requires n <= |steps|
  {
    if n == 0 then 0 else Passes(steps, n - 1) + if steps[n - 1].Pass? then 1 else 0
  }

  /** Those of them that processed row `r`. */
  function Hits(steps: seq<Step>, r: nat, n: nat): nat
    requires n <= |steps|
  {
    if n == 0 then 0
    else Hits(steps, r, n - 1) + if steps[n - 1].Pass? && r in steps[n - 1].batch then 1 else 0
  }

  predicate Ahead(row: Row, due: int, cfg: Config) {
    row.status == Pending && row.attempts < cfg.maxAttempts && row.scheduledAt <= due
  }

  // The attempts a row ahead of `due` can still use up.
  function Weight(row: Row, due: int, cfg: Config): nat {
    if Ahead(row, due, cfg) then cfg.maxAttempts - row.attempts else 0
  }

  // Remaining attempts of the first n rows that are ahead, row `r` itself excepted.
  function Potential(rows: Table, r: nat, due: int, n: nat, cfg: Config): nat
    requires n <= |rows|
  {
    if n == 0 then 0
    else Potential(rows, r, due, n - 1, cfg) + if n - 1 == r then 0 else Weight(rows[n - 1], due, cfg)
  }

  /** Fetchable rows other than `r` among the first n that are scheduled no later than `due`. */
  function CountAhead(rows: Table, r: nat, due: int, n: nat, cfg: Config): nat
    requires n <= |rows|
  {
    if n == 0 then 0
    else CountAhead(rows, r, due, n - 1, cfg) + if n - 1 != r && Ahead(rows[n - 1], due, cfg) then 1 else 0
  }

  lemma {:induction false} PotentialOfUpdate(rows: Table, i: nat, row: Row, r: nat, due: int, n: nat, cfg: Config)
    requires i < |rows| && n <= |rows|
    ensures Potential(rows[i := row], r, due, n, cfg)
         == Potential(rows, r, due, n, cfg)
            + if i == r || i >= n then 0 else Weight(row, due, cfg) - Weight(rows[i], due, cfg)
  {
    if n > 0 {
      PotentialOfUpdate(rows, i, row, r, due, n - 1, cfg);
    }
  }

  lemma {:induction false} PotentialOfInsert(rows: Table, row: Row, r: nat, due: int, n: nat, cfg: Config)
    requires n <= |rows|
    ensures Potential(rows + [row], r, due, n, cfg) == Potential(rows, r, due, n, cfg)
  {
    if n > 0 {
      PotentialOfInsert(rows, row, r, due, n - 1, cfg);
    }
  }

  lemma {:induction false} PotentialBound(rows: Table, r: nat, due: int, n: nat, cfg: Config)
    requires n <= |rows|
    ensures Potential(rows, r, due, n, cfg) <= CountAhead(rows, r, due, n, cfg) * cfg.maxAttempts
  {
    if n > 0 {
      PotentialBound(rows, r, due, n - 1, cfg);
      var c := CountAhead(rows, r, due, n - 1, cfg);
      assert (c + 1) * cfg.maxAttempts == c * cfg.maxAttempts + cfg.maxAttempts;
    }
  }

  lemma {:induction false} BatchRow(rows: Table, batch: seq<nat>, oks: seq<bool>, i: nat, n: nat, cfg: Config)
    requires n <= |batch| == |oks| && Distinct(batch) && InTable(rows, batch) && i < |rows|
    ensures i !in batch[..n] ==> AfterFirst(rows, batch, oks, n, cfg)[i] == rows[i]
    ensures forall k :: 0 <= k < n && batch[k] == i ==>
              AfterFirst(rows, batch, oks, n, cfg)[i] == Processed(rows[i], oks[k], cfg)
  {
    if n > 0 {
      BatchRow(rows, batch, oks, i, n - 1, cfg);
      assert batch[..n] == batch[..n - 1] + [batch[n - 1]];
    }
  }

  ghost predicate AllAhead(rows: Table, batch: seq<nat>, n: nat, due: int, cfg: Config)
    requires n <= |batch| && InTable(rows, batch)
  {
    forall k :: 0 <= k < n ==> Ahead(rows[batch[k]], due, cfg)
  }

  // Processing never raises the potential; every row of the batch that is ahead lowers it by one.
  lemma {:induction false} BatchDrains(rows: Table, batch: seq<nat>, oks: seq<bool>, r: nat, due: int, n: nat,
                                       cfg: Config)
    requires n <= |batch| == |oks| && Distinct(batch) && InTable(rows, batch)
    requires forall k :: 0 <= k < n ==> rows[batch[k]].status == Pending && rows[batch[k]].attempts < cfg.maxAttempts
    ensures var before := Potential(rows, r, due, |rows|, cfg);
            var after := Potential(AfterFirst(rows, batch, oks, n, cfg), r, due, |rows|, cfg);
            && after <= before
            && (r !in batch && AllAhead(rows, batch, n, due, cfg) ==> after + n <= before)
  {
    if n > 0 {
      BatchDrains(rows, batch, oks, r, due, n - 1, cfg);
      var before := AfterFirst(rows, batch, oks, n - 1, cfg);
      BatchRow(rows, batch, oks, batch[n - 1], n - 1, cfg);
      assert batch[n - 1] !in batch[..n - 1];
      var id, ok := batch[n - 1], oks[n - 1];
      assert before[id] == rows[id];
      PotentialOfUpdate(before, id, Processed(rows[id], ok, cfg), r, due, |rows|, cfg);
      assert AfterFirst(rows, batch, oks, n, cfg) == before[id := Processed(rows[id], ok, cfg)];
    }
  }

  // A pass that leaves the due row `r` out is full of rows ahead of it.
  lemma MissedPassIsFull(rows: Table, now: int, batch: seq<nat>, r: nat, due: int, cfg: Config)
    requires IsBatch(rows, now, batch, cfg) && due <= now
    requires r < |rows| && r !in batch && rows[r].scheduledAt == due && Fetchable(rows[r], now, cfg)
    ensures |batch| == cfg.batchSize && AllAhead(rows, batch, |batch|, due, cfg)
  {
    assert NoLaterThan(rows, batch, due);
  }

  // What holds after n steps, `start` being the potential at the outset and `used` the attempts of
  // row `r` then: each miss has cost the rows ahead a batch of attempts, each hit has cost `r` one.
  ghost predicate Books(rows: Table, r: nat, due: int, start: nat, used: nat, hits: nat, passes: nat, cfg: Config) {
    && r < |rows| && rows[r].scheduledAt == due
    && hits <= passes
    && (rows[r].status == Pending ==>
          && rows[r].attempts == used + hits < cfg.maxAttempts
          && Potential(rows, r, due, |rows|, cfg) + cfg.batchSize * (passes - hits) <= start)
    && (rows[r].status != Pending ==> hits > 0)
  }

  lemma PassKeepsBooks(rows: Table, now: int, batch: seq<nat>, oks: seq<bool>, r: nat, due: int,
                       start: nat, used: nat, hits: nat, passes: nat, cfg: Config)
    requires Books(rows, r, due, start, used, hits, passes, cfg)
    requires IsBatch(rows, now, batch, cfg) && due <= now && |oks| == |batch|
    ensures Books(AfterFirst(rows, batch, oks, |batch|, cfg), r, due, start, used,
                  hits + (if r in batch then 1 else 0), passes + 1, cfg)
  {
    var rows' := AfterFirst(rows, batch, oks, |batch|, cfg);
    assert batch[..|batch|] == batch;
    BatchRow(rows, batch, oks, r, |batch|, cfg);
    BatchDrains(rows, batch, oks, r, due, |batch|, cfg);
    var before, after := Potential(rows, r, due, |rows|, cfg), Potential(rows', r, due, |rows'|, cfg);
    if r in batch {
      var k :| 0 <= k < |batch| && batch[k] == r;
      assert rows'[r] == Processed(rows[r], oks[k], cfg);
      HitBooks(rows[r], rows'[r], oks[k], due, start, used, hits, passes, before, after, cfg);
    } else if rows[r].status == Pending {
      MissedPassIsFull(rows, now, batch, r, due, cfg);
      MissBooks(start, hits, passes, before, after, cfg);
    }
  }

  lemma HitBooks(row: Row, row': Row, ok: bool, due: int, start: nat, used: nat, hits: nat, passes: nat,
                 before: nat, after: nat, cfg: Config)
    requires row.status == Pending && row.attempts == used + hits < cfg.maxAttempts && hits <= passes
    requires row' == Processed(row, ok, cfg) && after <= before
    requires before + cfg.batchSize * (passes - hits) <= start
    ensures row'.status == Pending ==>
              row'.attempts == used + (hits + 1) < cfg.maxAttempts
              && after + cfg.batchSize * ((passes + 1) - (hits + 1)) <= start
  {
  }

  lemma MissBooks(start: nat, hits: nat, passes: nat, before: nat, after: nat, cfg: Config)
    requires hits <= passes && before + cfg.batchSize * (passes - hits) <= start && after + cfg.batchSize <= before
    ensures after + cfg.batchSize * (passes + 1 - hits) <= start
  {
    assert cfg.batchSize * (passes + 1 - hits) == cfg.batchSize * (passes - hits) + cfg.batchSize;
  }

  lemma {:induction false} RunKeepsBooks(ts: seq<Table>, steps: seq<Step>, n: nat, r: nat, due: int, cfg: Config)
    requires IsRun(ts, steps, r, due, cfg) && n <= |steps|
    ensures Books(ts[n], r, due, Potential(ts[0], r, due, |ts[0]|, cfg), ts[0][r].attempts,
                  Hits(steps, r, n), Passes(steps, n), cfg)
  {
    if n > 0 {
      RunKeepsBooks(ts, steps, n - 1, r, due, cfg);
      var step := steps[n - 1];
      match step
      case Insert(row) =>
        PotentialOfInsert(ts[n - 1], row, r, due, |ts[n - 1]|, cfg);
      case Pass(now, batch, oks) =>
        PassKeepsBooks(ts[n - 1], now, batch, oks, r, due, Potential(ts[0], r, due, |ts[0]|, cfg), ts[0][r].attempts,
                       Hits(steps, r, n - 1), Passes(steps, n - 1), cfg);
    }
  }

  /**
   * Retry fairness. With p other fetchable rows scheduled no later than a due row, the row is
   * processed by pass floor(p * maxAttempts / batchSize) + 1 and settled within
   * floor(p * maxAttempts / batchSize) + maxAttempts passes, however the rows ahead fail and however
   * ties are ordered.
   */
  lemma RetryFairness(ts: seq<Table>, steps: seq<Step>, r: nat, due: int, cfg: Config)
    requires cfg.batchSize > 0 && IsRun(ts, steps, r, due, cfg)
    ensures r < |ts[|steps|]|
    ensures var p := CountAhead(ts[0], r, due, |ts[0]|, cfg);
            var delay := p * cfg.maxAttempts / cfg.batchSize;
            && (Passes(steps, |steps|) >= delay + 1 ==> Hits(steps, r, |steps|) > 0)
            && (Passes(steps, |steps|) >= delay + cfg.maxAttempts ==> ts[|steps|][r].status != Pending)
  {
    RunKeepsBooks(ts, steps, |steps|, r, due, cfg);
    PotentialBound(ts[0], r, due, |ts[0]|, cfg);
    var p := CountAhead(ts[0], r, due, |ts[0]|, cfg);
    if ts[|steps|][r].status == Pending {
      QuotientBound(Passes(steps, |steps|) - Hits(steps, r, |steps|), cfg.batchSize, p * cfg.maxAttempts);
    }
  }

  lemma QuotientBound(q: nat, d: nat, m: nat)
    requires d > 0 && d * q <= m
    ensures q <= m / d
  {
    var r := m % d;
    assert m == d * (m / d) + r;
    assert d * q < d * (m / d + 1);
  }

  // ---- What becomes of a row ----

  /** A run of one worker from an empty table; rows are scheduled as the service does. */
  ghost predicate IsTableRun(ts: seq<Table>, steps: seq<Step>, cfg: Config) {
    && |ts| == |steps| + 1 && ts[0] == []
    && forall i {:trigger steps[i]} :: 0 <= i < |steps| ==> TableStep(ts[i], steps[i], ts[i + 1], cfg)
  }

  ghost predicate TableStep(rows: Table, step: Step, rows': Table, cfg: Config) {
    match step
    case Pass(now, batch, oks) =>
      IsBatch(rows, now, batch, cfg) && |oks| == |batch| && rows' == AfterFirst(rows, batch, oks, |batch|, cfg)
    case Insert(row) => row.status == Pending && row.attempts == 0 && rows' == rows + [row]
  }

  /** The step sends row `r`'s mail, and the send succeeds or throws as `ok` says. */
  ghost predicate SendsRow(step: Step, r: nat, ok: bool) {
    step.Pass? && exists k: nat :: k < |step.batch| && k < |step.oks| && step.batch[k] == r && step.oks[k] == ok
  }

  /** Such sends among the first n steps. */
  ghost function Sends(steps: seq<Step>, r: nat, ok: bool, n: nat): nat
    requires n <= |steps|
  {
    if n == 0 then 0 else Sends(steps, r, ok, n - 1) + if SendsRow(steps[n - 1], r, ok) then 1 else 0
  }

  lemma PassSettlesRow(rows: Table, step: Step, rows': Table, r: nat, cfg: Config)
    requires TableStep(rows, step, rows', cfg) && r < |rows|
    ensures r < |rows'|
    ensures !SendsRow(step, r, true) && !SendsRow(step, r, false) ==> rows'[r] == rows[r]
    ensures SendsRow(step, r, true) || SendsRow(step, r, false) ==>
              rows[r].status == Pending && rows[r].attempts < cfg.maxAttempts && rows[r].scheduledAt <= step.now
    ensures SendsRow(step, r, true) ==>
              rows'[r].status == Sent && rows'[r].attempts == rows[r].attempts && !SendsRow(step, r, false)
    ensures SendsRow(step, r, false) ==> rows'[r].attempts == rows[r].attempts + 1
    ensures SendsRow(step, r, false) ==>
              rows'[r].status == if rows[r].attempts + 1 == cfg.maxAttempts then Failed else Pending
  {
    if step.Pass? {
      assert step.batch[..|step.batch|] == step.batch;
      BatchRow(rows, step.batch, step.oks, r, |step.batch|, cfg);
      if r in step.batch {
        var k: nat :| k < |step.batch| && step.batch[k] == r;
        assert SendsRow(step, r, step.oks[k]);
      }
    }
  }

  /**
   * A row tells what became of its mail: sent if a send succeeded, which happens at most once, failed if all
   * its attempts threw, and pending otherwise, with as many attempts as sends that threw.
   */
  lemma {:induction false} RowsTellTheirSends(ts: seq<Table>, steps: seq<Step>, n: nat, r: nat, cfg: Config)
    requires IsTableRun(ts, steps, cfg) && cfg.maxAttempts > 0 && n <= |steps|
    ensures r < |ts[n]| ==>
              && ts[n][r].attempts == Sends(steps, r, false, n) <= cfg.maxAttempts
              && Sends(steps, r, true, n) == (if ts[n][r].status == Sent then 1 else 0)
              && (ts[n][r].status == Failed <==> ts[n][r].attempts == cfg.maxAttempts)
    ensures r >= |ts[n]| ==> Sends(steps, r, true, n) == Sends(steps, r, false, n) == 0
  {
    if n > 0 {
      RowsTellTheirSends(ts, steps, n - 1, r, cfg);
      var step := steps[n - 1];
      assert TableStep(ts[n - 1], step, ts[n], cfg);
      if r < |ts[n - 1]| {
        PassSettlesRow(ts[n - 1], step, ts[n], r, cfg);
      }
    }
  }
}
