/**
 * How old a permission answer can be. A resolve reads the database and writes the cache later, any
 * number of them are in flight, and the tables change at any moment in between.
 */
module AuthzStaleness {
  import opened Authz

  // A resolve that has read the database and not yet written the cache.
  datatype Call = Call(user: UserId, value: Effective, readAt: int)

  datatype World = World(tables: Tables, cache: map<UserId, Entry>, inflight: map<nat, Call>, now: int)

  datatype Step =
    | Edit(tables: Tables)        // assignments, role definitions, offboarding: anything
    | Tick(now: int)
    | Hit(user: UserId)
    | Read(call: nat, user: UserId)
    | Store(call: nat)
    | Fail(call: nat)             // the database or the cache failed: the answer is the empty map
    | Invalidate(user: UserId)    // also an eviction by the cache itself

  /** `delay` bounds the time between a resolve's read and its store; 0 is the serial model. */
  predicate Enabled(w: World, step: Step, delay: nat) {
    match step
    case Tick(now) => w.now <= now
    case Hit(user) => user in w.cache && w.now < w.cache[user].until
    case Read(call, _) => call !in w.inflight
    case Store(call) => call in w.inflight && w.now - w.inflight[call].readAt <= delay
    case _ => true
  }

  function Next(w: World, step: Step): World {
    match step
    case Edit(tables) => w.(tables := tables)
    case Tick(now) => w.(now := now)
    case Hit(_) => w
    case Read(call, user) => w.(inflight := w.inflight[call := Call(user, EffectiveAt(w.tables, user, w.now), w.now)])
    case Store(call) =>
      if call !in w.inflight then w
      else
        var c := w.inflight[call];
        w.(cache := w.cache[c.user := Entry(c.value, w.now + CACHE_TTL_MS)], inflight := w.inflight - {call})
    case Fail(call) => w.(inflight := w.inflight - {call})
    case Invalidate(user) => w.(cache := w.cache - {user})
  }

  /** The step ends a resolve of `user` that found permissions, and this is what it returned. */
  ghost predicate Returns(w: World, step: Step, user: UserId, value: Effective) {
    || (step == Hit(user) && user in w.cache && value == w.cache[user].value)
    || (step.Store? && step.call in w.inflight && w.inflight[step.call].user == user
        && value == w.inflight[step.call].value)
  }

  ghost predicate IsRun(ws: seq<World>, steps: seq<Step>, delay: nat) {
    && |ws| == |steps| + 1
    && ws[0].cache == map[] && ws[0].inflight == map[]
    && forall i {:trigger steps[i]} :: 0 <= i < |steps| ==>
         Enabled(ws[i], steps[i], delay) && ws[i + 1] == Next(ws[i], steps[i])
  }

  /** `value` was the true effective map of `user` at some instant of ws[from..i], no earlier than `since`. */
  ghost predicate WasTrue(ws: seq<World>, from: nat, i: nat, user: UserId, value: Effective, since: int)
    requires i < |ws|
  {
    exists j :: from <= j <= i && TrueAt(ws[j], user, value, since)
  }

  ghost predicate TrueAt(w: World, user: UserId, value: Effective, since: int) {
    since <= w.now && value == EffectiveAt(w.tables, user, w.now)
  }

  // Where what is stored or in flight for a user comes from; a resolve past its delay never stores.
  ghost predicate Known(ws: seq<World>, from: nat, i: nat, user: UserId, delay: nat)
    requires i < |ws|
  {
    && (user in ws[i].cache ==>
          WasTrue(ws, from, i, user, ws[i].cache[user].value, ws[i].cache[user].until - CACHE_TTL_MS - delay))
    && (forall c {:trigger ws[i].inflight[c]} :: c in ws[i].inflight && ws[i].inflight[c].user == user ==>
          Storable(ws[i], c, delay) ==> WasTrue(ws, from, i, user, ws[i].inflight[c].value, ws[i].inflight[c].readAt))
  }

  /** The resolve in flight is still within its delay. */
  predicate Storable(w: World, call: nat, delay: nat)
    requires call in w.inflight
  {
    w.now - w.inflight[call].readAt <= delay
  }

  lemma WasTrueLater(ws: seq<World>, from: nat, i: nat, user: UserId, value: Effective, since: int, since': int)
    requires 0 < i < |ws| && WasTrue(ws, from, i - 1, user, value, since) && since' <= since
    ensures WasTrue(ws, from, i, user, value, since')
  {
    var j :| from <= j <= i - 1 && TrueAt(ws[j], user, value, since);
    assert TrueAt(ws[j], user, value, since');
  }

  lemma StepKeepsKnown(ws: seq<World>, from: nat, i: nat, user: UserId, delay: nat, step: Step)
    requires from < i < |ws| && Known(ws, from, i - 1, user, delay)
    requires Enabled(ws[i - 1], step, delay) && ws[i] == Next(ws[i - 1], step)
    ensures Known(ws, from, i, user, delay)
  {
    var w, w' := ws[i - 1], ws[i];
    forall c | c in w'.inflight && w'.inflight[c].user == user && Storable(w', c, delay)
      ensures WasTrue(ws, from, i, user, w'.inflight[c].value, w'.inflight[c].readAt)
    {
      if c in w.inflight && w'.inflight[c] == w.inflight[c] {
        WasTrueLater(ws, from, i, user, w.inflight[c].value, w.inflight[c].readAt, w.inflight[c].readAt);
      } else {
        assert TrueAt(w', user, w'.inflight[c].value, w'.inflight[c].readAt);
      }
    }
    if user in w'.cache {
      var since := w'.cache[user].until - CACHE_TTL_MS - delay;
      if user in w.cache && w'.cache[user] == w.cache[user] {
        WasTrueLater(ws, from, i, user, w.cache[user].value, since, since);
      } else {
        var c := w.inflight[step.call];
        WasTrueLater(ws, from, i, user, c.value, c.readAt, since);
      }
    }
  }

  lemma RunStep(ws: seq<World>, steps: seq<Step>, delay: nat, i: nat)
    requires IsRun(ws, steps, delay) && 0 < i < |ws|
    ensures Enabled(ws[i - 1], steps[i - 1], delay) && ws[i] == Next(ws[i - 1], steps[i - 1])
  {
    var step := steps[i - 1];
  }

  lemma {:induction false} KnownLater(ws: seq<World>, steps: seq<Step>, delay: nat, from: nat, n: nat, i: nat,
                                      user: UserId)
    requires IsRun(ws, steps, delay) && from <= n <= i < |ws| && Known(ws, from, n, user, delay)
    ensures Known(ws, from, i, user, delay)
  {
    if n < i {
      KnownLater(ws, steps, delay, from, n, i - 1, user);
      RunStep(ws, steps, delay, i);
      StepKeepsKnown(ws, from, i, user, delay, steps[i - 1]);
    }
  }

  lemma {:induction false} TimeRunsForward(ws: seq<World>, steps: seq<Step>, delay: nat, i: nat, j: nat)
    requires IsRun(ws, steps, delay) && i <= j < |ws|
    ensures ws[i].now <= ws[j].now
  {
    if i < j {
      TimeRunsForward(ws, steps, delay, i, j - 1);
      RunStep(ws, steps, delay, j);
    }
  }

  lemma ReturnedWasTrue(ws: seq<World>, steps: seq<Step>, delay: nat, from: nat, i: nat, user: UserId, value: Effective)
    requires IsRun(ws, steps, delay) && from <= i < |steps| && Known(ws, from, i, user, delay)
    requires Returns(ws[i], steps[i], user, value)
    ensures WasTrue(ws, from, i, user, value, ws[i].now - CACHE_TTL_MS - delay)
  {
    var since :=
      if steps[i].Hit? then ws[i].cache[user].until - CACHE_TTL_MS - delay else ws[i].inflight[steps[i].call].readAt;
    var j :| from <= j <= i && TrueAt(ws[j], user, value, since);
    assert TrueAt(ws[j], user, value, ws[i].now - CACHE_TTL_MS - delay);
  }

  // ---- Results ----

  /**
   * Bounded staleness: whatever changes, a resolve that did not fail returns the true effective map of
   * some instant in the last 300 s, plus the time a resolve may sit between its read and its store.
   */
  lemma AnswersAreRecent(ws: seq<World>, steps: seq<Step>, delay: nat, i: nat, user: UserId, value: Effective)
    requires IsRun(ws, steps, delay) && i < |steps| && Returns(ws[i], steps[i], user, value)
    ensures exists j :: 0 <= j <= i && ws[i].now - 300_000 - delay <= ws[j].now <= ws[i].now
                        && value == EffectiveAt(ws[j].tables, user, ws[j].now)
  {
    KnownLater(ws, steps, delay, 0, 0, i, user);
    ReturnedWasTrue(ws, steps, delay, 0, i, user, value);
    var j :| 0 <= j <= i && TrueAt(ws[j], user, value, ws[i].now - CACHE_TTL_MS - delay);
    TimeRunsForward(ws, steps, delay, j, i);
  }

  /** `value` was the true effective map of `user` at some instant after step e, up to ws[i]. */
  ghost predicate TrueAfter(ws: seq<World>, e: nat, i: nat, user: UserId, value: Effective)
    requires i < |ws|
  {
    exists j :: e < j <= i && value == EffectiveAt(ws[j].tables, user, ws[j].now)
  }

  /** A resolve of the user that was in flight at step e and has been ever since, up to ws[m]. */
  ghost predicate Unbroken(ws: seq<World>, e: nat, m: nat, call: nat, user: UserId)
    requires m < |ws|
  {
    && call in ws[m].inflight && ws[m].inflight[call].user == user
    && forall k {:trigger ws[k]} :: e <= k <= m ==> call in ws[k].inflight
  }

  /** No resolve in flight since before step e can still store a map that has not been true since. */
  ghost predicate NoStaleCall(ws: seq<World>, e: nat, m: nat, user: UserId, delay: nat)
    requires m < |ws|
  {
    forall c {:trigger Unbroken(ws, e, m, c, user)} :: Unbroken(ws, e, m, c, user) && Storable(ws[m], c, delay) ==>
      TrueAfter(ws, e, m, user, ws[m].inflight[c].value)
  }

  lemma {:induction false} UnbrokenIsOld(ws: seq<World>, steps: seq<Step>, delay: nat, e: nat, m: nat, c: nat,
                                         user: UserId)
    requires IsRun(ws, steps, delay) && e <= m < |ws| && Unbroken(ws, e, m, c, user)
    ensures ws[m].inflight[c] == ws[e].inflight[c]
  {
    if e < m {
      assert c in ws[m - 1].inflight;
      RunStep(ws, steps, delay, m);
      UnbrokenIsOld(ws, steps, delay, e, m - 1, c, user);
    }
  }

  lemma {:induction false} ReadBefore(ws: seq<World>, steps: seq<Step>, delay: nat, i: nat, c: nat)
    requires IsRun(ws, steps, delay) && i < |ws| && c in ws[i].inflight
    ensures ws[i].inflight[c].readAt <= ws[i].now
  {
    if i > 0 {
      RunStep(ws, steps, delay, i);
      if c in ws[i - 1].inflight {
        ReadBefore(ws, steps, delay, i - 1, c);
      }
    }
  }

  // A resolve that was not in flight at ws[k] has read the database since.
  lemma {:induction false} ReadSince(ws: seq<World>, steps: seq<Step>, delay: nat, k: nat, i: nat, c: nat)
    requires IsRun(ws, steps, delay) && k <= i < |ws| && c !in ws[k].inflight && c in ws[i].inflight
    ensures WasTrue(ws, k + 1, i, ws[i].inflight[c].user, ws[i].inflight[c].value, ws[i].inflight[c].readAt)
  {
    RunStep(ws, steps, delay, i);
    var call := ws[i].inflight[c];
    if c in ws[i - 1].inflight {
      ReadSince(ws, steps, delay, k, i - 1, c);
      WasTrueLater(ws, k + 1, i, call.user, call.value, call.readAt, call.readAt);
    } else {
      assert TrueAt(ws[i], call.user, call.value, call.readAt);
    }
  }

  // At an invalidation every resolve of the user that can still store holds a map true since step e.
  lemma InFlightIsFresh(ws: seq<World>, steps: seq<Step>, delay: nat, e: nat, m: nat, user: UserId, c: nat)
    requires IsRun(ws, steps, delay) && e < m < |ws| && NoStaleCall(ws, e, m, user, delay)
    requires c in ws[m].inflight && ws[m].inflight[c].user == user && Storable(ws[m], c, delay)
    ensures WasTrue(ws, e + 1, m, user, ws[m].inflight[c].value, ws[m].inflight[c].readAt)
  {
    var call := ws[m].inflight[c];
    if Unbroken(ws, e, m, c, user) {
      var j :| e < j <= m && call.value == EffectiveAt(ws[j].tables, user, ws[j].now);
      UnbrokenIsOld(ws, steps, delay, e, m, c, user);
      ReadBefore(ws, steps, delay, e, c);
      TimeRunsForward(ws, steps, delay, e, j);
      assert TrueAt(ws[j], user, call.value, call.readAt);
    } else {
      var k :| e <= k <= m && c !in ws[k].inflight;
      ReadSince(ws, steps, delay, k, m, c);
      var j :| k + 1 <= j <= m && TrueAt(ws[j], user, call.value, call.readAt);
    }
  }

  lemma KnownAfterInvalidate(ws: seq<World>, steps: seq<Step>, delay: nat, e: nat, m: nat, user: UserId)
    requires IsRun(ws, steps, delay) && e < m < |steps| && steps[m] == Invalidate(user)
    requires NoStaleCall(ws, e, m, user, delay)
    ensures Known(ws, e + 1, m + 1, user, delay)
  {
    RunStep(ws, steps, delay, m + 1);
    var w := ws[m + 1];
    forall c | c in w.inflight && w.inflight[c].user == user && Storable(w, c, delay)
      ensures WasTrue(ws, e + 1, m + 1, user, w.inflight[c].value, w.inflight[c].readAt)
    {
      var call := ws[m].inflight[c];
      InFlightIsFresh(ws, steps, delay, e, m, user, c);
      WasTrueLater(ws, e + 1, m + 1, user, call.value, call.readAt, call.readAt);
    }
  }

  /**
   * A change at step e and an invalidation after it: every later answer for the user is the effective map
   * of an instant after the change, unless a resolve from before it is still in flight at the invalidation.
   */
  lemma FreshAfterInvalidate(ws: seq<World>, steps: seq<Step>, delay: nat, e: nat, m: nat, i: nat,
                             user: UserId, value: Effective)
    requires IsRun(ws, steps, delay) && e < m < i < |steps| && steps[m] == Invalidate(user)
    requires NoStaleCall(ws, e, m, user, delay) && Returns(ws[i], steps[i], user, value)
    ensures TrueAfter(ws, e, i, user, value)
  {
    KnownAfterInvalidate(ws, steps, delay, e, m, user);
    KnownLater(ws, steps, delay, e + 1, m + 1, i, user);
    ReturnedWasTrue(ws, steps, delay, e + 1, i, user, value);
    var j :| e + 1 <= j <= i && TrueAt(ws[j], user, value, ws[i].now - CACHE_TTL_MS - delay);
  }

  /** However the run goes on, every answer for the user is the effective map of an instant after step e. */
  ghost predicate LaterAnswersAreFresh(ws: seq<World>, steps: seq<Step>, delay: nat, e: nat, user: UserId) {
    forall ws': seq<World>, steps': seq<Step>, i: nat, value: Effective
      {:trigger IsRun(ws', steps', delay), Returns(ws'[i], steps'[i], user, value)} ::
      IsRun(ws', steps', delay) && ws <= ws' && steps <= steps' && |steps| <= i < |steps'| ==>
        Returns(ws'[i], steps'[i], user, value) ==> TrueAfter(ws', e, i, user, value)
  }

  // What is known of the past does not depend on how the run goes on.
  lemma StaleCallsArePast(ws: seq<World>, ws': seq<World>, e: nat, m: nat, user: UserId, delay: nat)
    requires ws <= ws' && m < |ws| && NoStaleCall(ws, e, m, user, delay)
    ensures NoStaleCall(ws', e, m, user, delay)
  {
    forall c | Unbroken(ws', e, m, c, user) && Storable(ws'[m], c, delay)
      ensures TrueAfter(ws', e, m, user, ws'[m].inflight[c].value)
    {
      assert forall k {:trigger ws[k]} :: e <= k <= m ==> ws[k] == ws'[k];
      assert Unbroken(ws, e, m, c, user);
      var j :| e < j <= m && ws[m].inflight[c].value == EffectiveAt(ws[j].tables, user, ws[j].now);
      assert ws'[j] == ws[j];
    }
  }

  // A resolve in flight across change and invalidation may store at once.
  lemma StaleCallIsServed(ws: seq<World>, steps: seq<Step>, delay: nat, e: nat, user: UserId, c: nat)
    requires IsRun(ws, steps, delay) && e + 1 < |steps| && steps[|steps| - 1] == Invalidate(user)
    requires LaterAnswersAreFresh(ws, steps, delay, e, user)
    requires Unbroken(ws, e, |steps| - 1, c, user) && Storable(ws[|steps| - 1], c, delay)
    ensures TrueAfter(ws, e, |steps| - 1, user, ws[|steps| - 1].inflight[c].value)
  {
    var n := |steps|;
    RunStep(ws, steps, delay, n);
    var value := ws[n].inflight[c].value;
    var ws', steps' := Extend(ws, steps, delay, Store(c));
    assert ws'[n] == ws[n] && steps'[n] == Store(c);
    assert Returns(ws'[n], steps'[n], user, value);
    assert TrueAfter(ws', e, n, user, value);
    var j :| e < j <= n && value == EffectiveAt(ws'[j].tables, user, ws'[j].now);
    assert ws'[j] == ws[j];
    if j == n {
      assert ws[n].tables == ws[n - 1].tables && ws[n].now == ws[n - 1].now;
      assert value == EffectiveAt(ws[n - 1].tables, user, ws[n - 1].now);
    }
  }

  /**
   * Enforcement is immediate exactly when no resolve of the user that read before the change and has been
   * in flight ever since can still store a map that has not been true again in between.
   */
  lemma FreshAfterInvalidateIff(ws: seq<World>, steps: seq<Step>, delay: nat, e: nat, user: UserId)
    requires IsRun(ws, steps, delay) && e + 1 < |steps| && steps[|steps| - 1] == Invalidate(user)
    ensures LaterAnswersAreFresh(ws, steps, delay, e, user) <==> NoStaleCall(ws, e, |steps| - 1, user, delay)
  {
    var m := |steps| - 1;
    if NoStaleCall(ws, e, m, user, delay) {
      forall ws': seq<World>, steps': seq<Step>, i: nat, value: Effective
        | IsRun(ws', steps', delay) && ws <= ws' && steps <= steps' && |steps| <= i < |steps'|
          && Returns(ws'[i], steps'[i], user, value)
        ensures TrueAfter(ws', e, i, user, value)
      {
        StaleCallsArePast(ws, ws', e, m, user, delay);
        assert steps'[m] == steps[m];
        FreshAfterInvalidate(ws', steps', delay, e, m, i, user, value);
      }
    }
    if LaterAnswersAreFresh(ws, steps, delay, e, user) {
      forall c | Unbroken(ws, e, m, c, user) && Storable(ws[m], c, delay)
        ensures TrueAfter(ws, e, m, user, ws[m].inflight[c].value)
      {
        StaleCallIsServed(ws, steps, delay, e, user, c);
      }
    }
  }

  /** So after a change every answer, until the next change, reflects the tables it left. */
  lemma FirstResolveIsCurrent(ws: seq<World>, steps: seq<Step>, delay: nat, e: nat, m: nat, i: nat,
                              user: UserId, value: Effective)
    requires IsRun(ws, steps, delay) && e < m < i < |steps| && steps[m] == Invalidate(user)
    requires NoStaleCall(ws, e, m, user, delay) && Returns(ws[i], steps[i], user, value)
    requires forall k {:trigger steps[k]} :: e < k < i ==> !steps[k].Edit?
    ensures exists j :: e < j <= i && value == EffectiveAt(ws[e + 1].tables, user, ws[j].now)
  {
    FreshAfterInvalidate(ws, steps, delay, e, m, i, user, value);
    var j :| e < j <= i && value == EffectiveAt(ws[j].tables, user, ws[j].now);
    Unedited(ws, steps, delay, e, j);
  }

  lemma {:induction false} Unedited(ws: seq<World>, steps: seq<Step>, delay: nat, e: nat, j: nat)
    requires IsRun(ws, steps, delay) && e < j < |ws|
    requires forall k {:trigger steps[k]} :: e < k < j ==> !steps[k].Edit?
    ensures ws[j].tables == ws[e + 1].tables
  {
    if e + 1 < j {
      Unedited(ws, steps, delay, e, j - 1);
      RunStep(ws, steps, delay, j);
    }
  }

  /**
   * How long it can last: from any run, a resolve in flight across a change stores what it read before it,
   * and that answer is served until its TTL ends, although the user was invalidated.
   */
  lemma InFlightReadSurvives(ws: seq<World>, steps: seq<Step>, delay: nat, user: UserId, call: nat, tables: Tables)
    returns (ws': seq<World>, steps': seq<Step>)
    requires IsRun(ws, steps, delay) && call !in ws[|steps|].inflight
    ensures IsRun(ws', steps', delay) && ws <= ws' && steps <= steps' && |steps'| == |steps| + 6
    ensures steps'[|steps| + 1] == Edit(tables) && steps'[|steps| + 2] == Invalidate(user)
    ensures ws'[|steps'| - 1].tables == tables
    ensures ws'[|steps'| - 1].now == ws[|steps|].now + 300_000 - 1
    ensures Returns(ws'[|steps'| - 1], steps'[|steps'| - 1], user,
                    EffectiveAt(ws[|steps|].tables, user, ws[|steps|].now))
  {
    var w := ws[|steps|];
    ws', steps' := ws, steps;
    ws', steps' := Extend(ws', steps', delay, Read(call, user));
    ws', steps' := Extend(ws', steps', delay, Edit(tables));
    ws', steps' := Extend(ws', steps', delay, Invalidate(user));
    ws', steps' := Extend(ws', steps', delay, Store(call));
    ws', steps' := Extend(ws', steps', delay, Tick(w.now + CACHE_TTL_MS - 1));
    ws', steps' := Extend(ws', steps', delay, Hit(user));
  }

  lemma Extend(ws: seq<World>, steps: seq<Step>, delay: nat, step: Step) returns (ws': seq<World>, steps': seq<Step>)
    requires IsRun(ws, steps, delay) && Enabled(ws[|steps|], step, delay)
    ensures ws' == ws + [Next(ws[|steps|], step)] && steps' == steps + [step]
    ensures IsRun(ws', steps', delay)
  {
    ws', steps' := ws + [Next(ws[|steps|], step)], steps + [step];
  }

  /** The service's resolve is a hit, or a read and a store with nothing in between. */
  lemma ResolveIsAStep(w: World, user: UserId, call: nat)
    requires call !in w.inflight
    ensures var stored := Next(Next(w, Read(call, user)), Store(call));
            var answer := Answer(w.tables, w.cache, user, w.now, true);
            if Enabled(w, Hit(user), 0) then Returns(w, Hit(user), user, answer)
            else && Enabled(w, Read(call, user), 0) && Enabled(Next(w, Read(call, user)), Store(call), 0)
                 && Returns(Next(w, Read(call, user)), Store(call), user, answer)
                 && stored == w.(cache := w.cache[user := Entry(answer, w.now + CACHE_TTL_MS)])
  {
    assert w.inflight[call := Call(user, EffectiveAt(w.tables, user, w.now), w.now)] - {call} == w.inflight;
  }
}
