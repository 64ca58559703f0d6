/**
 * The guard of the outbox relay: single flight with wake coalescing.
 *
 * One relay instance lives in one event loop, so a step is what happens between two awaits: a call
 * of relay() up to its first await, the settling of its transaction together with the finally
 * block, and the firing of a follow-up scheduled with setImmediate.
 */
module OutboxRelay {

  datatype State = State(isRelaying: bool, wakeOnComplete: bool, immediates: nat)

  const IDLE := State(false, false, 0)

  datatype Event =
    | Called                // the cron tick or a wake signal
    | Settled(threw: bool)  // the transaction committed or threw; finally runs either way
    | ImmediateFired

  predicate Enabled(s: State, e: Event) {
    match e
    case Called => true
    case Settled(_) => s.isRelaying
    case ImmediateFired => s.immediates > 0
  }

  function Enter(s: State): State {
    if s.isRelaying then s.(wakeOnComplete := true) else s.(isRelaying := true)
  }

  function Finally(s: State): State {
    State(false, false, s.immediates + if s.wakeOnComplete then 1 else 0)
  }

  function Next(s: State, e: Event): State
    requires Enabled(s, e)
  {
    match e
    case Called => Enter(s)
    case Settled(_) => Finally(s)
    case ImmediateFired => Enter(s.(immediates := s.immediates - 1))
  }

  class RelayGuard {
    var isRelaying: bool
    var wakeOnComplete: bool
    var immediates: nat  // callbacks waiting in the event loop

    constructor ()
      ensures View() == IDLE
    {
      isRelaying, wakeOnComplete, immediates := false, false, 0;
    }

    function View(): State
      reads this
    {
      State(isRelaying, wakeOnComplete, immediates)
    }

    /** relay() up to its transaction: `opens` says whether it goes on to open one. */
    method Relay() returns (opens: bool)
      modifies this
      ensures View() == Enter(old(View()))
      ensures opens == !old(isRelaying)
    {
      if isRelaying {
        wakeOnComplete := true;
        return false;
      }
      isRelaying := true;
      return true;
    }

    /** The finally block, reached whether or not the transaction threw. */
    method Settle()
      requires isRelaying
      modifies this
      ensures View() == Finally(old(View()))
    {
      isRelaying := false;
      if wakeOnComplete {
        wakeOnComplete := false;
        immediates := immediates + 1;
      }
    }

    method FireImmediate() returns (opens: bool)
      requires immediates > 0
      modifies this
      ensures View() == Next(old(View()), ImmediateFired)
      ensures opens == !old(isRelaying)
    {
      immediates := immediates - 1;
      opens := Relay();
    }
  }

  // ---- Runs ----

  ghost predicate IsRun(ss: seq<State>, es: seq<Event>) {
    && |ss| == |es| + 1
    && ss[0] == IDLE
    && forall i {:trigger es[i]} :: 0 <= i < |es| ==> Enabled(ss[i], es[i]) && ss[i + 1] == Next(ss[i], es[i])
  }

  predicate IsCall(e: Event) {
    !e.Settled?
  }

  /** The i-th step opens a transaction. */
  predicate Opens(ss: seq<State>, es: seq<Event>, i: nat)
    requires i < |es| && i < |ss|
  {
    IsCall(es[i]) && !ss[i].isRelaying
  }

  /** Transactions opened and not yet settled before step n. */
  function InFlight(ss: seq<State>, es: seq<Event>, n: nat): int
    requires n <= |es| <= |ss|
  {
    if n == 0 then 0
    else InFlight(ss, es, n - 1) + (if Opens(ss, es, n - 1) then 1 else 0) - (if es[n - 1].Settled? then 1 else 0)
  }

  /** Single flight: at most one transaction of this instance is ever open. */
  lemma {:induction false} SingleFlight(ss: seq<State>, es: seq<Event>, n: nat)
    requires IsRun(ss, es) && n <= |es|
    ensures InFlight(ss, es, n) == if ss[n].isRelaying then 1 else 0
    ensures ss[n].wakeOnComplete ==> ss[n].isRelaying
  {
    if n > 0 {
      SingleFlight(ss, es, n - 1);
      var e := es[n - 1];
    }
  }

  // A call that has not been answered by a run yet is remembered in one of two places.
  predicate Remembered(s: State) {
    (s.isRelaying && s.wakeOnComplete) || s.immediates > 0
  }

  ghost predicate Answered(ss: seq<State>, es: seq<Event>, i: nat, n: nat)
    requires n <= |es| <= |ss|
  {
    exists j :: i <= j < n && Opens(ss, es, j)
  }

  /** Every call is answered by a run that starts at or after it, or is still remembered. */
  lemma {:induction false} NoCallIsForgotten(ss: seq<State>, es: seq<Event>, i: nat, n: nat)
    requires IsRun(ss, es) && i < n <= |es| && IsCall(es[i])
    ensures Answered(ss, es, i, n) || Remembered(ss[n])
  {
    var e := es[n - 1];
    if i < n - 1 {
      NoCallIsForgotten(ss, es, i, n - 1);
      if Answered(ss, es, i, n - 1) {
        var j :| i <= j < n - 1 && Opens(ss, es, j);
        assert Answered(ss, es, i, n);
      } else if Opens(ss, es, n - 1) {
        assert Answered(ss, es, i, n);
      }
    } else if Opens(ss, es, i) {
      assert Answered(ss, es, i, n);
    }
  }

  // How much the event loop still has to do if nobody calls again.
  function Backlog(s: State): nat {
    (if s.isRelaying then 2 else 0) + (if s.wakeOnComplete then 2 else 0) + 3 * s.immediates
  }

  // Nothing is left to do: no transaction to settle and no follow-up to fire.
  predicate Quiescent(s: State) {
    !Enabled(s, Settled(false)) && !Enabled(s, ImmediateFired)
  }

  /**
   * No lost wake-up: whenever the instance has nothing left to do, every earlier call has been
   * answered by a run that started at or after it, whichever runs threw in between.
   */
  lemma NoLostWakeUp(ss: seq<State>, es: seq<Event>, i: nat, n: nat)
    requires IsRun(ss, es) && i < n <= |es| && IsCall(es[i])
    requires Quiescent(ss[n])
    ensures Answered(ss, es, i, n) && ss[n] == IDLE
  {
    NoCallIsForgotten(ss, es, i, n);
    SingleFlight(ss, es, n);
  }

  // A call that opened nothing has set the flag, and only the end of the current run clears it.
  lemma {:induction false} WakeWaits(ss: seq<State>, es: seq<Event>, i: nat, j: nat)
    requires IsRun(ss, es) && i < j < |es| && IsCall(es[i]) && !Opens(ss, es, i)
    requires forall k {:trigger es[k]} :: i < k < j ==> !es[k].Settled?
    ensures ss[j].isRelaying && ss[j].wakeOnComplete
  {
    var e := es[j - 1];
    if i + 1 < j {
      WakeWaits(ss, es, i, j - 1);
    }
  }

  /**
   * Bounded response, however many calls keep coming: a call opens a transaction at once, or the first
   * transaction to settle after it leaves a follow-up waiting, and whatever step comes next opens one.
   */
  lemma AnsweredAfterOneRun(ss: seq<State>, es: seq<Event>, i: nat, j: nat)
    requires IsRun(ss, es) && i < j < |es| && IsCall(es[i]) && !Opens(ss, es, i)
    requires es[j].Settled? && forall k {:trigger es[k]} :: i < k < j ==> !es[k].Settled?
    ensures Enabled(ss[j + 1], ImmediateFired)
    ensures j + 1 < |es| ==> Opens(ss, es, j + 1)
  {
    WakeWaits(ss, es, i, j);
    var e := es[j];
    if j + 1 < |es| {
      var next := es[j + 1];
    }
  }

  /** And it gets there: without new calls at most Backlog steps are possible, down to quiescence. */
  lemma {:induction false} BacklogShrinks(ss: seq<State>, es: seq<Event>, i: nat, n: nat)
    requires IsRun(ss, es) && i <= n <= |es|
    requires forall k {:trigger es[k]} :: i <= k < n ==> es[k] != Called
    ensures Backlog(ss[n]) + (n - i) <= Backlog(ss[i])
    ensures Backlog(ss[n]) == 0 <==> Quiescent(ss[n])
  {
    SingleFlight(ss, es, n);
    if i < n {
      BacklogShrinks(ss, es, i, n - 1);
      SingleFlight(ss, es, n - 1);
      var e := es[n - 1];
    }
  }

  /**
   * Coalescing: however many calls arrive while one run is in flight, its end schedules exactly one
   * follow-up, and none if nobody called; and it leaves the guard open even if the run threw.
   */
  lemma BurstSchedulesOneFollowUp(ss: seq<State>, es: seq<Event>, i: nat, j: nat)
    requires IsRun(ss, es) && i < j < |es|
    requires Opens(ss, es, i) && es[j].Settled?
    requires forall k {:trigger es[k]} :: i < k < j ==> IsCall(es[k])
    ensures ss[j + 1].immediates == ss[j].immediates + if j > i + 1 then 1 else 0
    ensures !ss[j + 1].isRelaying && !ss[j + 1].wakeOnComplete
  {
    SingleFlight(ss, es, i);
    WakeIffCalled(ss, es, i, j);
    var e := es[j];
  }

  lemma {:induction false} WakeIffCalled(ss: seq<State>, es: seq<Event>, i: nat, j: nat)
    requires IsRun(ss, es) && i < j < |es|
    requires Opens(ss, es, i) && !ss[i].wakeOnComplete
    requires forall k {:trigger es[k]} :: i < k < j ==> IsCall(es[k])
    ensures ss[j].isRelaying && (ss[j].wakeOnComplete <==> j > i + 1)
  {
    var e := es[j - 1];
    if j > i + 1 {
      WakeIffCalled(ss, es, i, j - 1);
    }
  }
}
