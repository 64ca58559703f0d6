/**
 * The sliding-window rate limiter: one bucket of the Lua script.
 *
 * The sorted set holds the stamps of admitted requests. It is pruned on every call and the whole
 * key disappears after a quiet window, so it only ever holds part of the admission history. The
 * results below compare it with a limiter that remembers everything.
 */
module RateLimit {
  import opened Common

  // A sorted-set member: its score is the caller's clock and its name is "now:jitter".
  datatype Stamp = Stamp(at: int, jitter: string)

  // The key as Redis stores it. An empty sorted set has no key, hence no deadline.
  datatype Key = Key(stamps: set<Stamp>, deadline: Option<int>)

  // One evaluation: the caller's clock, Redis's own clock, the caller's random suffix, and whether
  // Redis dropped the key before the script ran.
  datatype Call = Call(now: int, clock: int, jitter: string, lapsed: bool)

  datatype Reply =
    | Allowed(remaining: int)
    | Denied(retryAfterSecs: int)
    | ScriptError  // ZRANGE of an empty set: tonumber(nil) + window

  datatype Tier = Tier(window: int, limit: int)

  /** The oldest score of a non-empty sorted set. */
  ghost function Oldest(stamps: set<Stamp>): (o: int)
    requires stamps != {}
    ensures exists s :: s in stamps && s.at == o
    ensures forall s :: s in stamps ==> o <= s.at
  {
    OldestExists(stamps);
    var s :| s in stamps && forall t :: t in stamps ==> s.at <= t.at;
    s.at
  }

  lemma OldestExists(stamps: set<Stamp>)
    requires stamps != {}
    ensures exists s :: s in stamps && forall t :: t in stamps ==> s.at <= t.at
  {
    var s :| s in stamps;
    if stamps - {s} != {} {
      OldestExists(stamps - {s});
      var m :| m in stamps - {s} && forall t :: t in stamps - {s} ==> m.at <= t.at;
      var least := if s.at <= m.at then s else m;
      assert forall t :: t in stamps ==> t == s || t in stamps - {s};
      assert forall t :: t in stamps ==> least.at <= t.at;
    } else {
      assert stamps == {s};
    }
  }

  function CeilSeconds(ms: int): int {
    (ms + 999) / 1000
  }

  /** Stamps later than `from`, up to and including `to`. */
  function Between(stamps: set<Stamp>, from: int, to: int): set<Stamp> {
    set s | s in stamps && from < s.at <= to
  }

  /** The stamps of the interval (from, from + length]. */
  function Span(stamps: set<Stamp>, from: int, length: int): set<Stamp> {
    Between(stamps, from, from + length)
  }

  function Pruned(k: Key, c: Call, tier: Tier): set<Stamp> {
    var live := if c.lapsed then {} else k.stamps;
    set s | s in live && c.now - tier.window < s.at
  }

  /** What one evaluation of the script does to the key, and what it answers. */
  ghost function Script(k: Key, c: Call, tier: Tier): (Key, Reply) {
    var kept := Pruned(k, c, tier);
    if |kept| < tier.limit then
      (Key(kept + {Stamp(c.now, c.jitter)}, Some(c.clock + tier.window)),
       Allowed(tier.limit - |kept| - 1))
    else if kept == {} then
      (Key({}, None), ScriptError)
    else
      (Key(kept, if c.lapsed then None else k.deadline),
       Denied(CeilSeconds(Max0(Oldest(kept) + tier.window - c.now))))
  }

  function Max0(n: int): int {
    if n < 0 then 0 else n
  }

  /** The Redis side of one bucket. */
  class SlidingWindow {
    const tier: Tier
    var stamps: set<Stamp>
    var deadline: Option<int>

    constructor (tier: Tier)
      ensures this.tier == tier && View() == EMPTY_KEY
    {
      this.tier := tier;
      stamps := {};
      deadline := None;
    }

    function View(): Key
      reads this
    {
      Key(stamps, deadline)
    }

    method OldestStamp() returns (o: int)
      requires stamps != {}
      ensures o == Oldest(stamps)
    {
      var first :| first in stamps;
      o := first.at;
      var rest := stamps - {first};
      while rest != {}
        invariant rest <= stamps
        invariant exists s :: s in stamps && s.at == o
        invariant forall s :: s in stamps - rest ==> o <= s.at
        decreases |rest|
      {
        var s :| s in rest;
        if s.at < o {
          o := s.at;
        }
        rest := rest - {s};
      }
      assert stamps - rest == stamps;
    }

    method Eval(c: Call) returns (reply: Reply)
      modifies this
      ensures (View(), reply) == Script(old(View()), c, tier)
    {
      if c.lapsed {
        stamps, deadline := {}, None;
      }
      stamps := set s | s in stamps && c.now - tier.window < s.at;
      var count := |stamps|;
      if count < tier.limit {
        stamps := stamps + {Stamp(c.now, c.jitter)};
        deadline := Some(c.clock + tier.window);
        reply := Allowed(tier.limit - count - 1);
      } else if stamps == {} {
        deadline := None;
        reply := ScriptError;
      } else {
        var oldest := OldestStamp();
        reply := Denied(CeilSeconds(Max0(oldest + tier.window - c.now)));
      }
    }
  }

  // ---- Runs ----

  const EMPTY_KEY := Key({}, None)

  // The key, every stamp ever admitted, and the last clock Redis showed.
  datatype World = World(key: Key, admitted: set<Stamp>, clock: int)

  ghost function Answer(w: World, c: Call, tier: Tier): Reply {
    Script(w.key, c, tier).1
  }

  ghost function Next(w: World, c: Call, tier: Tier): World {
    var (key, reply) := Script(w.key, c, tier);
    World(key, if reply.Allowed? then w.admitted + {Stamp(c.now, c.jitter)} else w.admitted, c.clock)
  }

  /**
   * A call Redis could see in `w`: its stamp is new, the key was dropped only past its deadline,
   * Redis's clock did not run back, and the caller's clock is at most `behind` behind and `ahead`
   * ahead of it. Callers' clocks may therefore run back by `behind + ahead` between calls.
   */
  ghost predicate Legal(w: World, c: Call, behind: nat, ahead: nat) {
    && Stamp(c.now, c.jitter) !in w.admitted
    && (c.lapsed ==> w.key.deadline.Some? && w.key.deadline.value <= c.clock)
    && w.clock <= c.clock
    && c.clock - behind <= c.now <= c.clock + ahead
  }

  /** A run: `ws[i]` is the world the i-th call meets. */
  ghost predicate IsRun(ws: seq<World>, calls: seq<Call>, tier: Tier, behind: nat, ahead: nat) {
    && |ws| == |calls| + 1
    && ws[0].key == EMPTY_KEY && ws[0].admitted == {}
    && forall i {:trigger calls[i]} :: 0 <= i < |calls| ==>
         Legal(ws[i], calls[i], behind, ahead) && ws[i + 1] == Next(ws[i], calls[i], tier)
  }

  // What a run keeps.
  ghost predicate Inv(w: World, tier: Tier, behind: nat, ahead: nat) {
    && w.key.stamps <= w.admitted
    && (forall s :: s in w.admitted ==> s.at <= w.clock + ahead)
    && (forall s :: s in w.admitted && s !in w.key.stamps ==> s.at <= w.clock + ahead - tier.window)
    && (w.key.deadline.Some? ==>
          forall s :: s in w.key.stamps ==> s.at <= w.key.deadline.value + ahead - tier.window)
    && Bounded(w.admitted, tier, tier.window - behind - ahead)
  }

  ghost predicate Bounded(admitted: set<Stamp>, tier: Tier, length: int) {
    forall x :: |Span(admitted, x, length)| <= Max0(tier.limit)
  }

  lemma StepKeepsInv(w: World, c: Call, tier: Tier, behind: nat, ahead: nat)
    requires behind + ahead < tier.window
    requires Inv(w, tier, behind, ahead) && Legal(w, c, behind, ahead)
    ensures Inv(Next(w, c, tier), tier, behind, ahead)
  {
    var w' := Next(w, c, tier);
    var length := tier.window - behind - ahead;
    var kept := Pruned(w.key, c, tier);
    var stamp := Stamp(c.now, c.jitter);
    forall x
      ensures |Span(w'.admitted, x, length)| <= Max0(tier.limit)
    {
      var before := Span(w.admitted, x, length);
      var after := Span(w'.admitted, x, length);
      if stamp !in after || |kept| >= tier.limit {
        assert after <= before;
        SubsetSize(after, before);
      } else {
        assert before <= kept;
        SubsetSize(after, kept + {stamp});
      }
    }
  }

  lemma {:induction false} RunKeepsInv(ws: seq<World>, calls: seq<Call>, i: nat, tier: Tier, behind: nat, ahead: nat)
    requires behind + ahead < tier.window
    requires IsRun(ws, calls, tier, behind, ahead) && i < |ws|
    ensures Inv(ws[i], tier, behind, ahead)
  {
    if i == 0 {
      var length := tier.window - behind - ahead;
      forall x
        ensures |Span({}, x, length)| <= Max0(tier.limit)
      {
        assert Span({}, x, length) == {};
      }
    } else {
      RunKeepsInv(ws, calls, i - 1, tier, behind, ahead);
      assert Legal(ws[i - 1], calls[i - 1], behind, ahead);
      StepKeepsInv(ws[i - 1], calls[i - 1], tier, behind, ahead);
    }
  }

  /**
   * With callers' clocks within `behind`/`ahead` of Redis's, no interval of length
   * window - behind - ahead ever holds more than `limit` admissions, key expiry included. With
   * exact clocks that is every window.
   */
  lemma AdmissionsAreBounded(ws: seq<World>, calls: seq<Call>, i: nat, tier: Tier, behind: nat, ahead: nat, x: int)
    requires behind + ahead < tier.window
    requires IsRun(ws, calls, tier, behind, ahead) && i < |ws|
    ensures |Span(ws[i].admitted, x, tier.window - behind - ahead)| <= Max0(tier.limit)
  {
    RunKeepsInv(ws, calls, i, tier, behind, ahead);
  }

  /** The limiter that keeps the whole history and counts the last window. */
  ghost function Reference(admitted: set<Stamp>, now: int, tier: Tier): Reply {
    var recent := Between(admitted, now - tier.window, now);
    if |recent| < tier.limit then Allowed(tier.limit - |recent| - 1)
    else if recent == {} then ScriptError
    else Denied(CeilSeconds(Oldest(recent) + tier.window - now))
  }

  // Facts about one call and the world it meets, from which the rest follows.
  ghost predicate Meets(w: World, c: Call, tier: Tier) {
    && Answer(w, c, tier) == Reference(w.admitted, c.now, tier)
    && Pruned(w.key, c, tier) == Between(w.admitted, c.now - tier.window, c.now)
    && |Pruned(w.key, c, tier)| <= Max0(tier.limit)
    && (forall s :: s in w.admitted ==> s.at <= c.now)
  }

  lemma WorldMeets(w: World, c: Call, tier: Tier)
    requires tier.window > 0
    requires Inv(w, tier, 0, 0) && Legal(w, c, 0, 0)
    ensures Meets(w, c, tier)
  {
    var kept := Pruned(w.key, c, tier);
    assert kept == Between(w.admitted, c.now - tier.window, c.now);
    assert kept == Span(w.admitted, c.now - tier.window, tier.window);
    if |kept| >= tier.limit && kept != {} {
      assert Oldest(kept) + tier.window - c.now > 0;
    }
  }

  /** With exact clocks, pruning and key expiry never change an answer. */
  lemma ScriptRefinesReference(ws: seq<World>, calls: seq<Call>, i: nat, tier: Tier)
    requires tier.window > 0
    requires IsRun(ws, calls, tier, 0, 0) && i < |calls|
    ensures Answer(ws[i], calls[i], tier) == Reference(ws[i].admitted, calls[i].now, tier)
    ensures Meets(ws[i], calls[i], tier)
  {
    RunKeepsInv(ws, calls, i, tier, 0, 0);
    WorldMeets(ws[i], calls[i], tier);
  }

  // ---- Retry-After (section 4 of RFC 6585) ----

  /** When the oldest stamp that a denied call counted leaves the window. */
  ghost function FreeAt(w: World, c: Call, tier: Tier): int
    requires Answer(w, c, tier).Denied?
  {
    Oldest(Pruned(w.key, c, tier)) + tier.window
  }

  lemma {:induction false} ClocksNeverRunBack(ws: seq<World>, calls: seq<Call>, i: nat, j: nat, tier: Tier)
    requires IsRun(ws, calls, tier, 0, 0) && i <= j < |calls|
    ensures calls[i].now <= calls[j].now
  {
    if i < j {
      ClocksNeverRunBack(ws, calls, i, j - 1, tier);
      assert Legal(ws[j - 1], calls[j - 1], 0, 0) && Legal(ws[j], calls[j], 0, 0);
    }
  }

  lemma StaysDenied(w: World, c: Call, w': World, c': Call, tier: Tier)
    requires Meets(w, c, tier) && Meets(w', c', tier) && w'.admitted == w.admitted
    requires Answer(w, c, tier).Denied?
    requires c.now <= c'.now < FreeAt(w, c, tier)
    ensures Answer(w', c', tier).Denied?
  {
    var seen := Between(w.admitted, c.now - tier.window, c.now);
    assert seen <= Between(w.admitted, c'.now - tier.window, c'.now);
    SubsetSize(seen, Between(w.admitted, c'.now - tier.window, c'.now));
  }

  /** After a denial nothing is admitted before the oldest stamp it counted leaves the window. */
  lemma {:induction false} DeniedUntilOldestLeaves(ws: seq<World>, calls: seq<Call>, i: nat, j: nat, tier: Tier)
    requires tier.window > 0
    requires IsRun(ws, calls, tier, 0, 0) && i <= j < |calls|
    requires Answer(ws[i], calls[i], tier).Denied?
    requires calls[j].now < FreeAt(ws[i], calls[i], tier)
    ensures Answer(ws[j], calls[j], tier).Denied? && ws[j].admitted == ws[i].admitted
  {
    if i < j {
      ClocksNeverRunBack(ws, calls, j - 1, j, tier);
      DeniedUntilOldestLeaves(ws, calls, i, j - 1, tier);
      assert ws[j].admitted == ws[i].admitted;
      ClocksNeverRunBack(ws, calls, i, j, tier);
      ScriptRefinesReference(ws, calls, i, tier);
      ScriptRefinesReference(ws, calls, j, tier);
      StaysDenied(ws[i], calls[i], ws[j], calls[j], tier);
    }
  }

  // Nothing is admitted before the oldest stamp leaves, and by hypothesis nothing after.
  lemma {:induction false} NothingAdmittedBetween(ws: seq<World>, calls: seq<Call>, i: nat, j: nat, free: int,
                                                  tier: Tier)
    requires tier.window > 0
    requires IsRun(ws, calls, tier, 0, 0) && i <= j < |calls|
    requires Answer(ws[i], calls[i], tier).Denied? && free == FreeAt(ws[i], calls[i], tier)
    requires forall k {:trigger calls[k]} :: i < k < j && free <= calls[k].now ==>
               !Answer(ws[k], calls[k], tier).Allowed?
    ensures ws[j].admitted == ws[i].admitted
  {
    if i < j {
      assert !Answer(ws[j - 1], calls[j - 1], tier).Allowed? by {
        if calls[j - 1].now < free {
          DeniedUntilOldestLeaves(ws, calls, i, j - 1, tier);
        }
      }
      assert ws[j].admitted == ws[j - 1].admitted;
      NothingAdmittedBetween(ws, calls, i, j - 1, free, tier);
    }
  }

  lemma WaitingFrees(w: World, d: Call, w': World, c: Call, tier: Tier)
    requires Meets(w, d, tier) && Meets(w', c, tier) && w'.admitted == w.admitted
    requires Answer(w, d, tier).Denied?
    requires c.now == d.now + 1000 * Answer(w, d, tier).retryAfterSecs
    ensures Answer(w', c, tier).Allowed?
    ensures FreeAt(w, d, tier) <= c.now < FreeAt(w, d, tier) + 1000
    ensures 1 <= Answer(w, d, tier).retryAfterSecs <= CeilSeconds(tier.window)
  {
    var seen := Between(w.admitted, d.now - tier.window, d.now);
    var oldest :| oldest in seen && oldest.at == Oldest(seen);
    assert Between(w.admitted, c.now - tier.window, c.now) <= seen - {oldest};
    SubsetSize(Between(w.admitted, c.now - tier.window, c.now), seen - {oldest});
  }

  /**
   * Retry-After is right to the second: a request after exactly that wait is admitted if nobody
   * else was once the oldest stamp had left, the wait overshoots by less than a second, and it is
   * between one second and the window rounded up.
   */
  lemma RetryAfterIsExact(ws: seq<World>, calls: seq<Call>, i: nat, j: nat, free: int, tier: Tier)
    requires tier.window > 0
    requires IsRun(ws, calls, tier, 0, 0) && i < j < |calls|
    requires Answer(ws[i], calls[i], tier).Denied? && free == FreeAt(ws[i], calls[i], tier)
    requires calls[j].now == calls[i].now + 1000 * Answer(ws[i], calls[i], tier).retryAfterSecs
    requires forall k {:trigger calls[k]} :: i < k < j && free <= calls[k].now ==>
               !Answer(ws[k], calls[k], tier).Allowed?
    ensures Answer(ws[j], calls[j], tier).Allowed?
    ensures free <= calls[j].now < free + 1000
    ensures 1 <= Answer(ws[i], calls[i], tier).retryAfterSecs <= CeilSeconds(tier.window)
  {
    ScriptRefinesReference(ws, calls, i, tier);
    ScriptRefinesReference(ws, calls, j, tier);
    NothingAdmittedBetween(ws, calls, i, j, free, tier);
    WaitingFrees(ws[i], calls[i], ws[j], calls[j], tier);
  }

  lemma {:induction false} NothingStored(ws: seq<World>, calls: seq<Call>, i: nat, tier: Tier, behind: nat, ahead: nat)
    requires IsRun(ws, calls, tier, behind, ahead) && i < |ws| && tier.limit <= 0
    ensures ws[i].key.stamps == {}
  {
    if i > 0 {
      NothingStored(ws, calls, i - 1, tier, behind, ahead);
      var c := calls[i - 1];
      assert Pruned(ws[i - 1].key, c, tier) == {};
    }
  }

  /**
   * Whatever the clocks do, the script fails exactly for a tier that admits nothing; every configured tier
   * admits at least 5.
   */
  lemma ScriptErrorOnlyWithoutLimit(ws: seq<World>, calls: seq<Call>, i: nat, tier: Tier, behind: nat, ahead: nat)
    requires IsRun(ws, calls, tier, behind, ahead) && i < |calls|
    ensures Answer(ws[i], calls[i], tier).ScriptError? <==> tier.limit <= 0
  {
    if tier.limit <= 0 {
      NothingStored(ws, calls, i, tier, behind, ahead);
      assert Pruned(ws[i].key, calls[i], tier) == {};
    }
  }
}
