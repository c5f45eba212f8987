/**
 The fixed-window limiter: a key may do so many things in a window of time, counted
 from the first of them. Time is a number of nanoseconds.
 */
module Limiter {
  import opened Sequences

  datatype Counter = Counter(count: int, reset: int)

  type Counters = map<string, Counter>

  const SECOND := 1_000_000_000
  const CLEANUP_SIZE := 4096

  /** The window of the key is over, or never began. */
  predicate Over(counters: Counters, key: string, now: int) {
    key !in counters || now > counters[key].reset
  }

  /** Once the map has grown to `size`, entries whose window is over go. */
  function Cleaned(counters: Counters, size: nat, now: int): Counters {
    if |counters| < size then counters
    else map k | k in counters && now <= counters[k].reset :: counters[k]
  }

  /** Whole seconds until a moment, rounded up past it. */
  function SecondsUntil(reset: int, now: int): int {
    (reset - now) / SECOND + 1
  }

  /** One event of a key: the new counters, the seconds to wait, and whether it may go on. */
  function Allow(counters: Counters, window: int, limit: int, size: nat, key: string, now: int): (Counters, int, bool) {
    var started := if Over(counters, key, now) then Cleaned(counters, size, now)[key := Counter(0, now + window)] else counters;
    var counter := Counter(started[key].count + 1, started[key].reset);
    var next := started[key := counter];
    if counter.count > limit then (next, SecondsUntil(counter.reset, now), false) else (next, 0, true)
  }

  function RetryAfter(counters: Counters, limit: int, key: string, now: int): int {
    if key !in counters || now >= counters[key].reset || counters[key].count < limit then 0
    else SecondsUntil(counters[key].reset, now)
  }

  class FixedWindow {
    const window: int
    const limit: int
    var keys: Counters

    constructor (window: int, limit: int)
      ensures this.window == window && this.limit == limit && keys == map[]
    {
      this.window, this.limit := window, limit;
      keys := map[];
    }

    method Cleanup(now: int)
      modifies this`keys
      ensures keys == Cleaned(old(keys), CLEANUP_SIZE, now)
      ensures forall k :: k in keys <==> k in old(keys) && (|old(keys)| < CLEANUP_SIZE || now <= old(keys)[k].reset)
      ensures forall k :: k in keys ==> keys[k] == old(keys)[k]
    {
      if |keys| < CLEANUP_SIZE {
        return;
      }
      var left := keys.Keys;
      while left != {}
        invariant left <= keys.Keys <= old(keys).Keys
        invariant forall k :: k in keys ==> keys[k] == old(keys)[k] && (k in left || now <= keys[k].reset)
        invariant forall k :: k in old(keys) && now <= old(keys)[k].reset ==> k in keys
        decreases |left|
      {
        var k := TakeOne(left);
        left := left - {k};
        if now > keys[k].reset {
          keys := keys - {k};
        }
      }
    }

    method AllowEvent(key: string, now: int) returns (wait: int, ok: bool)
      modifies this`keys
      ensures (keys, wait, ok) == Allow(old(keys), window, limit, CLEANUP_SIZE, key, now)
    {
      if key !in keys || now > keys[key].reset {
        Cleanup(now);
        keys := keys[key := Counter(0, now + window)];
      }
      keys := keys[key := keys[key].(count := keys[key].count + 1)];
      if keys[key].count > limit {
        return (keys[key].reset - now) / SECOND + 1, false;
      }
      return 0, true;
    }

    method SecondsToWait(key: string, now: int) returns (wait: int)
      ensures wait == RetryAfter(keys, limit, key, now)
    {
      if key !in keys || now >= keys[key].reset || keys[key].count < limit {
        return 0;
      }
      return (keys[key].reset - now) / SECOND + 1;
    }
  }

  // ---- Runs --------------------------------------------------------------------------------------

  datatype Event = Event(key: string, now: int)

  function Run(counters: Counters, window: int, limit: int, size: nat, events: seq<Event>): Counters
    decreases |events|
  {
    if events == [] then counters
    else Run(Allow(counters, window, limit, size, events[0].key, events[0].now).0, window, limit, size, events[1..])
  }

  /** The answers to a sequence of events. */
  function Answers(counters: Counters, window: int, limit: int, size: nat, events: seq<Event>): seq<(int, bool)>
    decreases |events|
  {
    if events == [] then []
    else
      var (next, wait, ok) := Allow(counters, window, limit, size, events[0].key, events[0].now);
      [(wait, ok)] + Answers(next, window, limit, size, events[1..])
  }

  /** How many events of the key were let through. */
  function Admitted(counters: Counters, window: int, limit: int, size: nat, events: seq<Event>, key: string): nat
    decreases |events|
  {
    if events == [] then 0
    else
      var (next, _, ok) := Allow(counters, window, limit, size, events[0].key, events[0].now);
      (if ok && events[0].key == key then 1 else 0) + Admitted(next, window, limit, size, events[1..], key)
  }

  /** The clock goes from `t0` to `t1` and does not go back. */
  ghost predicate Within(events: seq<Event>, t0: int, t1: int) {
    && t0 <= t1
    && (forall i :: 0 <= i < |events| ==> t0 <= events[i].now <= t1)
    && (forall i, j :: 0 <= i < j < |events| ==> events[i].now <= events[j].now)
  }

  // ---- The sweep is invisible -----------------------------------------------------------------------

  /** The two differ in counters whose window is over at most. */
  ghost predicate SameLive(a: Counters, b: Counters, now: int) {
    forall k :: (Over(a, k, now) <==> Over(b, k, now)) && (!Over(a, k, now) ==> a[k] == b[k])
  }

  lemma CleanedSameLive(a: Counters, size: nat, now: int)
    ensures SameLive(Cleaned(a, size, now), a, now)
  {
  }

  lemma AllowSameLive(a: Counters, b: Counters, window: int, limit: int, size: nat, other: nat, key: string, now: int)
    requires SameLive(a, b, now)
    ensures var (x, w, p) := Allow(a, window, limit, size, key, now);
      var (y, v, q) := Allow(b, window, limit, other, key, now);
      w == v && p == q && SameLive(x, y, now)
  {
    hide Cleaned;
    CleanedSameLive(a, size, now);
    CleanedSameLive(b, other, now);
    if !Over(a, key, now) {
      assert !Over(b, key, now);
    }
  }

  lemma SameLiveLater(a: Counters, b: Counters, now: int, later: int)
    requires SameLive(a, b, now) && now <= later
    ensures SameLive(a, b, later)
  {
    forall k ensures (Over(a, k, later) <==> Over(b, k, later)) && (!Over(a, k, later) ==> a[k] == b[k]) {
      assert Over(a, k, now) <==> Over(b, k, now);
    }
  }

  lemma {:induction false} SweepRuns(a: Counters, b: Counters, window: int, limit: int, size: nat, other: nat, events: seq<Event>, t0: int, t1: int)
    requires Within(events, t0, t1) && SameLive(a, b, t0)
    ensures Answers(a, window, limit, size, events) == Answers(b, window, limit, other, events)
    decreases |events|
  {
    hide Allow, SameLive;
    if events != [] {
      var e := events[0];
      SameLiveLater(a, b, t0, e.now);
      AllowSameLive(a, b, window, limit, size, other, e.key, e.now);
      SweepRuns(Allow(a, window, limit, size, e.key, e.now).0, Allow(b, window, limit, other, e.key, e.now).0,
        window, limit, size, other, events[1..], e.now, t1);
    }
  }

  /** Cleaning up, whenever it happens, changes no later answer. */
  lemma SweepInvisible(counters: Counters, window: int, limit: int, size: nat, other: nat, events: seq<Event>, t0: int, t1: int)
    requires Within(events, t0, t1)
    ensures Answers(counters, window, limit, size, events) == Answers(counters, window, limit, other, events)
    ensures forall key :: RetryAfter(Cleaned(counters, size, t0), limit, key, t0) == RetryAfter(counters, limit, key, t0)
  {
    SweepRuns(counters, counters, window, limit, size, other, events, t0, t1);
  }

  // ---- The bound --------------------------------------------------------------------------------------

  /** How many windows can begin from `from` on until `t1`, each after the one before is over. */
  function Windows(from: int, t1: int, window: nat): nat
    decreases t1 - from
  {
    if from > t1 then 0 else 1 + Windows(from + window + 1, t1, window)
  }

  /** What is left of the window the key is in. */
  function Left(counter: Counter, limit: nat): nat {
    if counter.count >= limit then 0 else limit - counter.count
  }

  /** How often the key can still be let through until `t1`. */
  function Budget(counters: Counters, window: nat, limit: nat, key: string, now: int, t1: int): nat {
    if Over(counters, key, now) then limit * Windows(now, t1, window)
    else Left(counters[key], limit) + limit * Windows(counters[key].reset + 1, t1, window)
  }

  lemma {:induction false} WindowsShrink(a: int, b: int, t1: int, window: nat)
    requires a <= b
    ensures Windows(b, t1, window) <= Windows(a, t1, window)
    decreases t1 - a
  {
    if a <= t1 {
      WindowsShrink(a + window + 1, b + window + 1, t1, window);
    }
  }

  lemma TimesLarger(a: nat, b: nat, d: nat)
    requires a <= b
    ensures a * d <= b * d
    ensures d * a <= d * b
  {
  }

  lemma QuotientIs(x: nat, d: nat, q: nat, r: nat)
    requires d > 0 && x == q * d + r && r < d
    ensures x / d == q
  {
    var p, s := x / d, x % d;
    assert x == p * d + s && s < d;
    OneQuotient(p, s, q, r, d);
  }

  lemma OneQuotient(p: nat, s: nat, q: nat, r: nat, d: nat)
    requires d > 0 && p * d + s == q * d + r && s < d && r < d
    ensures p == q
  {
    TimesLarger(q + 1, if p > q then p else q + 1, d);
    TimesLarger(p + 1, if q > p then q else p + 1, d);
    assert (q + 1) * d == q * d + d && (p + 1) * d == p * d + d;
  }

  lemma DivideDrop(x: nat, d: nat)
    requires d > 0 && x >= d
    ensures (x - d) / d == x / d - 1
  {
    var q, r := x / d, x % d;
    assert x == q * d + r;
    if q == 0 {
      assert false;
    } else {
      assert (q - 1) * d == q * d - d;
      QuotientIs(x - d, d, q - 1, r);
    }
  }

  lemma DivideSmaller(x: nat, y: nat, d: nat)
    requires d > 0 && x <= y
    ensures x / d <= y / d
  {
    var p, q := x / d, y / d;
    assert x == p * d + x % d && y == q * d + y % d;
    TimesLarger(q + 1, if p > q then p else q + 1, d);
    assert (q + 1) * d == q * d + d;
  }

  lemma BudgetShrinks(counters: Counters, window: nat, limit: nat, key: string, a: int, b: int, t1: int)
    requires a <= b
    ensures Budget(counters, window, limit, key, b, t1) <= Budget(counters, window, limit, key, a, t1)
  {
    hide Windows, Left;
    var from := if Over(counters, key, a) then a else counters[key].reset + 1;
    if Over(counters, key, b) {
      WindowsShrink(from, b, t1, window);
      TimesLarger(Windows(b, t1, window), Windows(from, t1, window), limit);
    }
  }

  /** Another key's event leaves the counter of a key alone, or drops it when it is over. */
  lemma OthersLeaveAlone(counters: Counters, window: int, limit: int, size: nat, other: string, now: int, key: string)
    requires other != key
    ensures var next := Allow(counters, window, limit, size, other, now).0;
      && (Over(next, key, now) <==> Over(counters, key, now))
      && (!Over(counters, key, now) ==> next[key] == counters[key])
      && (key in next ==> key in counters && next[key] == counters[key])
  {
  }

  lemma OwnEvent(counters: Counters, window: nat, limit: nat, size: nat, key: string, now: int)
    ensures var (next, wait, ok) := Allow(counters, window, limit, size, key, now);
      && key in next
      && next[key] == (if Over(counters, key, now) then Counter(1, now + window) else Counter(counters[key].count + 1, counters[key].reset))
      && (ok <==> next[key].count <= limit)
      && !Over(next, key, now)
  {
  }

  lemma AllowSpends(counters: Counters, window: nat, limit: nat, size: nat, e: Event, key: string, t1: int)
    requires e.now <= t1
    ensures var (next, _, ok) := Allow(counters, window, limit, size, e.key, e.now);
      (if ok && e.key == key then 1 else 0) + Budget(next, window, limit, key, e.now, t1) <= Budget(counters, window, limit, key, e.now, t1)
  {
    hide Allow;
    if e.key != key {
      OthersLeaveAlone(counters, window, limit, size, e.key, e.now, key);
    } else {
      OwnEvent(counters, window, limit, size, key, e.now);
      if Over(counters, key, e.now) {
        var later := Windows(e.now + window + 1, t1, window);
        assert limit * (1 + later) == limit + limit * later;
      }
    }
  }

  /** A key is never let through more often than its budget, whatever else happens. */
  lemma {:induction false} AdmittedInBudget(counters: Counters, window: nat, limit: nat, size: nat, events: seq<Event>, key: string, t0: int, t1: int)
    requires Within(events, t0, t1)
    ensures Admitted(counters, window, limit, size, events, key) <= Budget(counters, window, limit, key, t0, t1)
    decreases |events|
  {
    hide Allow, Budget;
    if events != [] {
      var e := events[0];
      var next := Allow(counters, window, limit, size, e.key, e.now).0;
      BudgetShrinks(counters, window, limit, key, t0, e.now, t1);
      AllowSpends(counters, window, limit, size, e, key, t1);
      AdmittedInBudget(next, window, limit, size, events[1..], key, e.now, t1);
    }
  }

  lemma OneEarlier(e: Event, rest: seq<Event>, t1: int)
    requires Within(rest, e.now, t1)
    ensures Within([e] + rest, e.now, t1)
    ensures ([e] + rest)[1..] == rest
  {
  }

  /** An event that is let through takes one off the budget. */
  lemma OneAdmitted(counters: Counters, window: nat, limit: nat, size: nat, key: string, now: int, t1: int)
    requires now <= t1 && (if Over(counters, key, now) then limit > 0 else Left(counters[key], limit) > 0)
    ensures var (next, _, ok) := Allow(counters, window, limit, size, key, now);
      && ok && !Over(next, key, now)
      && Budget(next, window, limit, key, now, t1) + 1 == Budget(counters, window, limit, key, now, t1)
      && Left(next[key], limit) < (if Over(counters, key, now) then limit + 1 else Left(counters[key], limit))
  {
    hide Allow;
    OwnEvent(counters, window, limit, size, key, now);
    if Over(counters, key, now) {
      var later := Windows(now + window + 1, t1, window);
      assert limit * (1 + later) == limit + limit * later;
    }
  }

  /** The budget is what a key can do: spending it as soon as it can, it is let through so often. */
  lemma {:induction false} BudgetReached(counters: Counters, window: nat, limit: nat, size: nat, key: string, t0: int, t1: int)
    returns (events: seq<Event>)
    requires t0 <= t1
    ensures Within(events, t0, t1)
    ensures Admitted(counters, window, limit, size, events, key) == Budget(counters, window, limit, key, t0, t1)
    decreases t1 - t0, if Over(counters, key, t0) then limit + 1 else Left(counters[key], limit)
  {
    hide Allow;
    var goesOn := if Over(counters, key, t0) then limit > 0 else Left(counters[key], limit) > 0;
    if goesOn {
      OneAdmitted(counters, window, limit, size, key, t0, t1);
      var e := Event(key, t0);
      var rest := BudgetReached(Allow(counters, window, limit, size, key, t0).0, window, limit, size, key, t0, t1);
      OneEarlier(e, rest, t1);
      events := [e] + rest;
    } else if !Over(counters, key, t0) && counters[key].reset + 1 <= t1 {
      events := BudgetReached(counters, window, limit, size, key, counters[key].reset + 1, t1);
    } else {
      events := [];
    }
  }

  /** Whole windows in a stretch of time. */
  function Whole(x: nat, window: nat): (n: nat)
    requires window > 0
  {
    x / window
  }

  lemma WholeStep(x: nat, window: nat)
    requires window > 0 && x > window
    ensures Whole(x - window - 1, window) + 1 <= Whole(x, window)
  {
    DivideDrop(x, window);
    DivideSmaller(x - window - 1, x - window, window);
  }

  lemma {:induction false} WindowsBound(t0: int, t1: int, window: nat)
    requires t0 <= t1 && window > 0
    ensures Windows(t0, t1, window) <= Whole(t1 - t0, window) + 1
    decreases t1 - t0
  {
    hide Whole;
    var next := t0 + window + 1;
    if next <= t1 {
      WindowsBound(next, t1, window);
      WholeStep(t1 - t0, window);
    } else {
      assert Windows(next, t1, window) == 0;
    }
  }

  /**
   From a fresh start, or any moment at which no window of the key is running, it is let
   through at most limit times per window begun.
   */
  lemma FreshBound(counters: Counters, window: nat, limit: nat, size: nat, events: seq<Event>, key: string, t0: int, t1: int)
    requires Within(events, t0, t1) && window > 0 && Over(counters, key, t0)
    ensures Admitted(counters, window, limit, size, events, key) <= limit * (Whole(t1 - t0, window) + 1)
  {
    hide Whole;
    AdmittedInBudget(counters, window, limit, size, events, key, t0, t1);
    WindowsBound(t0, t1, window);
    TimesLarger(Windows(t0, t1, window), Whole(t1 - t0, window) + 1, limit);
  }

  /** Looking at any stretch of time, a window that is running already adds what it has left. */
  lemma AnyBound(counters: Counters, window: nat, limit: nat, size: nat, events: seq<Event>, key: string, t0: int, t1: int)
    requires Within(events, t0, t1) && window > 0 && !Over(counters, key, t0)
    ensures Admitted(counters, window, limit, size, events, key) <= Left(counters[key], limit) + limit * (Whole(t1 - t0, window) + 1)
  {
    hide Windows, Left, Whole;
    AdmittedInBudget(counters, window, limit, size, events, key, t0, t1);
    WindowsShrink(t0, counters[key].reset + 1, t1, window);
    WindowsBound(t0, t1, window);
    TimesLarger(Windows(counters[key].reset + 1, t1, window), Whole(t1 - t0, window) + 1, limit);
  }

  /**
   The extra term is needed: with two per ten, a key that did one thing at the start gets
   three through within one unit of time when its window ends.
   */
  lemma RunningWindowAdds() returns (counters: Counters, events: seq<Event>)
    ensures counters == Run(map[], 10, 2, CLEANUP_SIZE, [Event("k", 0)])
    ensures Within(events, 10, 11) && !Over(counters, "k", 10)
    ensures Admitted(counters, 10, 2, CLEANUP_SIZE, events, "k") == 3 > 2 * (Whole(11 - 10, 10) + 1)
  {
    counters := map["k" := Counter(1, 10)];
    events := [Event("k", 10), Event("k", 11), Event("k", 11)];
    OwnEvent(map[], 10, 2, CLEANUP_SIZE, "k", 0);
    assert Allow(map[], 10, 2, CLEANUP_SIZE, "k", 0).0 == counters;
    assert [Event("k", 0)][1..] == [];
    var second := Allow(counters, 10, 2, CLEANUP_SIZE, "k", 10).0;
    OwnEvent(counters, 10, 2, CLEANUP_SIZE, "k", 10);
    var third := Allow(second, 10, 2, CLEANUP_SIZE, "k", 11).0;
    OwnEvent(second, 10, 2, CLEANUP_SIZE, "k", 11);
    OwnEvent(third, 10, 2, CLEANUP_SIZE, "k", 11);
    assert events[1..] == [Event("k", 11), Event("k", 11)] && events[1..][1..] == [Event("k", 11)] && events[1..][1..][1..] == [];
    assert Admitted(third, 10, 2, CLEANUP_SIZE, [Event("k", 11)], "k") == 1;
    assert Admitted(second, 10, 2, CLEANUP_SIZE, events[1..], "k") == 2;
  }

  /**
   Exactly when a stretch of time keeps to limit times the whole windows begun, whatever
   happens in it: when the budget of the key at its start does.
   */
  lemma PlainBoundExact(counters: Counters, window: nat, limit: nat, size: nat, key: string, t0: int, t1: int)
    requires t0 <= t1 && window > 0
    ensures (forall events :: Within(events, t0, t1) ==>
        Admitted(counters, window, limit, size, events, key) <= limit * (Whole(t1 - t0, window) + 1))
      <==> Budget(counters, window, limit, key, t0, t1) <= limit * (Whole(t1 - t0, window) + 1)
  {
    hide Budget, Admitted, Within, Whole;
    var bound := limit * (Whole(t1 - t0, window) + 1);
    var most := BudgetReached(counters, window, limit, size, key, t0, t1);
    if Budget(counters, window, limit, key, t0, t1) <= bound {
      forall events | Within(events, t0, t1) ensures Admitted(counters, window, limit, size, events, key) <= bound {
        AdmittedInBudget(counters, window, limit, size, events, key, t0, t1);
      }
    }
  }

  // ---- Waiting ------------------------------------------------------------------------------------------

  /** Events of other keys leave a counter as it is, or drop it once it is over. */
  lemma {:induction false} OthersRun(counters: Counters, window: int, limit: int, size: nat, events: seq<Event>, key: string)
    requires forall e :: e in events ==> e.key != key
    ensures var after := Run(counters, window, limit, size, events);
      key in after ==> key in counters && after[key] == counters[key]
    decreases |events|
  {
    hide Allow;
    if events != [] {
      var e := events[0];
      OthersLeaveAlone(counters, window, limit, size, e.key, e.now, key);
      OthersRun(Allow(counters, window, limit, size, e.key, e.now).0, window, limit, size, events[1..], key);
    }
  }

  lemma PastTheReset(reset: int, now: int, later: int)
    requires later >= now + SecondsUntil(reset, now) * SECOND
    ensures later > reset
  {
    var x := reset - now;
    assert x == (x / SECOND) * SECOND + x % SECOND;
    assert SecondsUntil(reset, now) * SECOND == (x / SECOND) * SECOND + SECOND;
  }

  /**
   A key that is refused is told to wait at least a second, and if it waits that long
   with no event of its own in between, it is let through.
   */
  lemma WaitingAdmits(counters: Counters, window: nat, limit: nat, size: nat, key: string, now: int, events: seq<Event>, later: int)
    requires limit >= 1 && !Allow(counters, window, limit, size, key, now).2
    requires forall e :: e in events ==> e.key != key
    requires later >= now + Allow(counters, window, limit, size, key, now).1 * 1_000_000_000
    ensures Allow(counters, window, limit, size, key, now).1 >= 1
    ensures var after := Run(Allow(counters, window, limit, size, key, now).0, window, limit, size, events);
      Allow(after, window, limit, size, key, later).2
  {
    hide SecondsUntil;
    var (next, wait, ok) := Allow(counters, window, limit, size, key, now);
    RefusedWait(counters, window, limit, size, key, now);
    PastTheReset(next[key].reset, now, later);
    OthersRun(next, window, limit, size, events, key);
    var after := Run(next, window, limit, size, events);
    assert Over(after, key, later);
    OwnEvent(after, window, limit, size, key, later);
  }

  lemma RefusedWait(counters: Counters, window: nat, limit: nat, size: nat, key: string, now: int)
    requires limit >= 1 && !Allow(counters, window, limit, size, key, now).2
    ensures var (next, wait, ok) := Allow(counters, window, limit, size, key, now);
      key in next && wait == SecondsUntil(next[key].reset, now) && wait >= 1
  {
    OwnEvent(counters, window, limit, size, key, now);
  }

  /** The same holds for the wait that is announced without counting an event. */
  lemma AnnouncedWaitAdmits(counters: Counters, window: nat, limit: nat, size: nat, key: string, now: int, events: seq<Event>, later: int)
    requires limit >= 1 && RetryAfter(counters, limit, key, now) != 0
    requires forall e :: e in events ==> e.key != key
    requires later >= now + RetryAfter(counters, limit, key, now) * 1_000_000_000
    ensures RetryAfter(counters, limit, key, now) >= 1
    ensures Allow(Run(counters, window, limit, size, events), window, limit, size, key, later).2
  {
    hide SecondsUntil;
    PastTheReset(counters[key].reset, now, later);
    OthersRun(counters, window, limit, size, events, key);
    OwnEvent(Run(counters, window, limit, size, events), window, limit, size, key, later);
    AtLeastOne(counters[key].reset, now);
  }

  /** A running counter stays, and only grows, as long as its window runs. */
  lemma {:induction false} RunningStays(counters: Counters, window: nat, limit: nat, size: nat, events: seq<Event>, key: string, t0: int, t1: int)
    requires Within(events, t0, t1) && key in counters && t1 <= counters[key].reset
    ensures var after := Run(counters, window, limit, size, events);
      key in after && after[key].reset == counters[key].reset && after[key].count >= counters[key].count
    decreases |events|
  {
    hide Allow;
    if events != [] {
      var e := events[0];
      if e.key == key {
        OwnEvent(counters, window, limit, size, key, e.now);
      } else {
        OthersLeaveAlone(counters, window, limit, size, e.key, e.now, key);
        RunningKept(Allow(counters, window, limit, size, e.key, e.now).0, key, e.now);
      }
      RunningStays(Allow(counters, window, limit, size, e.key, e.now).0, window, limit, size, events[1..], key, e.now, t1);
    }
  }

  lemma RunningKept(counters: Counters, key: string, now: int)
    ensures !Over(counters, key, now) ==> key in counters
  {
  }

  lemma WithinReset(reset: int, now: int, later: int)
    requires now <= reset && later <= now + (SecondsUntil(reset, now) - 1) * SECOND
    ensures later <= reset
  {
    var x := reset - now;
    assert x == (x / SECOND) * SECOND + x % SECOND;
  }

  /**
   The announced wait is the least: whatever happens in between, an event of the key that
   comes a second or more before the wait is over is refused again.
   */
  lemma WaitIsLeast(counters: Counters, window: nat, limit: nat, size: nat, key: string, now: int, events: seq<Event>, later: int)
    requires limit >= 1 && !Allow(counters, window, limit, size, key, now).2
    requires Within(events, now, later)
    requires later <= now + (Allow(counters, window, limit, size, key, now).1 - 1) * 1_000_000_000
    ensures var after := Run(Allow(counters, window, limit, size, key, now).0, window, limit, size, events);
      !Allow(after, window, limit, size, key, later).2
  {
    hide SecondsUntil, Allow;
    var (next, wait, ok) := Allow(counters, window, limit, size, key, now);
    OwnEvent(counters, window, limit, size, key, now);
    RefusedWait(counters, window, limit, size, key, now);
    WithinReset(next[key].reset, now, later);
    RunningStays(next, window, limit, size, events, key, now, later);
    OwnEvent(Run(next, window, limit, size, events), window, limit, size, key, later);
  }

  /** The same holds for the wait that is announced without counting an event. */
  lemma AnnouncedWaitIsLeast(counters: Counters, window: nat, limit: nat, size: nat, key: string, now: int, events: seq<Event>, later: int)
    requires limit >= 1 && RetryAfter(counters, limit, key, now) != 0
    requires Within(events, now, later)
    requires later <= now + (RetryAfter(counters, limit, key, now) - 1) * 1_000_000_000
    ensures !Allow(Run(counters, window, limit, size, events), window, limit, size, key, later).2
  {
    hide SecondsUntil, Allow;
    WithinReset(counters[key].reset, now, later);
    RunningStays(counters, window, limit, size, events, key, now, later);
    OwnEvent(Run(counters, window, limit, size, events), window, limit, size, key, later);
  }

  /** An event that is let through is told to wait for nothing. */
  lemma AdmittedAtOnce(counters: Counters, window: nat, limit: nat, size: nat, key: string, now: int)
    requires Allow(counters, window, limit, size, key, now).2
    ensures Allow(counters, window, limit, size, key, now).1 == 0
  {
  }

  lemma AtLeastOne(reset: int, now: int)
    requires now <= reset
    ensures SecondsUntil(reset, now) >= 1
  {
  }

  /**
   Announcing no wait and refusing the next event go together at one instant only: the
   very moment a full window ends.
   */
  lemma NoWaitYetRefused(counters: Counters, window: nat, limit: nat, size: nat, key: string, now: int)
    requires limit >= 1
    ensures RetryAfter(counters, limit, key, now) == 0 && !Allow(counters, window, limit, size, key, now).2 <==>
      key in counters && now == counters[key].reset && counters[key].count >= limit
  {
    OwnEvent(counters, window, limit, size, key, now);
    if key in counters && now <= counters[key].reset {
      AtLeastOne(counters[key].reset, now);
    }
  }
}
