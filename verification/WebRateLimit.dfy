/** The web backend's limiter: a count and reset time per client address, with a timer that
    purges expired entries whenever it happens to fire. */
module WebRateLimit {
  datatype Hit = Hit(count: nat, resetAt: int)

  type Hits = map<string, Hit>

  datatype Event = Request(key: string, now: int) | Purge(now: int)

  function Entered(hits: Hits, key: string, now: int, windowMs: int): Hit {
    if key !in hits || now > hits[key].resetAt then Hit(1, now + windowMs)
    else Hit(hits[key].count + 1, hits[key].resetAt)
  }

  function Purged(hits: Hits, now: int): Hits {
    map k | k in hits && now <= hits[k].resetAt :: hits[k]
  }

  function After(hits: Hits, e: Event, windowMs: int): Hits {
    match e
    case Request(key, now) => hits[key := Entered(hits, key, now, windowMs)]
    case Purge(now) => Purged(hits, now)
  }

  /** A request passes while its window's count is within the limit; a purge answers nothing. */
  predicate Passes(hits: Hits, e: Event, maxRequests: int, windowMs: int) {
    e.Request? && Entered(hits, e.key, e.now, windowMs).count <= maxRequests
  }

  class Limiter {
    const maxRequests: int
    const windowMs: int
    var hits: Hits

    constructor (maxRequests: int, windowMs: int)
      ensures this.maxRequests == maxRequests && this.windowMs == windowMs && hits == map[]
    {
      this.maxRequests, this.windowMs, hits := maxRequests, windowMs, map[];
    }

    method Handle(key: string, now: int) returns (pass: bool)
      modifies this
      ensures pass == Passes(old(hits), Request(key, now), maxRequests, windowMs)
      ensures hits == After(old(hits), Request(key, now), windowMs)
      // in plain terms: a window is new when there is none or the old one is past its reset
      ensures var over := key !in old(hits) || now > old(hits)[key].resetAt;
              && hits == old(hits)[key := if over then Hit(1, now + windowMs)
                                          else Hit(old(hits)[key].count + 1, old(hits)[key].resetAt)]
              && pass == (hits[key].count <= maxRequests)
    {
      var entry := Hit(0, now + windowMs);
      if key in hits && now <= hits[key].resetAt {
        entry := hits[key];
      }
      entry := entry.(count := entry.count + 1);
      hits := hits[key := entry];
      pass := entry.count <= maxRequests;
    }

    method PurgeStale(now: int)
      modifies this
      ensures hits == After(old(hits), Purge(now), windowMs)
      ensures hits == map k | k in old(hits) && now <= old(hits)[k].resetAt :: old(hits)[k]
    {
      var pending := hits.Keys;
      ghost var start := hits;
      while pending != {}
        invariant pending <= start.Keys
        invariant hits == map k | k in start && (k in pending || now <= start[k].resetAt) :: start[k]
        decreases pending
      {
        var k :| k in pending;
        if now > hits[k].resetAt {
          hits := hits - {k};
        }
        pending := pending - {k};
      }
    }
  }

  function Decisions(hits: Hits, events: seq<Event>, maxRequests: int, windowMs: int): seq<bool>
    decreases |events|
  {
    if events == [] then []
    else [Passes(hits, events[0], maxRequests, windowMs)]
         + Decisions(After(hits, events[0], windowMs), events[1..], maxRequests, windowMs)
  }

  /** The same events with every purge ignored. */
  function PlainDecisions(hits: Hits, events: seq<Event>, maxRequests: int, windowMs: int): seq<bool>
    decreases |events|
  {
    if events == [] then []
    else [Passes(hits, events[0], maxRequests, windowMs)]
         + PlainDecisions(if events[0].Request? then After(hits, events[0], windowMs) else hits,
                          events[1..], maxRequests, windowMs)
  }

  ghost predicate Monotone(from: int, events: seq<Event>)
    decreases |events|
  {
    events == [] || (from <= events[0].now && Monotone(events[0].now, events[1..]))
  }

  ghost predicate Agrees(hits: Hits, plain: Hits, now: int) {
    && (forall k :: k in hits ==> k in plain && hits[k] == plain[k])
    && (forall k :: k in plain && k !in hits ==> now > plain[k].resetAt)
  }

  /** Purging at any times changes no answer. */
  lemma {:induction false} PurgingIsInvisible(
    hits: Hits, plain: Hits, now: int, events: seq<Event>, maxRequests: int, windowMs: int)
    requires Agrees(hits, plain, now) && Monotone(now, events)
    ensures Decisions(hits, events, maxRequests, windowMs) == PlainDecisions(plain, events, maxRequests, windowMs)
    decreases |events|
  {
    if events != [] {
      var e := events[0];
      PurgingIsInvisible(After(hits, e, windowMs), if e.Request? then After(plain, e, windowMs) else plain,
                         e.now, events[1..], maxRequests, windowMs);
    }
  }

  // ---------- at most twice the limit less one in any window-long interval ----------

  predicate InInterval(e: Event, key: string, from: int, windowMs: int) {
    e.Request? && e.key == key && from <= e.now < from + windowMs
  }

  function PassedIn(events: seq<Event>, decisions: seq<bool>, key: string, from: int, windowMs: int): nat
    requires |events| == |decisions|
    decreases |events|
  {
    if events == [] then 0
    else (if decisions[0] && InInterval(events[0], key, from, windowMs) then 1 else 0)
         + PassedIn(events[1..], decisions[1..], key, from, windowMs)
  }

  function Min(a: int, b: int): int {
    if a < b then a else b
  }

  /** How much of the allowance the interval can have used, given the client's window. The
      request that opened a window before the interval is not in it. */
  ghost predicate UsedFits(max: nat, hits: Hits, key: string, used: nat, from: int, windowMs: int) {
    if key !in hits || hits[key].resetAt < from then used == 0
    else if hits[key].resetAt < from + windowMs then used <= Min(hits[key].count, max) - 1
    else if hits[key].resetAt == from + windowMs then used <= Min(hits[key].count, max)
    else if hits[key].resetAt < from + 2 * windowMs then used <= max - 1 + Min(hits[key].count, max)
    else used <= 2 * max - 1
  }

  predicate Counts(hits: Hits, key: string) {
    key in hits ==> hits[key].count >= 1
  }

  lemma RequestFits(max: nat, hits: Hits, e: Event, key: string, used: nat, from: int, windowMs: int)
    requires max > 0 && windowMs > 0 && e.Request? && Counts(hits, key)
    requires key in hits ==> hits[key].resetAt <= e.now + windowMs
    requires UsedFits(max, hits, key, used, from, windowMs)
    ensures Counts(After(hits, e, windowMs), key)
    ensures key in After(hits, e, windowMs) ==> After(hits, e, windowMs)[key].resetAt <= e.now + windowMs
    ensures UsedFits(max, After(hits, e, windowMs), key,
                     used + (if Passes(hits, e, max, windowMs) && InInterval(e, key, from, windowMs) then 1 else 0),
                     from, windowMs)
  {
  }

  lemma {:induction false} UsedStaysBounded(
    max: nat, hits: Hits, events: seq<Event>, now: int, key: string, used: nat, from: int, windowMs: int)
    requires max > 0 && windowMs > 0 && Monotone(now, events) && Counts(hits, key)
    requires key in hits ==> hits[key].resetAt <= now + windowMs
    requires UsedFits(max, hits, key, used, from, windowMs)
    ensures |PlainDecisions(hits, events, max, windowMs)| == |events|
    ensures used + PassedIn(events, PlainDecisions(hits, events, max, windowMs), key, from, windowMs) <= 2 * max - 1
    decreases |events|
  {
    if events != [] {
      var e := events[0];
      var hits' := if e.Request? then After(hits, e, windowMs) else hits;
      var used' := used + if Passes(hits, e, max, windowMs) && InInterval(e, key, from, windowMs) then 1 else 0;
      if e.Request? {
        RequestFits(max, hits, e, key, used, from, windowMs);
      }
      UsedStaysBounded(max, hits', events[1..], e.now, key, used', from, windowMs);
      assert PlainDecisions(hits, events, max, windowMs)[1..] == PlainDecisions(hits', events[1..], max, windowMs);
    }
  }

  /** Any half-open interval one window long lets at most 2 * maxRequests - 1 requests of a
      client through, whenever the purges run. */
  lemma BelowTwiceTheLimit(events: seq<Event>, maxRequests: nat, windowMs: int, key: string, start: int, from: int)
    requires maxRequests > 0 && windowMs > 0 && Monotone(start, events)
    ensures |Decisions(map[], events, maxRequests, windowMs)| == |events|
    ensures PassedIn(events, Decisions(map[], events, maxRequests, windowMs), key, from, windowMs)
            <= 2 * maxRequests - 1
  {
    PurgingIsInvisible(map[], map[], start, events, maxRequests, windowMs);
    UsedStaysBounded(maxRequests, map[], events, start, key, 0, from, windowMs);
  }

  // ---------- the bound is reached ----------

  function Burst(key: string, now: int, n: nat): seq<Event> {
    seq(n, _ => Request(key, now))
  }

  lemma BurstHead(key: string, now: int, n: nat, rest: seq<Event>)
    requires n > 0
    ensures Burst(key, now, n) + rest == [Request(key, now)] + (Burst(key, now, n - 1) + rest)
  {
  }

  /** How many requests the limiter without purges passes in [from, from + windowMs). */
  function PassedPlain(max: nat, hits: Hits, events: seq<Event>, key: string, from: int, windowMs: int): nat {
    var d := PlainDecisions(hits, events, max, windowMs);
    if |d| == |events| then PassedIn(events, d, key, from, windowMs) else 0
  }

  lemma {:induction false} PlainLength(hits: Hits, events: seq<Event>, max: nat, windowMs: int)
    ensures |PlainDecisions(hits, events, max, windowMs)| == |events|
    decreases |events|
  {
    if events != [] {
      PlainLength(if events[0].Request? then After(hits, events[0], windowMs) else hits, events[1..], max, windowMs);
    }
  }

  lemma OnePassed(max: nat, hits: Hits, key: string, now: int, rest: seq<Event>, from: int, windowMs: int)
    requires Entered(hits, key, now, windowMs).count <= max
    ensures PassedPlain(max, hits, [Request(key, now)] + rest, key, from, windowMs)
            == (if from <= now < from + windowMs then 1 else 0)
               + PassedPlain(max, hits[key := Entered(hits, key, now, windowMs)], rest, key, from, windowMs)
  {
    var e := Request(key, now);
    var all := [e] + rest;
    var after := hits[key := Entered(hits, key, now, windowMs)];
    PlainLength(hits, all, max, windowMs);
    PlainLength(after, rest, max, windowMs);
    assert all[1..] == rest;
    assert PlainDecisions(hits, all, max, windowMs)[1..] == PlainDecisions(after, rest, max, windowMs);
  }

  /** A burst that fits the open window passes whole. */
  lemma {:induction false} BurstPassed(
    max: nat, hits: Hits, key: string, now: int, n: nat, rest: seq<Event>, from: int, windowMs: int, e: Hit)
    requires 0 < n && windowMs > 0 && from <= now < from + windowMs
    requires e == Entered(hits, key, now, windowMs) && e.count + n - 1 <= max && now <= e.resetAt
    ensures PassedPlain(max, hits, Burst(key, now, n) + rest, key, from, windowMs)
            == n + PassedPlain(max, hits[key := Hit(e.count + n - 1, e.resetAt)], rest, key, from, windowMs)
    decreases n
  {
    var counted := hits[key := e];
    BurstHead(key, now, n, rest);
    OnePassed(max, hits, key, now, Burst(key, now, n - 1) + rest, from, windowMs);
    if n == 1 {
      assert Burst(key, now, 0) + rest == rest;
    } else {
      var next := Hit(e.count + 1, e.resetAt);
      assert Entered(counted, key, now, windowMs) == next;
      BurstPassed(max, counted, key, now, n - 1, rest, from, windowMs, next);
      assert counted[key := Hit(e.count + n - 1, e.resetAt)] == hits[key := Hit(e.count + n - 1, e.resetAt)];
    }
  }

  lemma MiddlePassed(max: nat, key: string, from: int, windowMs: int, rest: seq<Event>)
    requires max > 0 && windowMs >= 2
    ensures PassedPlain(max, map[key := Hit(1, from - 2 + windowMs)], Burst(key, from, max - 1) + rest,
                        key, from, windowMs)
            == max - 1 + PassedPlain(max, map[key := Hit(max, from - 2 + windowMs)], rest, key, from, windowMs)
  {
    var open := map[key := Hit(1, from - 2 + windowMs)];
    if max == 1 {
      assert Burst(key, from, 0) + rest == rest;
    } else {
      BurstPassed(max, open, key, from, max - 1, rest, from, windowMs, Hit(2, from - 2 + windowMs));
      assert open[key := Hit(max, from - 2 + windowMs)] == map[key := Hit(max, from - 2 + windowMs)];
    }
  }

  lemma {:induction false} BurstIsMonotone(from: int, key: string, now: int, n: nat, rest: seq<Event>)
    requires from <= now && Monotone(now, rest)
    ensures Monotone(from, Burst(key, now, n) + rest)
    decreases n
  {
    if n == 0 {
      assert Burst(key, now, 0) + rest == rest;
    } else {
      BurstHead(key, now, n, rest);
      BurstIsMonotone(now, key, now, n - 1, rest);
    }
  }

  /** One request two milliseconds before the interval, the rest of its window at the start of
      the interval, and a full burst at its last millisecond. */
  function TightRun(max: nat, key: string, from: int, windowMs: int): seq<Event>
    requires max > 0
  {
    Burst(key, from - 2, 1) + (Burst(key, from, max - 1) + Burst(key, from + windowMs - 1, max))
  }

  /** The bound is reached for every limit and every window of at least two milliseconds. */
  lemma BelowTwiceIsReached(maxRequests: nat, windowMs: int, key: string, from: int)
    requires maxRequests > 0 && windowMs >= 2
    ensures var run := TightRun(maxRequests, key, from, windowMs);
            && Monotone(from - 2, run) && |Decisions(map[], run, maxRequests, windowMs)| == |run|
            && PassedIn(run, Decisions(map[], run, maxRequests, windowMs), key, from, windowMs) == 2 * maxRequests - 1
  {
    var last := Burst(key, from + windowMs - 1, maxRequests);
    var middle := Burst(key, from, maxRequests - 1) + last;
    var run := TightRun(maxRequests, key, from, windowMs);
    BurstHead(key, from - 2, 1, middle);
    assert Burst(key, from - 2, 0) + middle == middle;
    OnePassed(maxRequests, map[], key, from - 2, middle, from, windowMs);
    assert map[][key := Hit(1, from - 2 + windowMs)] == map[key := Hit(1, from - 2 + windowMs)];
    MiddlePassed(maxRequests, key, from, windowMs, last);
    var full := map[key := Hit(maxRequests, from - 2 + windowMs)];
    BurstPassed(maxRequests, full, key, from + windowMs - 1, maxRequests, [], from, windowMs,
                Hit(1, from + 2 * windowMs - 1));
    assert last + [] == last;
    BurstIsMonotone(from, key, from + windowMs - 1, maxRequests, []);
    BurstIsMonotone(from - 2, key, from, maxRequests - 1, last);
    BurstIsMonotone(from - 2, key, from - 2, 1, middle);
    PlainLength(map[], run, maxRequests, windowMs);
    PurgingIsInvisible(map[], map[], from - 2, run, maxRequests, windowMs);
  }
}
