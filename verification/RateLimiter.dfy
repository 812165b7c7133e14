/** The per-actor rate limit of the policy engine: one fixed window per actor, and a
    garbage collection of stale entries once the table is large. */
module RateLimiter {
  const SECOND := 1_000_000_000          // steady_clock nanoseconds
  const WINDOW_SECONDS := 60
  const WINDOW := 60 * SECOND
  const GC_THRESHOLD := 1000
  const STALE := 120 * SECOND

  datatype Entry = Entry(start: int, count: nat)

  /** A default-constructed entry: window at the clock's epoch, nothing counted. */
  const FRESH := Entry(0, 0)

  type Limits = map<string, Entry>

  function Get(entries: Limits, actor: string): Entry {
    if actor in entries then entries[actor] else FRESH
  }

  /** duration_cast to seconds rounds toward zero. */
  function ElapsedSeconds(now: int, start: int): int {
    if now >= start then (now - start) / SECOND else -((start - now) / SECOND)
  }

  function Visited(e: Entry, now: int): Entry {
    var elapsed := ElapsedSeconds(now, e.start);
    if elapsed >= WINDOW_SECONDS || elapsed < 0 then Entry(now, 1) else Entry(e.start, e.count + 1)
  }

  function Collected(entries: Limits, now: int): Limits {
    map a | a in entries && entries[a].start >= now - STALE :: entries[a]
  }

  /** One check: the token budget first, then the window; the first visit of a window is
      admitted unconditionally. */
  datatype Check = Check(actor: string, now: int, budgetExhausted: bool)

  predicate Admits(max: int, entries: Limits, c: Check) {
    !c.budgetExhausted && (max <= 0 || Visited(Get(entries, c.actor), c.now).count <= max)
  }

  /** The table without garbage collection. */
  function Counted(max: int, entries: Limits, c: Check): Limits {
    if c.budgetExhausted || max <= 0 then entries
    else entries[c.actor := Visited(Get(entries, c.actor), c.now)]
  }

  function AfterCheck(max: int, entries: Limits, c: Check): Limits {
    var counted := Counted(max, entries, c);
    if max > 0 && Admits(max, entries, c) && |counted| > GC_THRESHOLD then Collected(counted, c.now) else counted
  }

  lemma ElapsedIs(now: int, start: int)
    ensures ElapsedSeconds(now, start) >= WINDOW_SECONDS <==> now - start >= 60_000_000_000
    ensures ElapsedSeconds(now, start) < 0 <==> start - now >= 1_000_000_000
  {
  }

  /** In plain terms, in nanoseconds: an exhausted budget refuses and changes nothing; without a
      limit every call passes; a window of 60 s counts up to the limit; and a new one begins when
      it is over, or when the clock is a second or more behind its start. */
  lemma DecisionIs(max: int, entries: Limits, c: Check)
    ensures c.budgetExhausted ==> !Admits(max, entries, c) && AfterCheck(max, entries, c) == entries
    ensures !c.budgetExhausted && max <= 0 ==> Admits(max, entries, c) && AfterCheck(max, entries, c) == entries
    ensures !c.budgetExhausted && max > 0 ==>
              var start := if c.actor in entries then entries[c.actor].start else 0;
              var count := if c.actor in entries then entries[c.actor].count else 0;
              var over := c.now - start >= 60_000_000_000 || start - c.now >= 1_000_000_000;
              && Admits(max, entries, c) == (over || count + 1 <= max)
              && c.actor in AfterCheck(max, entries, c)
              && AfterCheck(max, entries, c)[c.actor] == if over then Entry(c.now, 1) else Entry(start, count + 1)
  {
    ElapsedIs(c.now, Get(entries, c.actor).start);
  }

  /** And once more than 1000 actors are known, an admitted call drops those idle for 120 s. */
  lemma CollectionIs(max: int, entries: Limits, c: Check, a: string)
    requires !c.budgetExhausted && max > 0 && a != c.actor
    ensures a in AfterCheck(max, entries, c) ==> a in entries && AfterCheck(max, entries, c)[a] == entries[a]
    ensures a in entries ==>
              (a !in AfterCheck(max, entries, c) <==>
               && Admits(max, entries, c) && |entries.Keys + {c.actor}| > 1000
               && entries[a].start < c.now - 120_000_000_000)
  {
    var counted := Counted(max, entries, c);
    assert counted.Keys == entries.Keys + {c.actor};
    assert |counted| == |counted.Keys|;
  }

  class PolicyEngine {
    const maxMessagesPerMinute: int
    var entries: Limits

    constructor (max: int)
      ensures entries == map[] && maxMessagesPerMinute == max
    {
      maxMessagesPerMinute, entries := max, map[];
    }

    method CheckLlmCall(c: Check) returns (ok: bool)
      modifies this
      ensures ok == Admits(maxMessagesPerMinute, old(entries), c)
      ensures entries == AfterCheck(maxMessagesPerMinute, old(entries), c)
      // the collection never evicts the caller's own entry
      ensures !c.budgetExhausted && maxMessagesPerMinute > 0 ==>
                c.actor in entries && entries[c.actor] == Visited(Get(old(entries), c.actor), c.now)
    {
      if c.budgetExhausted {
        return false;
      }
      if maxMessagesPerMinute > 0 {
        var state := Get(entries, c.actor);
        var elapsed := ElapsedSeconds(c.now, state.start);
        if elapsed >= WINDOW_SECONDS || elapsed < 0 {
          entries := entries[c.actor := Entry(c.now, 1)];
        } else {
          entries := entries[c.actor := Entry(state.start, state.count + 1)];
          if state.count + 1 > maxMessagesPerMinute {
            return false;
          }
        }
        if |entries| > GC_THRESHOLD {
          CollectStale(c.now);
        }
      }
      ok := true;
    }

    method CollectStale(now: int)
      modifies this
      ensures entries == Collected(old(entries), now)
    {
      var pending := entries.Keys;
      ghost var start := entries;
      while pending != {}
        invariant pending <= start.Keys
        invariant entries == map a | a in start && (a in pending || start[a].start >= now - STALE) :: start[a]
        decreases pending
      {
        var a :| a in pending;
        if entries[a].start < now - STALE {
          entries := entries - {a};
        }
        pending := pending - {a};
      }
    }
  }

  // ---------- collecting is invisible ----------

  function Decisions(max: int, entries: Limits, checks: seq<Check>): (r: seq<bool>)
    ensures |r| == |checks|
    decreases |checks|
  {
    if checks == [] then []
    else [Admits(max, entries, checks[0])] + Decisions(max, AfterCheck(max, entries, checks[0]), checks[1..])
  }

  function PlainDecisions(max: int, entries: Limits, checks: seq<Check>): (r: seq<bool>)
    ensures |r| == |checks|
    decreases |checks|
  {
    if checks == [] then []
    else [Admits(max, entries, checks[0])] + PlainDecisions(max, Counted(max, entries, checks[0]), checks[1..])
  }

  ghost predicate Monotone(from: int, checks: seq<Check>)
    decreases |checks|
  {
    checks == [] || (from <= checks[0].now && Monotone(checks[0].now, checks[1..]))
  }

  /** The collected table agrees with the plain one except on entries long expired. */
  ghost predicate Agrees(entries: Limits, plain: Limits, now: int) {
    && (forall a :: a in entries ==> a in plain && entries[a] == plain[a])
    && (forall a :: a in plain ==> 0 <= plain[a].start <= now)
    && (forall a :: a in plain && a !in entries ==> plain[a].start < now - STALE)
  }

  lemma CheckAgrees(max: int, entries: Limits, plain: Limits, now: int, c: Check)
    requires Agrees(entries, plain, now) && 0 <= now <= c.now
    ensures Admits(max, entries, c) <==> Admits(max, plain, c)
    ensures Agrees(AfterCheck(max, entries, c), Counted(max, plain, c), c.now)
  {
    assert Visited(Get(entries, c.actor), c.now) == Visited(Get(plain, c.actor), c.now);
  }

  /** Every decision equals that of a limiter that never collects. */
  lemma {:induction false} CollectingIsInvisible(max: int, entries: Limits, plain: Limits, now: int, checks: seq<Check>)
    requires Agrees(entries, plain, now) && 0 <= now && Monotone(now, checks)
    ensures Decisions(max, entries, checks) == PlainDecisions(max, plain, checks)
    decreases |checks|
  {
    if checks != [] {
      CheckAgrees(max, entries, plain, now, checks[0]);
      CollectingIsInvisible(max, AfterCheck(max, entries, checks[0]), Counted(max, plain, checks[0]),
                            checks[0].now, checks[1..]);
    }
  }

  // ---------- at most twice the limit in any window-long interval ----------

  predicate InInterval(c: Check, actor: string, from: int) {
    c.actor == actor && from <= c.now < from + WINDOW
  }

  /** How many checks of the actor were admitted in [from, from + WINDOW). */
  function AdmittedIn(checks: seq<Check>, decisions: seq<bool>, actor: string, from: int): nat
    requires |checks| == |decisions|
    decreases |checks|
  {
    if checks == [] then 0
    else (if decisions[0] && InInterval(checks[0], actor, from) then 1 else 0)
         + AdmittedIn(checks[1..], decisions[1..], actor, from)
  }

  function Min(a: int, b: int): int {
    if a < b then a else b
  }

  /** How much of the allowance the interval can have used, given the actor's window. */
  ghost predicate UsedFits(max: int, e: Entry, used: nat, from: int) {
    if e.start <= from - WINDOW then used == 0
    else if e.start <= from then used <= Min(e.count, max)
    else if e.start < from + WINDOW then used <= max + Min(e.count, max)
    else used <= 2 * max
  }

  lemma VisitFits(max: int, entries: Limits, c: Check, actor: string, used: nat, from: int)
    requires max > 0 && Get(entries, actor).start <= c.now
    requires UsedFits(max, Get(entries, actor), used, from)
    ensures UsedFits(max, Get(Counted(max, entries, c), actor),
                     used + (if Admits(max, entries, c) && InInterval(c, actor, from) then 1 else 0), from)
  {
    var e := Get(entries, actor);
    assert ElapsedSeconds(c.now, e.start) >= WINDOW_SECONDS <==> c.now - e.start >= WINDOW;
  }

  lemma {:induction false} UsedStaysBounded(
    max: int, entries: Limits, checks: seq<Check>, now: int, actor: string, used: nat, from: int)
    requires max > 0 && Monotone(now, checks) && Get(entries, actor).start <= now
    requires UsedFits(max, Get(entries, actor), used, from)
    ensures used + AdmittedIn(checks, PlainDecisions(max, entries, checks), actor, from) <= 2 * max
    decreases |checks|
  {
    if checks != [] {
      var c := checks[0];
      VisitFits(max, entries, c, actor, used, from);
      var used' := used + if Admits(max, entries, c) && InInterval(c, actor, from) then 1 else 0;
      UsedStaysBounded(max, Counted(max, entries, c), checks[1..], c.now, actor, used', from);
      assert PlainDecisions(max, entries, checks)[1..] == PlainDecisions(max, Counted(max, entries, c), checks[1..]);
    }
  }

  /** Any half-open interval one window long admits at most 2 * max calls of an actor, with
      collection going on. */
  lemma AtMostTwiceTheLimit(max: int, checks: seq<Check>, actor: string, from: int)
    requires max > 0 && from >= 0 && Monotone(0, checks)
    ensures AdmittedIn(checks, Decisions(max, map[], checks), actor, from) <= 2 * max
  {
    CollectingIsInvisible(max, map[], map[], 0, checks);
    UsedStaysBounded(max, map[], checks, 0, actor, 0, from);
  }

  // ---------- one less, once the first window of the clock is over ----------

  /** The same account when the window a fresh entry starts in contributes nothing to the
      interval: the check that opened an earlier window is not in the interval either. */
  ghost predicate LateUsedFits(max: int, e: Entry, used: nat, from: int) {
    if (e.start == 0 && from > 0) || e.start <= from - WINDOW then used == 0
    else if e.start < from then used <= Min(e.count, max) - 1
    else if e.start == from then used <= Min(e.count, max)
    else if e.start < from + WINDOW then used <= max - 1 + Min(e.count, max)
    else used <= 2 * max - 1
  }

  predicate NotEarly(c: Check, actor: string, from: int) {
    from > 0 && InInterval(c, actor, from) ==> c.now >= WINDOW
  }

  lemma VisitFitsLate(max: int, entries: Limits, c: Check, actor: string, used: nat, from: int)
    requires max > 0 && from >= 0 && 0 <= Get(entries, actor).start <= c.now && NotEarly(c, actor, from)
    requires LateUsedFits(max, Get(entries, actor), used, from)
    ensures LateUsedFits(max, Get(Counted(max, entries, c), actor),
                         used + (if Admits(max, entries, c) && InInterval(c, actor, from) then 1 else 0), from)
  {
    var e := Get(entries, actor);
    assert ElapsedSeconds(c.now, e.start) >= WINDOW_SECONDS <==> c.now - e.start >= WINDOW;
  }

  lemma {:induction false} LateUsedStaysBounded(
    max: int, entries: Limits, checks: seq<Check>, now: int, actor: string, used: nat, from: int)
    requires max > 0 && from >= 0 && Monotone(now, checks) && 0 <= Get(entries, actor).start <= now
    requires forall i :: 0 <= i < |checks| ==> NotEarly(checks[i], actor, from)
    requires LateUsedFits(max, Get(entries, actor), used, from)
    ensures used + AdmittedIn(checks, PlainDecisions(max, entries, checks), actor, from) <= 2 * max - 1
    decreases |checks|
  {
    if checks != [] {
      var c := checks[0];
      VisitFitsLate(max, entries, c, actor, used, from);
      var used' := used + if Admits(max, entries, c) && InInterval(c, actor, from) then 1 else 0;
      LateUsedStaysBounded(max, Counted(max, entries, c), checks[1..], c.now, actor, used', from);
      assert PlainDecisions(max, entries, checks)[1..] == PlainDecisions(max, Counted(max, entries, c), checks[1..]);
    }
  }

  /** With no check of the interval earlier than one window after the clock's start, the
      interval admits at most 2 * max - 1. */
  lemma BelowTwiceTheLimit(max: int, checks: seq<Check>, actor: string, from: int)
    requires max > 0 && from >= 0 && Monotone(0, checks)
    requires forall i :: 0 <= i < |checks| ==> NotEarly(checks[i], actor, from)
    ensures AdmittedIn(checks, Decisions(max, map[], checks), actor, from) <= 2 * max - 1
  {
    CollectingIsInvisible(max, map[], map[], 0, checks);
    LateUsedStaysBounded(max, map[], checks, 0, actor, 0, from);
  }

  // ---------- the bounds are reached ----------

  function Burst(actor: string, now: int, n: nat): seq<Check> {
    seq(n, _ => Check(actor, now, false))
  }

  lemma BurstHead(actor: string, now: int, n: nat, rest: seq<Check>)
    requires n > 0
    ensures Burst(actor, now, n) + rest == [Check(actor, now, false)] + (Burst(actor, now, n - 1) + rest)
  {
  }

  /** How many checks a limiter without collection admits in [from, from + WINDOW). */
  function AdmittedPlain(max: int, entries: Limits, checks: seq<Check>, actor: string, from: int): nat {
    AdmittedIn(checks, PlainDecisions(max, entries, checks), actor, from)
  }

  lemma AdmittedStep(max: int, entries: Limits, c: Check, rest: seq<Check>, actor: string, from: int)
    ensures AdmittedPlain(max, entries, [c] + rest, actor, from)
            == (if Admits(max, entries, c) && InInterval(c, actor, from) then 1 else 0)
               + AdmittedPlain(max, Counted(max, entries, c), rest, actor, from)
  {
    assert ([c] + rest)[1..] == rest;
    assert PlainDecisions(max, entries, [c] + rest)[1..] == PlainDecisions(max, Counted(max, entries, c), rest);
  }

  /** One admitted check of an open window. */
  lemma OneAdmitted(max: int, entries: Limits, actor: string, now: int, rest: seq<Check>, from: int)
    requires max > 0 && from <= now < from + WINDOW
    requires Visited(Get(entries, actor), now).count <= max
    ensures AdmittedPlain(max, entries, [Check(actor, now, false)] + rest, actor, from)
            == 1 + AdmittedPlain(max, entries[actor := Visited(Get(entries, actor), now)], rest, actor, from)
  {
    AdmittedStep(max, entries, Check(actor, now, false), rest, actor, from);
  }

  /** A burst that fits the open window is admitted whole, and what follows it sees the window
      filled up. */
  lemma {:induction false} BurstAdmitted(
    max: int, entries: Limits, actor: string, now: int, n: nat, rest: seq<Check>, from: int, e: Entry)
    requires max > 0 && 0 < n && from <= now < from + WINDOW
    requires e == Visited(Get(entries, actor), now) && e.count + n - 1 <= max && 0 <= now - e.start < WINDOW
    ensures AdmittedPlain(max, entries, Burst(actor, now, n) + rest, actor, from)
            == n + AdmittedPlain(max, entries[actor := Entry(e.start, e.count + n - 1)], rest, actor, from)
    decreases n
  {
    var counted := entries[actor := e];
    BurstHead(actor, now, n, rest);
    OneAdmitted(max, entries, actor, now, Burst(actor, now, n - 1) + rest, from);
    if n == 1 {
      assert Burst(actor, now, 0) + rest == rest;
    } else {
      var next := Entry(e.start, e.count + 1);
      assert Visited(e, now) == next;
      BurstAdmitted(max, counted, actor, now, n - 1, rest, from, next);
      assert counted[actor := Entry(e.start, e.count + n - 1)] == entries[actor := Entry(e.start, e.count + n - 1)];
    }
  }

  lemma {:induction false} BurstIsMonotone(from: int, actor: string, now: int, n: nat, rest: seq<Check>)
    requires from <= now && Monotone(now, rest)
    ensures Monotone(from, Burst(actor, now, n) + rest)
    decreases n
  {
    if n == 0 {
      assert Burst(actor, now, 0) + rest == rest;
      MonotoneFromEarlier(from, now, rest);
    } else {
      BurstHead(actor, now, n, rest);
      BurstIsMonotone(now, actor, now, n - 1, rest);
    }
  }

  lemma MonotoneFromEarlier(from: int, now: int, checks: seq<Check>)
    requires from <= now && Monotone(now, checks)
    ensures Monotone(from, checks)
  {
  }

  /** A full burst in the window a fresh entry starts in, another as soon as that window ends. */
  function EarlyRun(max: nat, actor: string, at: int): seq<Check> {
    Burst(actor, at, max) + Burst(actor, WINDOW, max)
  }

  lemma EarlyRunAdmitsTwice(max: nat, actor: string, at: int)
    requires max > 0 && 0 < at < WINDOW
    ensures Monotone(0, EarlyRun(max, actor, at))
    ensures AdmittedPlain(max, map[], EarlyRun(max, actor, at), actor, at) == 2 * max
  {
    var second := Burst(actor, WINDOW, max);
    var first := Visited(FRESH, at);
    BurstAdmitted(max, map[], actor, at, max, second, at, first);
    var after := map[actor := Entry(first.start, first.count + max - 1)];
    assert map[][actor := Entry(first.start, first.count + max - 1)] == after;
    BurstAdmitted(max, after, actor, WINDOW, max, [], at, Visited(after[actor], WINDOW));
    assert second + [] == second;
    BurstIsMonotone(at, actor, WINDOW, max, []);
    BurstIsMonotone(0, actor, at, max, second);
  }

  /** Whether some run admits n calls of the actor in [from, from + WINDOW). */
  ghost predicate Reaches(max: int, actor: string, from: int, n: int) {
    exists checks: seq<Check> ::
      Monotone(0, checks) && AdmittedIn(checks, Decisions(max, map[], checks), actor, from) == n
  }

  /** An interval can admit twice the limit exactly when it begins inside the first window of
      the clock, after its start: there the default entry lends a window nobody opened. */
  lemma TwiceTheLimitIff(max: int, actor: string, from: int)
    requires max > 0 && from >= 0
    ensures Reaches(max, actor, from, 2 * max) <==> 0 < from < WINDOW
  {
    if 0 < from < WINDOW {
      EarlyRunAdmitsTwice(max, actor, from);
      CollectingIsInvisible(max, map[], map[], 0, EarlyRun(max, actor, from));
    } else {
      forall checks: seq<Check> | Monotone(0, checks)
        ensures AdmittedIn(checks, Decisions(max, map[], checks), actor, from) != 2 * max
      {
        BelowTwiceTheLimit(max, checks, actor, from);
      }
    }
  }

  /** One check just before the interval, the rest of its window at the start of the interval,
      and a full burst as soon as that window ends. */
  function LateRun(max: nat, actor: string, from: int): seq<Check>
    requires max > 0
  {
    Burst(actor, from - 1, 1) + (Burst(actor, from, max - 1) + Burst(actor, from - 1 + WINDOW, max))
  }

  lemma MiddleAdmitted(max: nat, actor: string, from: int, rest: seq<Check>)
    requires max > 0
    ensures AdmittedPlain(max, map[actor := Entry(from - 1, 1)], Burst(actor, from, max - 1) + rest, actor, from)
            == max - 1 + AdmittedPlain(max, map[actor := Entry(from - 1, max)], rest, actor, from)
  {
    var open := map[actor := Entry(from - 1, 1)];
    if max == 1 {
      assert Burst(actor, from, 0) + rest == rest;
    } else {
      BurstAdmitted(max, open, actor, from, max - 1, rest, from, Entry(from - 1, 2));
      assert open[actor := Entry(from - 1, max)] == map[actor := Entry(from - 1, max)];
    }
  }

  lemma OpeningOutside(max: nat, actor: string, from: int, rest: seq<Check>)
    requires max > 0 && from > WINDOW
    ensures AdmittedPlain(max, map[], Burst(actor, from - 1, 1) + rest, actor, from)
            == AdmittedPlain(max, map[actor := Entry(from - 1, 1)], rest, actor, from)
  {
    var c := Check(actor, from - 1, false);
    BurstHead(actor, from - 1, 1, rest);
    assert Burst(actor, from - 1, 0) + rest == rest;
    AdmittedStep(max, map[], c, rest, actor, from);
    assert Counted(max, map[], c) == map[actor := Entry(from - 1, 1)];
  }

  /** Past the first window of the clock the bound 2 * max - 1 is reached in every interval. */
  lemma BelowTwiceIsReached(max: int, actor: string, from: int)
    requires max > 0 && from > WINDOW
    ensures Reaches(max, actor, from, 2 * max - 1)
  {
    var last := Burst(actor, from - 1 + WINDOW, max);
    var middle := Burst(actor, from, max - 1) + last;
    OpeningOutside(max, actor, from, middle);
    MiddleAdmitted(max, actor, from, last);
    var full := map[actor := Entry(from - 1, max)];
    BurstAdmitted(max, full, actor, from - 1 + WINDOW, max, [], from, Entry(from - 1 + WINDOW, 1));
    assert last + [] == last;
    BurstIsMonotone(from, actor, from - 1 + WINDOW, max, []);
    BurstIsMonotone(from - 1, actor, from, max - 1, last);
    BurstIsMonotone(0, actor, from - 1, 1, middle);
    CollectingIsInvisible(max, map[], map[], 0, LateRun(max, actor, from));
  }
}
