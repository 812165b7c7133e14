/** All interleavings of one conversation: appends, clears and the two halves of a
    summarisation, whose LLM call runs with the lock released.  At most one summarisation
    of a conversation is in flight, because its messages are processed serially.  An append
    lands where its stamp puts it: at the end, unless the batch of a save just made is stamped
    ahead of the clock. */
module Conversation {
  import opened Options
  import opened Sequences
  import opened ChatMessages
  import opened ChatContext

  /** The stored list, and the message count a pending summarisation remembered. */
  datatype State = State(store: seq<Message>, pending: Option<nat>)

  datatype Step =
    | Append(m: Message, at: nat)
    | Clear
    | Begin
    | Finish(summary: string)
    | Fail

  /** The append_* entry points never write the role "system". The first message stored is never
      stamped ahead of the clock, so an append never lands before it. */
  predicate Enabled(c: State, s: Step) {
    match s
    case Append(m, at) => NotSystem(m) && at <= |c.store| && (c.store != [] ==> at >= 1)
    case Clear => true
    case Begin => c.pending.None?
    case Finish(_) => c.pending.Some?
    case Fail => c.pending.Some?
  }

  function Inserted(ms: seq<Message>, m: Message, at: nat): seq<Message> {
    if at <= |ms| then ms[..at] + [m] + ms[at..] else ms + [m]
  }

  function Apply(c: State, s: Step): State {
    match s
    case Append(m, at) => c.(store := Inserted(c.store, m, at))
    case Clear => c.(store := [])
    case Begin => if TotalBytes(c.store) <= MAX_TOTAL_BYTES then c else c.(pending := Some(|c.store|))
    case Finish(summary) => if c.pending.None? then c else State(SuccessCommit(c.store, c.pending.value, summary), None)
    case Fail => if c.pending.None? then c else State(FallbackCommit(c.store, c.pending.value), None)
  }

  function Run(c: State, steps: seq<Step>): State {
    if steps == [] then c else Apply(Run(c, steps[..|steps| - 1]), steps[|steps| - 1])
  }

  ghost predicate Legal(c: State, steps: seq<Step>) {
    steps == [] || (Legal(c, steps[..|steps| - 1]) && Enabled(Run(c, steps[..|steps| - 1]), steps[|steps| - 1]))
  }

  const EMPTY := State([], None)

  // ---------- folding ----------

  lemma NoSystemFilters(ms: seq<Message>)
    requires forall i :: 0 <= i < |ms| ==> NotSystem(ms[i])
    ensures Filter(ms, IsPrompt) == [] && Filter(ms, IsSummary) == [] && Filter(ms, NotSystem) == ms
  {
    FilterNone(ms, IsPrompt);
    FilterNone(ms, IsSummary);
    FilterAll(ms, NotSystem);
  }

  lemma NonSystemHasNone(ms: seq<Message>)
    ensures Filter(Filter(ms, NotSystem), IsPrompt) == []
    ensures Filter(Filter(ms, NotSystem), IsSummary) == []
    ensures Filter(Filter(ms, NotSystem), NotSystem) == Filter(ms, NotSystem)
  {
    FilterMembers(ms, NotSystem);
    NoSystemFilters(Filter(ms, NotSystem));
  }

  lemma PromptsHaveOnlyPrompts(ms: seq<Message>)
    ensures Filter(Filter(ms, IsPrompt), IsPrompt) == Filter(ms, IsPrompt)
    ensures Filter(Filter(ms, IsPrompt), IsSummary) == []
    ensures Filter(Filter(ms, IsPrompt), NotSystem) == []
  {
    FilterMembers(ms, IsPrompt);
    FilterAll(Filter(ms, IsPrompt), IsPrompt);
    FilterNone(Filter(ms, IsPrompt), IsSummary);
    FilterNone(Filter(ms, IsPrompt), NotSystem);
  }

  lemma SummaryFilters(text: string)
    ensures var s := [SummaryMessage(text)];
            Filter(s, IsPrompt) == [] && Filter(s, IsSummary) == s && Filter(s, NotSystem) == []
  {
    var m := SummaryMessage(text);
    assert SUMMARY_PREFIX <= m.content;
    FilterNone([m], IsPrompt);
    FilterAll([m], IsSummary);
    FilterNone([m], NotSystem);
  }

  /** A folded range: prompts, one summary, then a suffix of its non-system messages.  Both
      commits produce this shape, so one set of facts serves them. */
  function Folded(range: seq<Message>, text: string, from: nat): seq<Message>
    requires from <= |range|
  {
    Filter(range, IsPrompt) + [SummaryMessage(text)] + Filter(range[from..], NotSystem)
  }

  lemma FoldedFilter(range: seq<Message>, text: string, from: nat, p: Message -> bool)
    requires from <= |range|
    ensures Filter(Folded(range, text, from), p)
            == Filter(Filter(range, IsPrompt), p) + Filter([SummaryMessage(text)], p)
               + Filter(Filter(range[from..], NotSystem), p)
  {
    FilterAppend(Filter(range, IsPrompt) + [SummaryMessage(text)], Filter(range[from..], NotSystem), p);
    FilterAppend(Filter(range, IsPrompt), [SummaryMessage(text)], p);
  }

  lemma FoldedPrompts(range: seq<Message>, text: string, from: nat)
    requires from <= |range|
    ensures Filter(Folded(range, text, from), IsPrompt) == Filter(range, IsPrompt)
  {
    FoldedFilter(range, text, from, IsPrompt);
    PromptsHaveOnlyPrompts(range);
    NonSystemHasNone(range[from..]);
    SummaryFilters(text);
  }

  lemma FoldedSummaries(range: seq<Message>, text: string, from: nat)
    requires from <= |range|
    ensures Filter(Folded(range, text, from), IsSummary) == [SummaryMessage(text)]
  {
    FoldedFilter(range, text, from, IsSummary);
    PromptsHaveOnlyPrompts(range);
    NonSystemHasNone(range[from..]);
    SummaryFilters(text);
  }

  lemma FoldedNonSystem(range: seq<Message>, text: string, from: nat)
    requires from <= |range|
    ensures Filter(Folded(range, text, from), NotSystem) == Filter(range[from..], NotSystem)
  {
    FoldedFilter(range, text, from, NotSystem);
    PromptsHaveOnlyPrompts(range);
    NonSystemHasNone(range[from..]);
    SummaryFilters(text);
  }

  /** A commit either leaves the list alone or folds its first k messages. */
  ghost predicate CommitsTo(ms: seq<Message>, r: seq<Message>, k: nat, text: string, from: nat) {
    from <= k <= |ms| && r == Folded(ms[..k], text, from) + ms[k..]
  }

  /** Folding a range keeps every user prompt, leaves one summary before the untouched tail,
      and keeps a suffix of the non-system messages: nothing is reordered, duplicated
      or brought back. */
  lemma {:induction false} FoldFacts(ms: seq<Message>, r: seq<Message>, k: nat, text: string, from: nat)
    requires CommitsTo(ms, r, k, text, from)
    ensures Filter(r, IsPrompt) == Filter(ms, IsPrompt)
    ensures Filter(r, IsSummary) == [SummaryMessage(text)] + Filter(ms[k..], IsSummary)
    ensures Filter(r, NotSystem) == Filter(ms[from..], NotSystem)
    ensures Suffix(Filter(r, NotSystem), Filter(ms, NotSystem))
  {
    assert ms == ms[..k] + ms[k..];
    FilterAppend(Folded(ms[..k], text, from), ms[k..], IsPrompt);
    FilterAppend(ms[..k], ms[k..], IsPrompt);
    FoldedPrompts(ms[..k], text, from);
    FilterAppend(Folded(ms[..k], text, from), ms[k..], IsSummary);
    FoldedSummaries(ms[..k], text, from);
    FilterAppend(Folded(ms[..k], text, from), ms[k..], NotSystem);
    FoldedNonSystem(ms[..k], text, from);
    FilterAppend(ms[..k][from..], ms[k..], NotSystem);
    assert ms[from..] == ms[..k][from..] + ms[k..];
    FilterSuffix(ms, from, NotSystem);
  }

  lemma SuccessShape(ms: seq<Message>, n: nat, summary: string)
    ensures SuccessCommit(ms, n, summary) == ms
         || (n <= |ms| && summary != "" && CommitsTo(ms, SuccessCommit(ms, n, summary), n, summary, KeepStart(n)))
  {
    if summary != "" && n <= |ms| {
      assert ms[KeepStart(n)..n] == ms[..n][KeepStart(n)..];
    }
  }

  /** The range the exception path folds. */
  function FallbackRange(ms: seq<Message>, n: nat): (k: nat)
    ensures k <= |ms|
  {
    if |ms| > n then n else |ms|
  }

  lemma FallbackShape(ms: seq<Message>, n: nat)
    ensures var k := FallbackRange(ms, n);
            FallbackCommit(ms, n) == ms
            || CommitsTo(ms, FallbackCommit(ms, n), k, FallbackText(ms[..k]), Absorbed(ms[..k]))
  {
    var k := FallbackRange(ms, n);
    assert ms[..|ms|] == ms && ms[|ms|..] == [];
    assert ms == ms[..k] + ms[k..];
    assert Fallback(ms[..k]) + ms[k..] == FallbackCommit(ms, n);
  }

  // ---------- when a fallback folds ----------

  lemma {:induction false} CarriedIsLast(ms: seq<Message>)
    ensures Filter(ms, IsSummary) == [] <==> Carried(ms) == ""
    ensures var s := Filter(ms, IsSummary);
            s != [] ==> SUMMARY_PREFIX <= s[|s| - 1].content &&
                        Carried(ms) == s[|s| - 1].content[|SUMMARY_PREFIX|..] + "\n"
    decreases |ms|
  {
    if ms != [] {
      CarriedIsLast(ms[..|ms| - 1]);
    }
  }

  /** A folded list never equals what it was folded from: its summary is longer than the one
      it carries on. */
  lemma FoldChanges(ms: seq<Message>)
    requires TotalBytes(ms) > MAX_TOTAL_BYTES && FallbackText(ms) != ""
    ensures Fallback(ms) != ms
  {
    var text := FallbackText(ms);
    FoldedSummaries(ms, text, Absorbed(ms));
    AbsorbsPrefix(ms, 0, Carried(ms));
    CarriedIsLast(ms);
    assert SummaryMessage(text).content[|SUMMARY_PREFIX|..] == text;
    assert Carried(ms) <= text;
  }

  lemma {:induction false} FilterHead(ms: seq<Message>)
    requires ms != [] && NotSystem(ms[0])
    ensures Filter(ms, NotSystem) != [] && Filter(ms, NotSystem)[0] == ms[0]
    decreases |ms|
  {
    if |ms| == 1 {
      assert ms[..0] == [];
    } else {
      FilterHead(ms[..|ms| - 1]);
    }
  }

  lemma FirstOfFilter(ms: seq<Message>, k: nat)
    requires k <= |ms|
    ensures Filter(ms[..k], NotSystem) != [] ==>
              Filter(ms, NotSystem) != [] && Filter(ms, NotSystem)[0] == Filter(ms[..k], NotSystem)[0]
    ensures Filter(ms[..k], NotSystem) == [] && k < |ms| && NotSystem(ms[k]) ==>
              Filter(ms, NotSystem) != [] && Filter(ms, NotSystem)[0] == ms[k]
    ensures Filter(ms[..k], NotSystem) == [] && k == |ms| ==> Filter(ms, NotSystem) == []
  {
    FilterSplit(ms, k, NotSystem);
    if k == |ms| {
      assert ms[..k] == ms;
    } else if NotSystem(ms[k]) {
      FilterHead(ms[k..]);
    }
  }

  lemma TextLength(ms: seq<Message>)
    ensures var taken := Filter(ms[..Absorbed(ms)], NotSystem);
            && (FallbackText(ms) == "" <==> Carried(ms) == "" && taken == [])
            && (taken != [] && Carried(ms) == "" ==> |taken[0].content| <= 1200)
    ensures Absorbed(ms) < |ms| ==>
              NotSystem(ms[Absorbed(ms)]) && |FallbackText(ms)| + |ms[Absorbed(ms)].content| > 1200
  {
    var k := Absorbed(ms);
    var taken := Filter(ms[..k], NotSystem);
    AbsorbsPrefix(ms, 0, Carried(ms));
    assert ms[0..k] == ms[..k];
    assert taken != [] ==> |Joined(taken)| >= |taken[0].content| + 1;
  }

  /** There is something to write when there is a summary to carry on, or the first message of a
      user fits. */
  lemma TextIff(ms: seq<Message>)
    ensures FallbackText(ms) != "" <==>
            Filter(ms, IsSummary) != [] ||
            (Filter(ms, NotSystem) != [] && |Filter(ms, NotSystem)[0].content| <= 1200)
  {
    CarriedIsLast(ms);
    TextLength(ms);
    FirstOfFilter(ms, Absorbed(ms));
  }

  /** The fallback folds exactly a list of more than 65536 bytes that has a summary to carry on or
      a first message of at most 1200 bytes. */
  lemma FallbackFoldsIff(ms: seq<Message>)
    ensures Fallback(ms) != ms <==>
            && TotalBytes(ms) > 65536
            && (Filter(ms, IsSummary) != [] ||
                (Filter(ms, NotSystem) != [] && |Filter(ms, NotSystem)[0].content| <= 1200))
  {
    TextIff(ms);
    if TotalBytes(ms) > MAX_TOTAL_BYTES && FallbackText(ms) != "" {
      FoldChanges(ms);
    }
  }

  // ---------- user prompts stay ----------

  lemma PromptsStayFolded(ms: seq<Message>, r: seq<Message>, k: nat, text: string, from: nat, m: Message)
    requires CommitsTo(ms, r, k, text, from) && IsPrompt(m) && m in ms
    ensures m in r
  {
    FoldFacts(ms, r, k, text, from);
    FilterMembers(ms, IsPrompt);
    FilterMembers(r, IsPrompt);
  }

  /** A system message that is no summary outlives everything but a clear. */
  lemma PromptsAreKept(c: State, s: Step, m: Message)
    requires Enabled(c, s) && !s.Clear? && m in c.store
    requires m.role == "system" && !("Conversation summary: " <= m.content)
    ensures m in Apply(c, s).store
  {
    var ms := c.store;
    match s
    case Append(_, at) => assert ms == ms[..at] + ms[at..];
    case Begin =>
    case Finish(summary) =>
      var n := c.pending.value;
      SuccessShape(ms, n, summary);
      if SuccessCommit(ms, n, summary) != ms {
        PromptsStayFolded(ms, SuccessCommit(ms, n, summary), n, summary, KeepStart(n), m);
      }
    case Fail =>
      var k := FallbackRange(ms, c.pending.value);
      FallbackShape(ms, c.pending.value);
      if FallbackCommit(ms, c.pending.value) != ms {
        PromptsStayFolded(ms, FallbackCommit(ms, c.pending.value), k, FallbackText(ms[..k]), Absorbed(ms[..k]), m);
      }
  }

  // ---------- at most one summary ----------

  /** The only system message is a summary, and it stands first. */
  ghost predicate SummaryFirst(ms: seq<Message>) {
    (forall i :: 1 <= i < |ms| ==> NotSystem(ms[i])) && (ms != [] ==> !IsPrompt(ms[0]))
  }

  ghost predicate OnlySummaries(c: State) {
    SummaryFirst(c.store) && (c.pending.Some? ==> c.pending.value >= 1)
  }

  lemma SummaryFirstHasNoPrompt(ms: seq<Message>)
    requires SummaryFirst(ms)
    ensures Filter(ms, IsPrompt) == [] && |Filter(ms, IsSummary)| <= 1
  {
    FilterNone(ms, IsPrompt);
    if ms != [] {
      FilterAppend([ms[0]], ms[1..], IsSummary);
      assert ms == [ms[0]] + ms[1..];
      FilterNone(ms[1..], IsSummary);
    }
  }

  ghost predicate NoSystem(ms: seq<Message>) {
    forall i :: 0 <= i < |ms| ==> NotSystem(ms[i])
  }

  lemma NoSystemConcat(a: seq<Message>, b: seq<Message>)
    requires NoSystem(a) && NoSystem(b)
    ensures NoSystem(a + b)
  {
  }

  lemma NonSystemAre(ms: seq<Message>)
    ensures NoSystem(Filter(ms, NotSystem))
  {
    FilterMembers(ms, NotSystem);
    forall i | 0 <= i < |Filter(ms, NotSystem)| ensures NotSystem(Filter(ms, NotSystem)[i]) {
      assert Filter(ms, NotSystem)[i] in Filter(ms, NotSystem);
    }
  }

  lemma SummaryThenRest(text: string, rest: seq<Message>)
    requires NoSystem(rest)
    ensures SummaryFirst([SummaryMessage(text)] + rest)
  {
    var s := [SummaryMessage(text)] + rest;
    assert SUMMARY_PREFIX <= s[0].content;
    assert forall i :: 1 <= i < |s| ==> s[i] == rest[i - 1];
  }

  lemma NoPromptInFront(ms: seq<Message>, k: nat)
    requires SummaryFirst(ms) && k <= |ms|
    ensures Filter(ms[..k], IsPrompt) == []
  {
    SummaryFirstHasNoPrompt(ms);
    FilterAppend(ms[..k], ms[k..], IsPrompt);
    assert ms == ms[..k] + ms[k..];
  }

  lemma FoldKeepsSummaryFirst(ms: seq<Message>, r: seq<Message>, k: nat, text: string, from: nat)
    requires CommitsTo(ms, r, k, text, from) && SummaryFirst(ms) && k >= 1
    ensures SummaryFirst(r)
  {
    var kept := Filter(ms[..k][from..], NotSystem);
    NoPromptInFront(ms, k);
    NonSystemAre(ms[..k][from..]);
    NoSystemConcat(kept, ms[k..]);
    assert r == [SummaryMessage(text)] + (kept + ms[k..]);
    SummaryThenRest(text, kept + ms[k..]);
  }

  lemma FallbackKeepsSummaryFirst(ms: seq<Message>, n: nat)
    requires SummaryFirst(ms) && n >= 1
    ensures SummaryFirst(FallbackCommit(ms, n))
  {
    if ms != [] {
      var k := FallbackRange(ms, n);
      FallbackShape(ms, n);
      if FallbackCommit(ms, n) != ms {
        FoldKeepsSummaryFirst(ms, FallbackCommit(ms, n), k, FallbackText(ms[..k]), Absorbed(ms[..k]));
      }
    }
  }

  /** Every step keeps: no user prompt appears, and the one summary stands first. */
  lemma StepKeepsOnlySummaries(c: State, s: Step)
    requires OnlySummaries(c) && Enabled(c, s)
    ensures OnlySummaries(Apply(c, s))
  {
    match s
    case Append(m, at) =>
    case Clear =>
    case Begin =>
    case Finish(summary) =>
      var ms, n := c.store, c.pending.value;
      SuccessShape(ms, n, summary);
      if n <= |ms| && CommitsTo(ms, SuccessCommit(ms, n, summary), n, summary, KeepStart(n)) {
        FoldKeepsSummaryFirst(ms, SuccessCommit(ms, n, summary), n, summary, KeepStart(n));
      }
    case Fail => FallbackKeepsSummaryFirst(c.store, c.pending.value);
  }

  /** A conversation that started empty never holds more than one summary nor any other system
      message, whatever the interleaving of appends, clears and summarisations. */
  lemma {:induction false} AtMostOneSummary(steps: seq<Step>)
    requires Legal(EMPTY, steps)
    ensures OnlySummaries(Run(EMPTY, steps))
    ensures Filter(Run(EMPTY, steps).store, IsPrompt) == [] && |Filter(Run(EMPTY, steps).store, IsSummary)| <= 1
  {
    if steps != [] {
      AtMostOneSummary(steps[..|steps| - 1]);
      StepKeepsOnlySummaries(Run(EMPTY, steps[..|steps| - 1]), steps[|steps| - 1]);
    }
    SummaryFirstHasNoPrompt(Run(EMPTY, steps).store);
  }

  // ---------- nothing comes back ----------

  /** What was appended since the last clear, starting from what was there. */
  function Recorded(start: seq<Message>, steps: seq<Step>): seq<Message> {
    if steps == [] then start
    else
      var before := Recorded(start, steps[..|steps| - 1]);
      match steps[|steps| - 1]
      case Append(m, _) => before + [m]
      case Clear => []
      case _ => before
  }

  lemma SuffixTrans<T>(a: seq<T>, b: seq<T>, c: seq<T>)
    requires Suffix(a, b) && Suffix(b, c)
    ensures Suffix(a, c)
  {
  }

  lemma SuffixMultiset<T>(a: seq<T>, b: seq<T>)
    requires Suffix(a, b)
    ensures multiset(a) <= multiset(b)
  {
    assert b == b[..|b| - |a|] + a;
  }

  /** What a commit holds of the non-system messages is a suffix of what was there. */
  lemma CommitKeepsSuffix(c: State, s: Step)
    requires Enabled(c, s) && (s.Finish? || s.Fail?)
    ensures Suffix(Filter(Apply(c, s).store, NotSystem), Filter(c.store, NotSystem))
  {
    var ms, n := c.store, c.pending.value;
    match s
    case Finish(summary) =>
      SuccessShape(ms, n, summary);
      if n <= |ms| && CommitsTo(ms, SuccessCommit(ms, n, summary), n, summary, KeepStart(n)) {
        FoldFacts(ms, SuccessCommit(ms, n, summary), n, summary, KeepStart(n));
      }
    case Fail =>
      var k := FallbackRange(ms, n);
      FallbackShape(ms, n);
      if CommitsTo(ms, FallbackCommit(ms, n), k, FallbackText(ms[..k]), Absorbed(ms[..k])) {
        FoldFacts(ms, FallbackCommit(ms, n), k, FallbackText(ms[..k]), Absorbed(ms[..k]));
      }
  }

  lemma MultisetOfInserted(a: seq<Message>, m: Message, b: seq<Message>)
    ensures multiset(a + [m] + b) == multiset(a + b) + multiset{m}
  {
    assert multiset(a + [m] + b) == multiset(a) + multiset{m} + multiset(b);
    assert multiset(a + b) == multiset(a) + multiset(b);
  }

  lemma FilterMiddle(a: seq<Message>, m: Message, b: seq<Message>)
    requires NotSystem(m)
    ensures Filter(a + [m] + b, NotSystem) == Filter(a, NotSystem) + [m] + Filter(b, NotSystem)
  {
    FilterAppend(a + [m], b, NotSystem);
    FilterPush(a, m, NotSystem);
  }

  lemma OneMore(x: multiset<Message>, recorded: seq<Message>, m: Message)
    requires x <= multiset(recorded)
    ensures x + multiset{m} <= multiset(recorded + [m])
  {
    assert multiset(recorded + [m]) == multiset(recorded) + multiset{m};
  }

  lemma AppendIsRecorded(store: seq<Message>, m: Message, at: nat, recorded: seq<Message>)
    requires NotSystem(m) && at <= |store| && multiset(Filter(store, NotSystem)) <= multiset(recorded)
    ensures multiset(Filter(Inserted(store, m, at), NotSystem)) <= multiset(recorded + [m])
  {
    var a, b := store[..at], store[at..];
    FilterSplit(store, at, NotSystem);
    FilterMiddle(a, m, b);
    MultisetOfInserted(Filter(a, NotSystem), m, Filter(b, NotSystem));
    OneMore(multiset(Filter(store, NotSystem)), recorded, m);
  }

  /** In every run the non-system messages held were all appended since the last clear, none
      more often than it was appended: what was dropped or cleared never comes back. */
  lemma {:induction false} NothingReappears(c: State, steps: seq<Step>)
    requires Legal(c, steps)
    ensures multiset(Filter(Run(c, steps).store, NotSystem)) <= multiset(Recorded(Filter(c.store, NotSystem), steps))
  {
    if steps != [] {
      var init, s := steps[..|steps| - 1], steps[|steps| - 1];
      var d := Run(c, init);
      NothingReappears(c, init);
      match s
      case Append(m, at) =>
        AppendIsRecorded(d.store, m, at, Recorded(Filter(c.store, NotSystem), init));
      case Clear =>
      case Begin =>
      case _ =>
        CommitKeepsSuffix(d, s);
        SuffixMultiset(Filter(Apply(d, s).store, NotSystem), Filter(d.store, NotSystem));
    }
  }

  /** Every append of the run lands last. */
  ghost predicate Timely(c: State, steps: seq<Step>) {
    steps == [] || (Timely(c, steps[..|steps| - 1]) &&
                    (steps[|steps| - 1].Append? ==> steps[|steps| - 1].at == |Run(c, steps[..|steps| - 1]).store|))
  }

  lemma StepKeepsSuffix(c: State, s: Step, recorded: seq<Message>)
    requires Enabled(c, s) && Suffix(Filter(c.store, NotSystem), recorded) && (s.Append? ==> s.at == |c.store|)
    ensures Suffix(Filter(Apply(c, s).store, NotSystem),
                   if s.Append? then recorded + [s.m] else if s.Clear? then [] else recorded)
  {
    match s
    case Append(m, at) =>
      assert Inserted(c.store, m, at) == c.store + [m];
      FilterPush(c.store, m, NotSystem);
    case Clear =>
    case Begin =>
    case _ =>
      CommitKeepsSuffix(c, s);
      SuffixTrans(Filter(Apply(c, s).store, NotSystem), Filter(c.store, NotSystem), recorded);
  }

  /** And while every append lands last, they are exactly the most recent ones, in order and
      without gaps. */
  lemma {:induction false} StoreIsRecentSuffix(c: State, steps: seq<Step>)
    requires Legal(c, steps) && Timely(c, steps)
    ensures Suffix(Filter(Run(c, steps).store, NotSystem), Recorded(Filter(c.store, NotSystem), steps))
  {
    if steps != [] {
      var init := steps[..|steps| - 1];
      StoreIsRecentSuffix(c, init);
      StepKeepsSuffix(Run(c, init), steps[|steps| - 1], Recorded(Filter(c.store, NotSystem), init));
    }
  }

  // ---------- the window between snapshot and commit ----------

  /** Messages landing one after the other behind n others. */
  function Appends(n: nat, ms: seq<Message>): seq<Step> {
    seq(|ms|, i requires 0 <= i < |ms| => Append(ms[i], n + i))
  }

  lemma {:induction false} RunAppends(c: State, ms: seq<Message>)
    ensures Run(c, Appends(|c.store|, ms)) == c.(store := c.store + ms)
  {
    if ms != [] {
      var init, last := ms[..|ms| - 1], ms[|ms| - 1];
      RunAppends(c, init);
      assert Appends(|c.store|, ms)[..|ms| - 1] == Appends(|c.store|, init);
      assert ms == init + [last];
      ConcatAssoc(c.store, init, [last]);
      assert Inserted(c.store + init, last, |c.store + init|) == c.store + init + [last];
    }
  }

  lemma {:induction false} RunConcat(c: State, a: seq<Step>, b: seq<Step>)
    ensures Run(c, a + b) == Run(Run(c, a), b)
  {
    if b == [] {
      assert a + b == a;
    } else {
      RunConcat(c, a, b[..|b| - 1]);
      assert (a + b)[..|a + b| - 1] == a + b[..|b| - 1];
    }
  }

  lemma RunLast(c: State, steps: seq<Step>, s: Step)
    ensures Run(c, steps + [s]) == Apply(Run(c, steps), s)
  {
    assert (steps + [s])[..|steps|] == steps;
  }

  lemma WindowState(c: State, arrived: seq<Message>)
    requires c.pending.None? && TotalBytes(c.store) > MAX_TOTAL_BYTES
    ensures Run(c, [Begin] + Appends(|c.store|, arrived)) == State(c.store + arrived, Some(|c.store|))
  {
    RunLast(c, [], Begin);
    assert [] + [Begin] == [Begin];
    RunConcat(c, [Begin], Appends(|c.store|, arrived));
    RunAppends(State(c.store, Some(|c.store|)), arrived);
  }

  lemma SplitAtSnapshot(store: seq<Message>, arrived: seq<Message>)
    ensures var full, n := store + arrived, |store|;
            && full[..n] == store && full[n..] == arrived
            && full[KeepStart(n)..n] == store[KeepStart(n)..]
            && (arrived == [] ==> full == store)
  {
  }

  /** Messages that arrive last while the model is working survive verbatim at the end, on both
      paths; before them stands the folded snapshot. */
  lemma {:induction false} WindowSurvives(c: State, arrived: seq<Message>, summary: string)
    requires c.pending.None? && TotalBytes(c.store) > MAX_TOTAL_BYTES && summary != ""
    ensures var window := [Begin] + Appends(|c.store|, arrived);
            && Run(c, window + [Finish(summary)]).store
               == Filter(c.store, IsPrompt) + [Message("system", "", "Conversation summary: " + summary, "", "")]
                  + Filter(c.store[if |c.store| > 10 then |c.store| - 10 else 0..], NotSystem) + arrived
            && Run(c, window + [Fail]).store == Fallback(c.store) + arrived
  {
    var window := [Begin] + Appends(|c.store|, arrived);
    WindowState(c, arrived);
    RunLast(c, window, Finish(summary));
    RunLast(c, window, Fail);
    SplitAtSnapshot(c.store, arrived);
  }

  // ---------- which messages a commit keeps ----------

  /** m stands at i and nowhere else. */
  predicate OnlyAt(ms: seq<Message>, m: Message, i: nat) {
    i < |ms| && ms[i] == m && forall j :: 0 <= j < |ms| && ms[j] == m ==> j == i
  }

  lemma OnlyAtSuffix(ms: seq<Message>, m: Message, i: nat, from: nat)
    requires OnlyAt(ms, m, i) && from <= |ms|
    ensures m in ms[from..] <==> i >= from
  {
    if i >= from {
      assert ms[from..][i - from] == m;
    }
  }

  /** A fold keeps a non-system message exactly when it stands at or after the cut. */
  lemma {:induction false} FoldKeepsIff(
    ms: seq<Message>, r: seq<Message>, k: nat, text: string, from: nat, m: Message, i: nat)
    requires CommitsTo(ms, r, k, text, from) && NotSystem(m) && OnlyAt(ms, m, i)
    ensures m in r <==> i >= from
  {
    FoldFacts(ms, r, k, text, from);
    FilterMembers(r, NotSystem);
    FilterMembers(ms[from..], NotSystem);
    OnlyAtSuffix(ms, m, i, from);
  }

  /** Whatever was there at the snapshot and whatever has arrived since, early or last: a success
      commit that saves keeps a non-system message exactly when it stands among the last ten of
      the snapshot's length or behind. */
  lemma {:induction false} SuccessSurvivesIff(c: State, summary: string, m: Message, i: nat)
    requires c.pending.Some? && NotSystem(m) && OnlyAt(c.store, m, i)
    ensures m in Apply(c, Finish(summary)).store <==>
            summary == "" || |c.store| < c.pending.value || i >= c.pending.value - 10
  {
    var ms, n := c.store, c.pending.value;
    if summary != "" && n <= |ms| {
      assert ms[KeepStart(n)..n] == ms[..n][KeepStart(n)..];
      FoldKeepsIff(ms, Reduced(ms, n, summary), n, summary, KeepStart(n), m, i);
    }
  }

  /** And a fallback commit exactly when it folds nothing, or the accumulation stopped at or
      before the message. */
  lemma {:induction false} FallbackSurvivesIff(c: State, m: Message, i: nat)
    requires c.pending.Some? && NotSystem(m) && OnlyAt(c.store, m, i)
    ensures var range := c.store[..if |c.store| > c.pending.value then c.pending.value else |c.store|];
            m in Apply(c, Fail).store <==> Fallback(range) == range || i >= Absorbed(range)
  {
    var ms, k := c.store, FallbackRange(c.store, c.pending.value);
    var range := ms[..k];
    var r := Fallback(range) + ms[k..];
    assert ms[..|ms|] == ms && ms[|ms|..] == [] && Fallback(ms) + [] == Fallback(ms);
    assert ms == range + ms[k..];
    assert FallbackCommit(ms, c.pending.value) == r;
    if Fallback(range) != range {
      FoldKeepsIff(ms, r, k, FallbackText(range), Absorbed(range), m, i);
    }
  }

  lemma InsertedOnlyAt(ms: seq<Message>, m: Message, at: nat)
    requires m !in ms && at <= |ms|
    ensures OnlyAt(Inserted(ms, m, at), m, at)
  {
  }

  /** So a new message that arrives during the model call, whatever arrived before it, survives
      a success commit exactly when it lands among the messages kept or behind. */
  lemma {:induction false} ArrivalSurvivesIff(c: State, m: Message, at: nat, summary: string)
    requires c.pending.Some? && c.pending.value <= |c.store| && summary != ""
    requires NotSystem(m) && m !in c.store && at <= |c.store|
    ensures m in Apply(Apply(c, Append(m, at)), Finish(summary)).store <==> at >= c.pending.value - 10
  {
    InsertedOnlyAt(c.store, m, at);
    SuccessSurvivesIff(Apply(c, Append(m, at)), summary, m, at);
  }

  lemma CommitAddsSummary(ms: seq<Message>, n: nat, summary: string)
    requires n <= |ms| && summary != ""
    ensures SummaryMessage(summary) in SuccessCommit(ms, n, summary)
  {
    var front := Filter(ms[..n], IsPrompt);
    assert SuccessCommit(ms, n, summary)[|front|] == SummaryMessage(summary);
  }

  lemma ClearedWindow(c: State, during: seq<Step>, arrived: seq<Message>)
    requires forall i :: 0 <= i < |during| ==> during[i].Append? || during[i].Clear?
    ensures Run(c, during + [Clear] + Appends(0, arrived)) == State(arrived, c.pending)
  {
    PendingUntouched(c, during);
    RunLast(c, during, Clear);
    RunConcat(c, during + [Clear], Appends(0, arrived));
    RunAppends(State([], c.pending), arrived);
    assert [] + arrived == arrived;
  }

  /** A clear during the model call wins exactly while fewer messages have arrived since
      than the snapshot counted: the check is by size only. */
  lemma {:induction false} ClearWinsIff(c: State, during: seq<Step>, arrived: seq<Message>, summary: string)
    requires c.pending.Some? && summary != ""
    requires forall i :: 0 <= i < |during| ==> during[i].Append? || during[i].Clear?
    requires forall i :: 0 <= i < |arrived| ==> NotSystem(arrived[i])
    ensures Run(c, during + [Clear] + Appends(0, arrived) + [Finish(summary)]).store == arrived
            <==> |arrived| < c.pending.value
  {
    ClearedWindow(c, during, arrived);
    RunLast(c, during + [Clear] + Appends(0, arrived), Finish(summary));
    if c.pending.value <= |arrived| {
      CommitAddsSummary(arrived, c.pending.value, summary);
      assert !NotSystem(SummaryMessage(summary));
    }
  }

  lemma {:induction false} PendingUntouched(c: State, during: seq<Step>)
    requires forall i :: 0 <= i < |during| ==> during[i].Append? || during[i].Clear?
    ensures Run(c, during).pending == c.pending
  {
    if during != [] {
      PendingUntouched(c, during[..|during| - 1]);
    }
  }
}
