/** The conversation machine as a refinement: what the manager does to the message table, call by
    call under a clock that never runs backwards, is a run of the machine. */
module ConversationRows {
  import opened Options
  import opened Sequences
  import opened ChatMessages
  import opened RowStore
  import opened ChatContext
  import C = Conversation

  /** One call of the manager on the conversation, with the clock it reads, or anything done to
      other conversations of the table. */
  datatype Call =
    | Append(m: Message, now: int)
    | Clear
    | Begin
    | Finish(summary: string, now: int)
    | Fail(now: int)
    | Elsewhere(db: Db)

  datatype State = State(db: Db, pending: Option<nat>, clock: int)

  function Loaded(s: State, key: string): seq<Message> {
    Query(s.db.rows, key)
  }

  /** Appended messages are storable and not system messages, and summaries hold no NUL byte;
      the clock does not run backwards; other conversations leave this one alone. */
  ghost predicate Enabled(s: State, key: string, call: Call) {
    match call
    case Append(m, now) => NotSystem(m) && Storable(m) && s.clock <= now
    case Clear => true
    case Begin => s.pending.None?
    case Finish(summary, now) => s.pending.Some? && '\0' !in summary && s.clock <= now
    case Fail(now) => s.pending.Some? && s.clock <= now
    case Elsewhere(db) =>
      Table(db.rows, db.nextId) && Clean(db.rows) && Select(db.rows, key) == Select(s.db.rows, key)
  }

  function Next(s: State, key: string, call: Call): State {
    match call
    case Append(m, now) => State(Appended(s.db, key, m, now), s.pending, now)
    case Clear => s.(db := Db(Without(s.db.rows, key), s.db.nextId))
    case Begin => if TotalBytes(Loaded(s, key)) <= MAX_TOTAL_BYTES then s else s.(pending := Some(|Loaded(s, key)|))
    case Finish(summary, now) =>
      if s.pending.None? then s else State(Summarised(s.db, key, s.pending.value, summary, now), None, now)
    case Fail(now) => if s.pending.None? then s else State(FellBack(s.db, key, s.pending.value, now), None, now)
    case Elsewhere(db) => s.(db := db)
  }

  /** What the machine sees of a call: an append lands where its stamp puts it. */
  function Seen(s: State, key: string, call: Call): seq<C.Step> {
    match call
    case Append(m, now) => [C.Append(m, LandsAfter(s.db.rows, key, now))]
    case Clear => [C.Clear]
    case Begin => [C.Begin]
    case Finish(summary, _) => [C.Finish(summary)]
    case Fail(_) => [C.Fail]
    case Elsewhere(_) => []
  }

  function Abstract(s: State, key: string): C.State {
    C.State(Loaded(s, key), s.pending)
  }

  // ---------- the invariant ----------

  /** Some row of the conversation, if there is any, is not stamped ahead of the clock. */
  ghost predicate FirstIsPast(rows: seq<Row>, key: string, clock: int) {
    Select(rows, key) == [] || exists i :: 0 <= i < |Select(rows, key)| && Select(rows, key)[i].stamp <= clock
  }

  ghost predicate Inv(s: State, key: string) {
    Table(s.db.rows, s.db.nextId) && Clean(s.db.rows) && FirstIsPast(s.db.rows, key, s.clock)
  }

  lemma {:induction false} SomeAtMost(rs: seq<Row>, i: nat, stamp: int)
    requires i < |rs| && rs[i].stamp <= stamp
    ensures AtMost(rs, stamp) >= 1
    decreases |rs|
  {
    if i < |rs| - 1 {
      SomeAtMost(rs[..|rs| - 1], i, stamp);
    }
  }

  /** An append never lands before the first message. */
  lemma NeverFirst(rows: seq<Row>, nextId: nat, key: string, now: int)
    requires Table(rows, nextId) && FirstIsPast(rows, key, now)
    ensures Query(rows, key) != [] ==> LandsAfter(rows, key, now) >= 1
  {
    var sel := Select(rows, key);
    QueryLength(rows, nextId, key);
    if sel != [] {
      var i :| 0 <= i < |sel| && sel[i].stamp <= now;
      SortRowsPermutes(sel);
      SameMembers(SortRows(sel), sel);
      assert sel[i] in SortRows(sel);
      var j :| 0 <= j < |SortRows(sel)| && SortRows(sel)[j] == sel[i];
      SomeAtMost(SortRows(sel), j, now);
    }
  }

  // ---------- one call is one step ----------

  lemma AppendRefines(s: State, key: string, m: Message, now: int)
    requires Inv(s, key) && Enabled(s, key, Append(m, now))
    ensures C.Enabled(Abstract(s, key), C.Append(m, LandsAfter(s.db.rows, key, now)))
    ensures Abstract(Next(s, key, Append(m, now)), key) ==
            C.Apply(Abstract(s, key), C.Append(m, LandsAfter(s.db.rows, key, now)))
    ensures Inv(Next(s, key, Append(m, now)), key)
  {
    var r := Row(s.db.nextId, key, m, now);
    AppendThenQuery(s.db.rows, s.db.nextId, key, m, now);
    AppendKeepsTable(s.db.rows, s.db.nextId, r);
    NeverFirst(s.db.rows, s.db.nextId, key, now);
    SelectPush(s.db.rows, r, key);
    assert Select(s.db.rows + [r], key)[|Select(s.db.rows, key)|].stamp <= now;
  }

  lemma ClearRefines(s: State, key: string)
    requires Inv(s, key)
    ensures Loaded(Next(s, key, Clear), key) == [] && Inv(Next(s, key, Clear), key)
  {
    WithoutKeepsTable(s.db.rows, s.db.nextId, key);
    WithoutKeepsClean(s.db.rows, key);
    SelectWithout(s.db.rows, key, key);
  }

  lemma BatchStartsNow(key: string, ms: seq<Message>, now: int, firstId: nat)
    requires ms != [] && Stored(ms) == ms
    ensures |Batch(key, ms, now, firstId)| == |ms| && Batch(key, ms, now, firstId)[0].stamp == now
  {
    BatchMessages(key, ms, now, firstId);
    FirstStamp(key, ms, now, firstId);
  }

  lemma {:induction false} FirstStamp(key: string, ms: seq<Message>, now: int, firstId: nat)
    requires |Stored(ms)| == |ms| && ms != []
    ensures Batch(key, ms, now, firstId) != [] && Batch(key, ms, now, firstId)[0].stamp == now
    decreases |ms|
  {
    var init, last := ms[..|ms| - 1], ms[|ms| - 1];
    assert ms == init + [last];
    StoredAllMeansRoles(ms);
    assert RoleKept(last);
    BatchPush(key, init, last, now, firstId);
    if init != [] {
      assert |Stored(init)| == |init|;
      FirstStamp(key, init, now, firstId);
    }
  }

  lemma SaveRefines(s: State, key: string, ms: seq<Message>, now: int)
    requires Table(s.db.rows, s.db.nextId) && Clean(s.db.rows) && Stored(ms) == ms
    ensures var db := Saved(s.db, key, ms, now);
            Query(db.rows, key) == ms && Table(db.rows, db.nextId) && Clean(db.rows) && FirstIsPast(db.rows, key, now)
  {
    SaveThenQuery(s.db.rows, s.db.nextId, key, ms, now);
    AfterSaveTable(s.db.rows, s.db.nextId, key, ms, now);
    AfterSaveClean(s.db.rows, s.db.nextId, key, ms, now);
    AfterSaveSelectOwn(s.db.rows, s.db.nextId, key, ms, now);
    if ms != [] {
      BatchStartsNow(key, ms, now, s.db.nextId);
    }
  }

  lemma LaterStillPast(rows: seq<Row>, key: string, clock: int, now: int)
    requires FirstIsPast(rows, key, clock) && clock <= now
    ensures FirstIsPast(rows, key, now)
  {
    if i :| 0 <= i < |Select(rows, key)| && Select(rows, key)[i].stamp <= clock {
      assert Select(rows, key)[i].stamp <= now;
    }
  }

  lemma FinishRefines(s: State, key: string, summary: string, now: int)
    requires Inv(s, key) && Enabled(s, key, Finish(summary, now))
    ensures Abstract(Next(s, key, Finish(summary, now)), key) == C.Apply(Abstract(s, key), C.Finish(summary))
    ensures Inv(Next(s, key, Finish(summary, now)), key)
  {
    var n := s.pending.value;
    QueryIsStorable(s.db.rows, s.db.nextId, key);
    SuccessIsStored(Loaded(s, key), n, summary);
    SaveRefines(s, key, SuccessCommit(Loaded(s, key), n, summary), now);
    LaterStillPast(s.db.rows, key, s.clock, now);
  }

  lemma FailRefines(s: State, key: string, now: int)
    requires Inv(s, key) && Enabled(s, key, Fail(now))
    ensures Abstract(Next(s, key, Fail(now)), key) == C.Apply(Abstract(s, key), C.Fail)
    ensures Inv(Next(s, key, Fail(now)), key)
  {
    QueryIsStorable(s.db.rows, s.db.nextId, key);
    FallbackIsStored(Loaded(s, key), s.pending.value);
    SaveRefines(s, key, FallbackCommit(Loaded(s, key), s.pending.value), now);
  }

  /** Every call takes the step the machine sees, or none. */
  lemma CallRefines(s: State, key: string, call: Call)
    requires Inv(s, key) && Enabled(s, key, call)
    ensures Inv(Next(s, key, call), key)
    ensures C.Legal(Abstract(s, key), Seen(s, key, call))
    ensures Abstract(Next(s, key, call), key) == C.Run(Abstract(s, key), Seen(s, key, call))
  {
    var c := Abstract(s, key);
    match call
    case Append(m, now) =>
      AppendRefines(s, key, m, now);
      OneStep(c, Seen(s, key, call)[0]);
    case Clear =>
      ClearRefines(s, key);
      OneStep(c, C.Clear);
    case Begin => OneStep(c, C.Begin);
    case Finish(summary, now) =>
      FinishRefines(s, key, summary, now);
      OneStep(c, C.Finish(summary));
    case Fail(now) =>
      FailRefines(s, key, now);
      OneStep(c, C.Fail);
    case Elsewhere(db) =>
  }

  lemma OneStep(c: C.State, step: C.Step)
    requires C.Enabled(c, step)
    ensures C.Legal(c, [step]) && C.Run(c, [step]) == C.Apply(c, step)
  {
    assert [step][..0] == [];
  }

  // ---------- every run of calls is a run of the machine ----------

  function Run(s: State, key: string, calls: seq<Call>): State {
    if calls == [] then s else Next(Run(s, key, calls[..|calls| - 1]), key, calls[|calls| - 1])
  }

  ghost predicate Legal(s: State, key: string, calls: seq<Call>) {
    calls == [] ||
    (Legal(s, key, calls[..|calls| - 1]) && Enabled(Run(s, key, calls[..|calls| - 1]), key, calls[|calls| - 1]))
  }

  function AllSeen(s: State, key: string, calls: seq<Call>): seq<C.Step> {
    if calls == [] then []
    else AllSeen(s, key, calls[..|calls| - 1]) + Seen(Run(s, key, calls[..|calls| - 1]), key, calls[|calls| - 1])
  }

  lemma LegalConcat(c: C.State, a: seq<C.Step>, b: seq<C.Step>)
    requires C.Legal(c, a) && C.Legal(C.Run(c, a), b) && |b| <= 1
    ensures C.Legal(c, a + b)
  {
    C.RunConcat(c, a, b);
    if b == [] {
      assert a + b == a;
    } else {
      assert (a + b)[..|a + b| - 1] == a && b[..0] == [];
    }
  }

  /** Whatever calls the manager gets, from a table where the conversation is empty: the list it
      loads is the store of the machine after the steps seen, which are legal. */
  lemma {:induction false} RunRefines(s: State, key: string, calls: seq<Call>)
    requires Inv(s, key) && Legal(s, key, calls)
    ensures Inv(Run(s, key, calls), key)
    ensures C.Legal(Abstract(s, key), AllSeen(s, key, calls))
    ensures Abstract(Run(s, key, calls), key) == C.Run(Abstract(s, key), AllSeen(s, key, calls))
    decreases |calls|
  {
    if calls != [] {
      var init, last := calls[..|calls| - 1], calls[|calls| - 1];
      var t := Run(s, key, init);
      RunRefines(s, key, init);
      CallRefines(t, key, last);
      LegalConcat(Abstract(s, key), AllSeen(s, key, init), Seen(t, key, last));
      C.RunConcat(Abstract(s, key), AllSeen(s, key, init), Seen(t, key, last));
    }
  }

  /** So no run of calls, however its stamps fall, ever leaves two summaries, or any other system
      message, in a conversation that started empty. */
  lemma AtMostOneSummaryStored(s: State, key: string, calls: seq<Call>)
    requires Inv(s, key) && Legal(s, key, calls) && Loaded(s, key) == [] && s.pending.None?
    ensures var ms := Loaded(Run(s, key, calls), key);
            Filter(ms, IsPrompt) == [] && |Filter(ms, IsSummary)| <= 1
  {
    RunRefines(s, key, calls);
    C.AtMostOneSummary(AllSeen(s, key, calls));
  }

  /** An append is seen to land last exactly when no row of the conversation is stamped ahead. */
  lemma TimelyIff(s: State, key: string, m: Message, now: int)
    requires Inv(s, key)
    ensures Seen(s, key, Append(m, now)) == [C.Append(m, |Loaded(s, key)|)] <==> NoRowAhead(s.db.rows, key, now)
  {
    AppendLandsLastIff(s.db.rows, s.db.nextId, key, now);
  }

  // ---------- what was recorded, over calls ----------

  /** What was appended since the last clear, starting from what was there. */
  function Recorded(start: seq<Message>, calls: seq<Call>): seq<Message> {
    if calls == [] then start
    else
      var before := Recorded(start, calls[..|calls| - 1]);
      match calls[|calls| - 1]
      case Append(m, _) => before + [m]
      case Clear => []
      case _ => before
  }

  lemma RecordedPush(start: seq<Message>, steps: seq<C.Step>, step: C.Step)
    ensures C.Recorded(start, steps + [step]) ==
            if step.Append? then C.Recorded(start, steps) + [step.m]
            else if step.Clear? then []
            else C.Recorded(start, steps)
  {
    assert (steps + [step])[..|steps|] == steps;
  }

  lemma CallRecords(s: State, key: string, call: Call, steps: seq<C.Step>, start: seq<Message>)
    ensures C.Recorded(start, steps + Seen(s, key, call)) ==
            if call.Append? then C.Recorded(start, steps) + [call.m]
            else if call.Clear? then []
            else C.Recorded(start, steps)
  {
    var seen := Seen(s, key, call);
    if seen == [] {
      assert steps + seen == steps;
    } else {
      RecordedPush(start, steps, seen[0]);
    }
  }

  /** The machine records what the calls record, whatever it sees of their stamps. */
  lemma {:induction false} SeenRecords(s: State, key: string, calls: seq<Call>, start: seq<Message>)
    ensures C.Recorded(start, AllSeen(s, key, calls)) == Recorded(start, calls)
    decreases |calls|
  {
    if calls != [] {
      var init, last := calls[..|calls| - 1], calls[|calls| - 1];
      SeenRecords(s, key, init, start);
      CallRecords(Run(s, key, init), key, last, AllSeen(s, key, init), start);
    }
  }

  /** Over any run of calls, the non-system messages loaded were all appended since the last
      clear, none more often than it was appended. */
  lemma {:induction false} NothingReappearsInTable(s: State, key: string, calls: seq<Call>)
    requires Inv(s, key) && Legal(s, key, calls)
    ensures multiset(Filter(Loaded(Run(s, key, calls), key), NotSystem))
            <= multiset(Recorded(Filter(Loaded(s, key), NotSystem), calls))
  {
    RunRefines(s, key, calls);
    C.NothingReappears(Abstract(s, key), AllSeen(s, key, calls));
    SeenRecords(s, key, calls, Filter(Loaded(s, key), NotSystem));
  }

  /** No append of the run finds a row of the conversation stamped ahead of its clock. */
  ghost predicate Timely(s: State, key: string, calls: seq<Call>) {
    calls == [] ||
    (Timely(s, key, calls[..|calls| - 1]) &&
     (calls[|calls| - 1].Append? ==>
        NoRowAhead(Run(s, key, calls[..|calls| - 1]).db.rows, key, calls[|calls| - 1].now)))
  }

  lemma TimelyPush(c: C.State, steps: seq<C.Step>, step: C.Step)
    ensures C.Timely(c, steps + [step]) <==>
            C.Timely(c, steps) && (step.Append? ==> step.at == |C.Run(c, steps).store|)
  {
    assert (steps + [step])[..|steps|] == steps;
  }

  lemma CallIsTimely(s: State, key: string, call: Call, c: C.State, steps: seq<C.Step>)
    requires Inv(s, key) && C.Run(c, steps) == Abstract(s, key)
    ensures C.Timely(c, steps + Seen(s, key, call)) <==>
            C.Timely(c, steps) && (call.Append? ==> NoRowAhead(s.db.rows, key, call.now))
  {
    var seen := Seen(s, key, call);
    if seen == [] {
      assert steps + seen == steps;
    } else {
      TimelyPush(c, steps, seen[0]);
      if call.Append? {
        TimelyIff(s, key, call.m, call.now);
      }
    }
  }

  lemma {:induction false} TimelyIsSeen(s: State, key: string, calls: seq<Call>)
    requires Inv(s, key) && Legal(s, key, calls)
    ensures Timely(s, key, calls) <==> C.Timely(Abstract(s, key), AllSeen(s, key, calls))
    decreases |calls|
  {
    if calls != [] {
      var init, last := calls[..|calls| - 1], calls[|calls| - 1];
      TimelyIsSeen(s, key, init);
      RunRefines(s, key, init);
      CallIsTimely(Run(s, key, init), key, last, Abstract(s, key), AllSeen(s, key, init));
    }
  }

  /** And while no append finds a row stamped ahead, the non-system messages loaded are exactly
      the most recent ones, in order and without gaps. */
  lemma {:induction false} LoadedIsRecentSuffix(s: State, key: string, calls: seq<Call>)
    requires Inv(s, key) && Legal(s, key, calls) && Timely(s, key, calls)
    ensures Suffix(Filter(Loaded(Run(s, key, calls), key), NotSystem),
                   Recorded(Filter(Loaded(s, key), NotSystem), calls))
  {
    RunRefines(s, key, calls);
    TimelyIsSeen(s, key, calls);
    C.StoreIsRecentSuffix(Abstract(s, key), AllSeen(s, key, calls));
    SeenRecords(s, key, calls, Filter(Loaded(s, key), NotSystem));
  }

  // ---------- a run in which an arrival is lost ----------

  lemma RunPush(s: State, key: string, calls: seq<Call>, call: Call)
    ensures Run(s, key, calls + [call]) == Next(Run(s, key, calls), key, call)
    ensures Legal(s, key, calls + [call]) <==> Legal(s, key, calls) && Enabled(Run(s, key, calls), key, call)
  {
    assert (calls + [call])[..|calls|] == calls;
  }

  lemma RunPushTwo(s: State, key: string, calls: seq<Call>, a: Call, b: Call)
    requires Legal(s, key, calls) && Enabled(Run(s, key, calls), key, a)
    requires Enabled(Next(Run(s, key, calls), key, a), key, b)
    ensures Run(s, key, calls + [a, b]) == Next(Next(Run(s, key, calls), key, a), key, b)
    ensures Legal(s, key, calls + [a, b])
  {
    RunPush(s, key, calls, a);
    RunPush(s, key, calls + [a], b);
    assert calls + [a, b] == calls + [a] + [b];
  }

  /** Long enough to be summarised, with nothing a fallback can absorb. */
  ghost predicate Unfoldable(ms: seq<Message>) {
    TotalBytes(ms) > MAX_TOTAL_BYTES && FallbackText(ms) == ""
  }

  lemma SavedAgain(db: Db, key: string, ms: seq<Message>, t: int, now: int)
    requires Table(db.rows, db.nextId) && Clean(db.rows) && Query(db.rows, key) == ms
    requires t <= now < t + |ms| - 1
    ensures Query(Saved(db, key, ms, t).rows, key) == ms
    ensures LandsAfter(Saved(db, key, ms, t).rows, key, now) == now - t + 1
  {
    QueryIsStorable(db.rows, db.nextId, key);
    SaveThenQuery(db.rows, db.nextId, key, ms, t);
    SavedLandsAfter(db.rows, db.nextId, key, ms, t, now);
  }

  /** A fallback of such a list saves it again, stamped t, t + 1, ...: for as many milliseconds as
      it has messages, less one, an append lands inside it. */
  lemma FailedFallback(s: State, key: string, ms: seq<Message>, t: int, now: int)
    requires Inv(s, key) && Loaded(s, key) == ms && s.pending == Some(|ms|) && Unfoldable(ms)
    requires s.clock <= t <= now < t + |ms| - 1
    ensures var s' := Next(s, key, Fail(t));
            && Inv(s', key) && Loaded(s', key) == ms && s'.pending.None? && s'.clock == t
            && LandsAfter(s'.db.rows, key, now) == now - t + 1
  {
    FailRefines(s, key, t);
    SavedAgain(s.db, key, ms, t, now);
    assert FallbackCommit(ms, |ms|) == ms;
  }

  /** A message that arrives during the next model call and lands before the last ten: the
      summary drops it. */
  lemma ArrivalIsDropped(s: State, key: string, ms: seq<Message>, m: Message, summary: string, now: int)
    requires Inv(s, key) && Loaded(s, key) == ms && s.pending == Some(|ms|)
    requires LandsAfter(s.db.rows, key, now) < |ms| - KEEP_LAST && m !in ms
    requires Enabled(s, key, Append(m, now)) && summary != "" && '\0' !in summary
    ensures var s' := Next(s, key, Append(m, now));
            Enabled(s', key, Finish(summary, now)) && m !in Loaded(Next(s', key, Finish(summary, now)), key)
  {
    var s' := Next(s, key, Append(m, now));
    AppendRefines(s, key, m, now);
    FinishRefines(s', key, summary, now);
    C.ArrivalSurvivesIff(Abstract(s, key), m, LandsAfter(s.db.rows, key, now), summary);
  }

  lemma AfterFailedFallback(s: State, key: string, before: seq<Call>, ms: seq<Message>, t: int, now: int)
    requires Inv(s, key) && Legal(s, key, before)
    requires Loaded(Run(s, key, before), key) == ms && Unfoldable(ms)
    requires Run(s, key, before).pending.None? && Run(s, key, before).clock <= t <= now < t + |ms| - 1
    ensures Legal(s, key, before + [Begin, Fail(t)])
    ensures var s' := Run(s, key, before + [Begin, Fail(t)]);
            && Inv(s', key) && Loaded(s', key) == ms && s'.pending.None? && s'.clock == t
            && LandsAfter(s'.db.rows, key, now) == now - t + 1
  {
    RunRefines(s, key, before);
    FailedFallback(Next(Run(s, key, before), key, Begin), key, ms, t, now);
    RunPushTwo(s, key, before, Begin, Fail(t));
  }

  lemma {:induction false} DroppedAfter(
    s: State, key: string, before: seq<Call>, ms: seq<Message>, m: Message, summary: string, now: int)
    requires Legal(s, key, before) && Inv(Run(s, key, before), key)
    requires var s' := Run(s, key, before);
             && Loaded(s', key) == ms && s'.pending.None? && s'.clock <= now
             && LandsAfter(s'.db.rows, key, now) < |ms| - KEEP_LAST
    requires Unfoldable(ms) && m !in ms
    requires NotSystem(m) && Storable(m) && summary != "" && '\0' !in summary
    ensures var calls := before + [Begin, Append(m, now)] + [Finish(summary, now)];
            Legal(s, key, calls) && m !in Loaded(Run(s, key, calls), key)
  {
    var s' := Next(Run(s, key, before), key, Begin);
    ArrivalIsDropped(s', key, ms, m, summary, now);
    RunPushTwo(s, key, before, Begin, Append(m, now));
    RunPush(s, key, before + [Begin, Append(m, now)], Finish(summary, now));
  }

  /** A model call that fails at t, and a message that arrives during the next one. */
  function LosingCalls(m: Message, summary: string, t: int, now: int): seq<Call> {
    [Begin, Fail(t), Begin, Append(m, now), Finish(summary, now)]
  }

  lemma LosingSplits(before: seq<Call>, m: Message, summary: string, t: int, now: int)
    ensures before + LosingCalls(m, summary, t, now) ==
            before + [Begin, Fail(t)] + [Begin, Append(m, now)] + [Finish(summary, now)]
  {
  }

  /** From any conversation of n messages with nothing to absorb, such calls lose every message
      that arrives at most n - 12 milliseconds after the failure. */
  lemma {:induction false} EarlyArrivalIsLost(
    s: State, key: string, before: seq<Call>, m: Message, summary: string, t: int, now: int)
    requires Inv(s, key) && Legal(s, key, before)
    requires Run(s, key, before).pending.None? && Run(s, key, before).clock <= t <= now
    requires var ms := Loaded(Run(s, key, before), key);
             Unfoldable(ms) && now - t <= |ms| - 12 && m !in ms
    requires NotSystem(m) && Storable(m) && summary != "" && '\0' !in summary
    ensures Legal(s, key, before + LosingCalls(m, summary, t, now))
    ensures m !in Loaded(Run(s, key, before + LosingCalls(m, summary, t, now)), key)
  {
    var ms := Loaded(Run(s, key, before), key);
    AfterFailedFallback(s, key, before, ms, t, now);
    DroppedAfter(s, key, before + [Begin, Fail(t)], ms, m, summary, now);
    LosingSplits(before, m, summary, t, now);
  }

  /** n messages alike. */
  function Alike(m: Message, n: nat): seq<Message> {
    seq(n, _ => m)
  }

  function AppendAlike(m: Message, n: nat, t: int): seq<Call> {
    seq(n, _ => Append(m, t))
  }

  lemma AlikeInserted(m: Message, n: nat, at: nat)
    ensures C.Inserted(Alike(m, n), m, at) == Alike(m, n + 1)
  {
  }

  lemma AppendAlikePush(m: Message, n: nat, t: int)
    ensures AppendAlike(m, n + 1, t) == AppendAlike(m, n, t) + [Append(m, t)]
  {
  }

  lemma OneMoreAlike(s: State, key: string, m: Message, n: nat, t: int)
    requires Inv(s, key) && Loaded(s, key) == Alike(m, n) && Enabled(s, key, Append(m, t))
    ensures Loaded(Next(s, key, Append(m, t)), key) == Alike(m, n + 1) && Inv(Next(s, key, Append(m, t)), key)
  {
    AppendRefines(s, key, m, t);
    AlikeInserted(m, n, LandsAfter(s.db.rows, key, t));
  }

  lemma {:induction false} AlikeArrive(s: State, key: string, m: Message, n: nat, t: int)
    requires Inv(s, key) && Loaded(s, key) == [] && s.pending.None? && s.clock <= t
    requires NotSystem(m) && Storable(m)
    ensures Legal(s, key, AppendAlike(m, n, t))
    ensures var s' := Run(s, key, AppendAlike(m, n, t));
            Loaded(s', key) == Alike(m, n) && s'.pending.None? && s'.clock <= t && Inv(s', key)
  {
    if n > 0 {
      var calls := AppendAlike(m, n - 1, t);
      AlikeArrive(s, key, m, n - 1, t);
      AppendAlikePush(m, n - 1, t);
      RunPush(s, key, calls, Append(m, t));
      OneMoreAlike(Run(s, key, calls), key, m, n - 1, t);
    }
  }

  lemma AlikeIsUnfoldable(m: Message, n: nat)
    requires n > 0 && NotSystem(m) && |m.content| > MAX_TOTAL_BYTES
    ensures Unfoldable(Alike(m, n))
  {
    var ms := Alike(m, n);
    TotalAtLeast(ms, 0);
    FilterNone(ms, IsSummary);
    CarriedMeansSummary(ms);
  }

  lemma OnlyAlike(long: Message, n: nat, m: Message)
    requires m != long
    ensures |Alike(long, n)| == n && m !in Alike(long, n)
  {
  }

  lemma AlikeLoses(s: State, key: string, before: seq<Call>, long: Message, n: nat, m: Message, summary: string,
                   t: int, now: int)
    requires Inv(s, key) && Legal(s, key, before) && Loaded(Run(s, key, before), key) == Alike(long, n)
    requires Run(s, key, before).pending.None? && Run(s, key, before).clock <= t <= now <= t + n - 12
    requires NotSystem(long) && |long.content| > MAX_TOTAL_BYTES
    requires NotSystem(m) && Storable(m) && m != long && summary != "" && '\0' !in summary
    ensures Legal(s, key, before + LosingCalls(m, summary, t, now))
    ensures m !in Loaded(Run(s, key, before + LosingCalls(m, summary, t, now)), key)
  {
    AlikeIsUnfoldable(long, n);
    OnlyAlike(long, n, m);
    EarlyArrivalIsLost(s, key, before, m, summary, t, now);
  }

  /** And a conversation to which they happen is reachable from every empty one, for every delay:
      long messages of a user will do. */
  lemma ArrivalCanBeLost(s: State, key: string, long: Message, n: nat, m: Message, summary: string, now: int)
    requires Inv(s, key) && Loaded(s, key) == [] && s.pending.None?
    requires NotSystem(long) && Storable(long) && |long.content| > 65536
    requires NotSystem(m) && Storable(m) && m != long && summary != "" && '\0' !in summary
    requires s.clock <= now <= s.clock + n - 12
    ensures var calls := AppendAlike(long, n, s.clock) + LosingCalls(m, summary, s.clock, now);
            Legal(s, key, calls) && m !in Loaded(Run(s, key, calls), key)
  {
    AlikeArrive(s, key, long, n, s.clock);
    AlikeLoses(s, key, AppendAlike(long, n, s.clock), long, n, m, summary, s.clock, now);
  }
}
