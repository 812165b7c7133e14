/** The chat context manager: appends, clears and the two ways a summarisation is
    committed, over the SQLite backend.  Each method is one critical section of `mutex_`;
    the LLM call happens between Snapshot and a commit, with the lock released. */
module ChatContext {
  import opened Options
  import opened Sequences
  import opened ChatMessages
  import opened RowStore

  const MAX_TOTAL_BYTES := 65536
  const KEEP_LAST := 10
  const SUMMARY_TRUNCATE_BYTES := 1200

  // ---------- what the commits do to a message list ----------

  function TotalBytes(ms: seq<Message>): nat {
    if ms == [] then 0 else TotalBytes(ms[..|ms| - 1]) + |ms[|ms| - 1].content|
  }

  /** The total is the sum over the parts of a list, and of one message its content's size. */
  lemma {:induction false} TotalBytesAdds(a: seq<Message>, b: seq<Message>)
    ensures TotalBytes(a + b) == TotalBytes(a) + TotalBytes(b)
    ensures |b| == 1 ==> TotalBytes(b) == |b[0].content|
    decreases |b|
  {
    if b == [] {
      assert a + b == a;
    } else {
      var init, last := b[..|b| - 1], b[|b| - 1];
      assert (a + b)[..|a + b| - 1] == a + init;
      TotalBytesAdds(a, init);
    }
  }

  lemma {:induction false} TotalAtLeast(ms: seq<Message>, i: nat)
    requires i < |ms|
    ensures TotalBytes(ms) >= |ms[i].content|
    decreases |ms|
  {
    if i < |ms| - 1 {
      TotalAtLeast(ms[..|ms| - 1], i);
    }
  }

  function KeepStart(n: nat): (k: nat)
    ensures k <= n
  {
    if n > KEEP_LAST then n - KEEP_LAST else 0
  }

  /** The list a successful summarisation of the first n messages saves. */
  function Reduced(ms: seq<Message>, n: nat, summary: string): seq<Message>
    requires n <= |ms|
  {
    Filter(ms[..n], IsPrompt) + [SummaryMessage(summary)] + Filter(ms[KeepStart(n)..n], NotSystem) + ms[n..]
  }

  /** Success path: an empty summary or a shrunken conversation leaves the list alone. */
  function SuccessCommit(ms: seq<Message>, n: nat, summary: string): seq<Message> {
    if summary == "" || |ms| < n then ms else Reduced(ms, n, summary)
  }

  /** Text of the most recent summary, newline-terminated; empty when there is none. */
  function Carried(ms: seq<Message>): string {
    if ms == [] then ""
    else if IsSummary(ms[|ms| - 1]) then ms[|ms| - 1].content[|SUMMARY_PREFIX|..] + "\n"
    else Carried(ms[..|ms| - 1])
  }

  /** Contents joined the way the fallback accumulates them. */
  function Joined(ms: seq<Message>): string {
    if ms == [] then "" else (ms[0].content + " ") + Joined(ms[1..])
  }

  /** The accumulation of the fallback: where it stops, and the text by then. */
  function AbsorbFrom(ms: seq<Message>, i: nat, acc: string): (r: (nat, string))
    requires i <= |ms|
    ensures i <= r.0 <= |ms|
    decreases |ms| - i
  {
    if i == |ms| then (i, acc)
    else if IsSystem(ms[i]) then AbsorbFrom(ms, i + 1, acc)
    else if |acc| + |ms[i].content| > SUMMARY_TRUNCATE_BYTES then (i, acc)
    else AbsorbFrom(ms, i + 1, acc + (ms[i].content + " "))
  }

  function Absorbed(ms: seq<Message>): (k: nat)
    ensures k <= |ms|
  {
    AbsorbFrom(ms, 0, Carried(ms)).0
  }

  function FallbackText(ms: seq<Message>): string {
    AbsorbFrom(ms, 0, Carried(ms)).1
  }

  /** summarize_if_needed: fold leading messages into the summary text, keep the rest. */
  function Fallback(ms: seq<Message>): seq<Message> {
    if TotalBytes(ms) <= MAX_TOTAL_BYTES || FallbackText(ms) == "" then ms
    else Filter(ms, IsPrompt) + [SummaryMessage(FallbackText(ms))] + Filter(ms[Absorbed(ms)..], NotSystem)
  }

  /** Exception path: only the original range is folded when the list has grown. */
  function FallbackCommit(ms: seq<Message>, n: nat): seq<Message> {
    if |ms| > n then Fallback(ms[..n]) + ms[n..] else Fallback(ms)
  }

  // ---------- the text of a fallback ----------

  lemma {:induction false} JoinedAppend(a: seq<Message>, b: seq<Message>)
    ensures Joined(a + b) == Joined(a) + Joined(b)
    ensures |b| == 1 ==> Joined(b) == b[0].content + " "
    decreases |a|
  {
    assert |b| == 1 ==> b[1..] == [];
    if a == [] {
      assert a + b == b;
    } else {
      JoinedAppend(a[1..], b);
      assert (a + b)[1..] == a[1..] + b;
      ConcatAssoc(a[0].content + " ", Joined(a[1..]), Joined(b));
    }
  }

  /** Message i is the latest summary, and t is what it summarises to. */
  predicate LatestSummary(ms: seq<Message>, i: nat, t: string) {
    && i < |ms| && ms[i].role == "system" && ms[i].content == "Conversation summary: " + t
    && forall j :: i < j < |ms| ==> !(ms[j].role == "system" && "Conversation summary: " <= ms[j].content)
  }

  predicate HasNoSummary(ms: seq<Message>) {
    forall j :: 0 <= j < |ms| ==> !(ms[j].role == "system" && "Conversation summary: " <= ms[j].content)
  }

  lemma {:induction false} LatestIsCarried(ms: seq<Message>, i: nat, t: string)
    requires LatestSummary(ms, i, t)
    ensures Carried(ms) == t + "\n"
    decreases |ms|
  {
    if i < |ms| - 1 {
      assert !IsSummary(ms[|ms| - 1]);
      LatestIsCarried(ms[..|ms| - 1], i, t);
    } else {
      assert ms[i].content[|SUMMARY_PREFIX|..] == t;
    }
  }

  lemma {:induction false} NothingIsCarried(ms: seq<Message>)
    requires HasNoSummary(ms)
    ensures Carried(ms) == ""
    decreases |ms|
  {
    if ms != [] {
      NothingIsCarried(ms[..|ms| - 1]);
    }
  }

  lemma FoldedAt(ms: seq<Message>)
    requires Fallback(ms) != ms
    ensures var k := |Filter(ms, IsPrompt)|;
            k < |Fallback(ms)| &&
            Fallback(ms)[k] == Message("system", "", "Conversation summary: " + FallbackText(ms), "", "")
    ensures FallbackText(ms) == Carried(ms) + Joined(Filter(ms[..Absorbed(ms)], NotSystem))
  {
    AbsorbsPrefix(ms, 0, Carried(ms));
    assert ms[0..Absorbed(ms)] == ms[..Absorbed(ms)];
  }

  /** Whenever the fallback folds, the summary it writes begins with the text of the latest
      summary, on a line of its own, and goes on with the contents absorbed. */
  lemma FallbackKeepsSummaryText(ms: seq<Message>, i: nat, t: string)
    requires LatestSummary(ms, i, t) && Fallback(ms) != ms
    ensures var k, absorbed := |Filter(ms, IsPrompt)|, Joined(Filter(ms[..Absorbed(ms)], NotSystem));
            k < |Fallback(ms)| &&
            Fallback(ms)[k] == Message("system", "", "Conversation summary: " + (t + "\n" + absorbed), "", "")
  {
    LatestIsCarried(ms, i, t);
    FoldedAt(ms);
  }

  /** With no summary before, it holds the contents absorbed and nothing else. */
  lemma FallbackStartsSummary(ms: seq<Message>)
    requires HasNoSummary(ms) && Fallback(ms) != ms
    ensures var k, absorbed := |Filter(ms, IsPrompt)|, Joined(Filter(ms[..Absorbed(ms)], NotSystem));
            k < |Fallback(ms)| &&
            Fallback(ms)[k] == Message("system", "", "Conversation summary: " + absorbed, "", "")
  {
    var absorbed := Joined(Filter(ms[..Absorbed(ms)], NotSystem));
    NothingIsCarried(ms);
    FoldedAt(ms);
    assert "" + absorbed == absorbed;
  }

  /** What a fallback commit folds: the messages of the snapshot, or all when no more are left
      than it counted.  The rest follows as it is. */
  lemma CommitFoldsRange(ms: seq<Message>, n: nat)
    ensures var k := if |ms| > n then n else |ms|;
            FallbackCommit(ms, n) == Fallback(ms[..k]) + ms[k..]
    ensures var k := if |ms| > n then n else |ms|;
            FallbackCommit(ms, n) != ms ==> Fallback(ms[..k]) != ms[..k]
  {
    var k := if |ms| > n then n else |ms|;
    assert ms == ms[..k] + ms[k..];
    if |ms| <= n {
      assert ms[..k] == ms;
      assert Fallback(ms) + [] == Fallback(ms);
    }
  }

  lemma CommitKeepsSummaryText(ms: seq<Message>, n: nat, range: seq<Message>, i: nat, t: string)
    requires range == ms[..if |ms| > n then n else |ms|]
    requires LatestSummary(range, i, t) && FallbackCommit(ms, n) != ms
    ensures var k, absorbed := |Filter(range, IsPrompt)|, Joined(Filter(range[..Absorbed(range)], NotSystem));
            k < |FallbackCommit(ms, n)| &&
            FallbackCommit(ms, n)[k] == Message("system", "", "Conversation summary: " + (t + "\n" + absorbed), "", "")
  {
    CommitFoldsRange(ms, n);
    FallbackKeepsSummaryText(range, i, t);
  }

  lemma CommitStartsSummary(ms: seq<Message>, n: nat, range: seq<Message>)
    requires range == ms[..if |ms| > n then n else |ms|]
    requires HasNoSummary(range) && FallbackCommit(ms, n) != ms
    ensures var k, absorbed := |Filter(range, IsPrompt)|, Joined(Filter(range[..Absorbed(range)], NotSystem));
            k < |FallbackCommit(ms, n)| &&
            FallbackCommit(ms, n)[k] == Message("system", "", "Conversation summary: " + absorbed, "", "")
  {
    CommitFoldsRange(ms, n);
    FallbackStartsSummary(range);
  }

  // ---------- the fallback loses nothing ----------

  lemma FilterStep(ms: seq<Message>, i: nat, k: nat)
    requires i < k <= |ms|
    ensures Filter(ms[i..k], NotSystem)
            == if IsSystem(ms[i]) then Filter(ms[i + 1..k], NotSystem) else [ms[i]] + Filter(ms[i + 1..k], NotSystem)
  {
    assert ms[i..k] == [ms[i]] + ms[i + 1..k];
    FilterAppend([ms[i]], ms[i + 1..k], NotSystem);
    assert [ms[i]][..0] == [];
  }

  lemma {:induction false} AbsorbsPrefix(ms: seq<Message>, i: nat, acc: string)
    requires i <= |ms|
    ensures var r := AbsorbFrom(ms, i, acc);
            && r.1 == acc + Joined(Filter(ms[i..r.0], NotSystem))
            && (|r.1| <= |acc| || |r.1| <= SUMMARY_TRUNCATE_BYTES + 1)
            && (r.0 < |ms| ==> NotSystem(ms[r.0]) && |r.1| + |ms[r.0].content| > SUMMARY_TRUNCATE_BYTES)
    decreases |ms| - i
  {
    var (k, text) := AbsorbFrom(ms, i, acc);
    if k == i {
      assert ms[i..i] == [];
      AbsorbStaysMeansBlocked(ms, i, acc);
    } else if IsSystem(ms[i]) {
      AbsorbsPrefix(ms, i + 1, acc);
      FilterStep(ms, i, k);
    } else {
      var piece := ms[i].content + " ";
      AbsorbsPrefix(ms, i + 1, acc + piece);
      FilterStep(ms, i, k);
      var rest := Filter(ms[i + 1..k], NotSystem);
      assert ([ms[i]] + rest)[1..] == rest;
      ConcatAssoc(acc, piece, Joined(rest));
    }
  }

  lemma AbsorbStaysMeansBlocked(ms: seq<Message>, i: nat, acc: string)
    requires i <= |ms| && AbsorbFrom(ms, i, acc).0 == i
    ensures AbsorbFrom(ms, i, acc).1 == acc
    ensures i < |ms| ==> NotSystem(ms[i]) && |acc| + |ms[i].content| > SUMMARY_TRUNCATE_BYTES
  {
  }

  ghost predicate OccursAt(text: string, part: string, i: int) {
    0 <= i <= |text| - |part| && text[i..i + |part|] == part
  }

  ghost predicate Contains(text: string, part: string) {
    exists i :: OccursAt(text, part, i)
  }

  lemma {:induction false} JoinedContains(ms: seq<Message>, m: Message)
    requires m in ms
    ensures Contains(Joined(ms), m.content)
  {
    var rest := Joined(ms[1..]);
    if m == ms[0] {
      assert OccursAt(Joined(ms), m.content, 0);
    } else {
      JoinedContains(ms[1..], m);
      ContainsExtend(ms[0].content + " ", rest, "", m.content);
      assert Joined(ms) + "" == Joined(ms);
    }
  }

  lemma ContainsExtend(before: string, text: string, after: string, part: string)
    requires Contains(text, part)
    ensures Contains(before + text + after, part)
  {
    var i :| OccursAt(text, part, i);
    assert OccursAt(before + text + after, part, |before| + i);
  }

  /** Every non-system message survives verbatim and in order, or its content is inside the
      new summary; the previous summary's text is carried over; user prompts all stay; the
      text is at most max(previous + 1, 1201) bytes; the list never grows. */
  lemma FallbackLosesNothing(ms: seq<Message>)
    requires Fallback(ms) != ms
    ensures Fallback(ms) ==
            Filter(ms, IsPrompt) + [SummaryMessage(FallbackText(ms))] + Filter(ms[Absorbed(ms)..], NotSystem)
    ensures forall i :: 0 <= i < Absorbed(ms) && NotSystem(ms[i]) ==> Contains(FallbackText(ms), ms[i].content)
    ensures FallbackText(ms) == Carried(ms) + Joined(Filter(ms[..Absorbed(ms)], NotSystem))
    ensures |FallbackText(ms)| <= if |Carried(ms)| > 1201 then |Carried(ms)| else 1201
    ensures Absorbed(ms) < |ms| ==> |FallbackText(ms)| + |ms[Absorbed(ms)].content| > 1200
    ensures |Fallback(ms)| <= |ms|
  {
    var k := Absorbed(ms);
    var taken := Filter(ms[..k], NotSystem);
    AbsorbsPrefix(ms, 0, Carried(ms));
    assert ms[0..k] == ms[..k];
    forall i | 0 <= i < k && NotSystem(ms[i]) ensures Contains(FallbackText(ms), ms[i].content) {
      FilterMembers(ms[..k], NotSystem);
      assert ms[i] == ms[..k][i];
      JoinedContains(taken, ms[i]);
      ContainsExtend(Carried(ms), Joined(taken), "", ms[i].content);
      assert Carried(ms) + Joined(taken) + "" == FallbackText(ms);
    }
    FallbackCount(ms, k);
  }

  /** The counting behind "never grows": the summary replaces an old one or an absorbed message. */
  lemma FallbackCount(ms: seq<Message>, k: nat)
    requires k <= |ms|
    requires Carried(ms) != "" || Filter(ms[..k], NotSystem) != []
    ensures |Filter(ms, IsPrompt)| + 1 + |Filter(ms[k..], NotSystem)| <= |ms|
  {
    ThreeWayCount(ms);
    FilterAppend(ms[..k], ms[k..], NotSystem);
    assert ms == ms[..k] + ms[k..];
    if Carried(ms) != "" {
      CarriedMeansSummary(ms);
    }
  }

  lemma {:induction false} ThreeWayCount(ms: seq<Message>)
    ensures |Filter(ms, IsPrompt)| + |Filter(ms, IsSummary)| + |Filter(ms, NotSystem)| == |ms|
  {
    if ms != [] {
      ThreeWayCount(ms[..|ms| - 1]);
    }
  }

  lemma {:induction false} CarriedMeansSummary(ms: seq<Message>)
    ensures Carried(ms) != "" <==> Filter(ms, IsSummary) != []
  {
    if ms != [] {
      CarriedMeansSummary(ms[..|ms| - 1]);
    }
  }

  // ---------- what is committed is stored unchanged ----------

  ghost predicate AllStorable(ms: seq<Message>) {
    forall m :: m in ms ==> Storable(m)
  }

  lemma FilterStorable(ms: seq<Message>, p: Message -> bool)
    requires AllStorable(ms)
    ensures AllStorable(Filter(ms, p))
  {
    FilterMembers(ms, p);
  }

  lemma SummaryStorable(text: string)
    requires '\0' !in text
    ensures Storable(SummaryMessage(text))
  {
    StorableMeansNulFree(SummaryMessage(text));
  }

  lemma {:induction false} CarriedNulFree(ms: seq<Message>)
    requires AllStorable(ms)
    ensures '\0' !in Carried(ms)
  {
    if ms != [] {
      var last := ms[|ms| - 1];
      assert last in ms;
      StorableMeansNulFree(last);
      CarriedNulFree(ms[..|ms| - 1]);
    }
  }

  lemma {:induction false} JoinedNulFree(ms: seq<Message>)
    requires AllStorable(ms)
    ensures '\0' !in Joined(ms)
  {
    if ms != [] {
      assert ms[0] in ms;
      StorableMeansNulFree(ms[0]);
      JoinedNulFree(ms[1..]);
    }
  }

  lemma FallbackTextNulFree(ms: seq<Message>)
    requires AllStorable(ms)
    ensures '\0' !in FallbackText(ms)
  {
    AbsorbsPrefix(ms, 0, Carried(ms));
    CarriedNulFree(ms);
    assert ms[0..Absorbed(ms)] == ms[..Absorbed(ms)];
    FilterStorable(ms[..Absorbed(ms)], NotSystem);
    JoinedNulFree(Filter(ms[..Absorbed(ms)], NotSystem));
  }

  lemma FallbackStorable(ms: seq<Message>)
    requires AllStorable(ms)
    ensures AllStorable(Fallback(ms))
  {
    FallbackTextNulFree(ms);
    SummaryStorable(FallbackText(ms));
    FilterStorable(ms, IsPrompt);
    FilterStorable(ms[Absorbed(ms)..], NotSystem);
  }

  /** A fallback commit of loaded messages is stored as it is. */
  lemma FallbackIsStored(ms: seq<Message>, n: nat)
    requires Stored(ms) == ms
    ensures Stored(FallbackCommit(ms, n)) == FallbackCommit(ms, n)
  {
    StoredIsIdentity(ms);
    if |ms| > n {
      FallbackStorable(ms[..n]);
    } else {
      FallbackStorable(ms);
    }
    StoredIsIdentity(FallbackCommit(ms, n));
  }

  /** So is a success commit, unless the model's summary holds a NUL byte. */
  lemma SuccessIsStored(ms: seq<Message>, n: nat, summary: string)
    requires Stored(ms) == ms && '\0' !in summary
    ensures Stored(SuccessCommit(ms, n, summary)) == SuccessCommit(ms, n, summary)
  {
    StoredIsIdentity(ms);
    if n <= |ms| {
      SummaryStorable(summary);
      FilterStorable(ms[..n], IsPrompt);
      FilterStorable(ms[KeepStart(n)..n], NotSystem);
    }
    StoredIsIdentity(SuccessCommit(ms, n, summary));
  }

  // ---------- what the manager does to the table ----------

  /** The message table and its next row id. */
  datatype Db = Db(rows: seq<Row>, nextId: nat)

  function Appended(db: Db, key: string, m: Message, now: int): Db {
    Db(db.rows + [Row(db.nextId, key, m, now)], db.nextId + 1)
  }

  function Saved(db: Db, key: string, ms: seq<Message>, now: int): Db {
    Db(AfterSave(db.rows, db.nextId, key, ms, now), db.nextId + |Batch(key, ms, now, db.nextId)|)
  }

  /** The success path returns without a save on an empty summary or a shrunken list. */
  function Summarised(db: Db, key: string, n: nat, summary: string, now: int): Db {
    var loaded := Query(db.rows, key);
    if summary == "" || |loaded| < n then db else Saved(db, key, SuccessCommit(loaded, n, summary), now)
  }

  function FellBack(db: Db, key: string, n: nat, now: int): Db {
    Saved(db, key, FallbackCommit(Query(db.rows, key), n), now)
  }

  // ---------- the manager object ----------

  method MeasureTotal(messages: seq<Message>) returns (total: nat)
    ensures total == TotalBytes(messages)
  {
    total := 0;
    for i := 0 to |messages|
      invariant total == TotalBytes(messages[..i])
    {
      assert messages[..i + 1][..i] == messages[..i];
      total := total + |messages[i].content|;
    }
    assert messages[..|messages|] == messages;
  }

  /** Backward search for the most recent summary. */
  method FindCarried(messages: seq<Message>) returns (acc: string)
    ensures acc == Carried(messages)
  {
    var j := |messages|;
    assert messages[..j] == messages;
    while j > 0
      invariant 0 <= j <= |messages|
      invariant Carried(messages) == Carried(messages[..j])
    {
      j := j - 1;
      assert messages[..j + 1][..j] == messages[..j];
      if IsSummary(messages[j]) {
        return messages[j].content[|SUMMARY_PREFIX|..] + "\n";
      }
    }
    acc := "";
  }

  /** The accumulation loop of the fallback, starting from the carried text. */
  method Absorb(messages: seq<Message>, carried: string) returns (idx: nat, acc: string)
    ensures (idx, acc) == AbsorbFrom(messages, 0, carried)
  {
    idx, acc := 0, carried;
    while idx < |messages|
      invariant 0 <= idx <= |messages|
      invariant AbsorbFrom(messages, idx, acc) == AbsorbFrom(messages, 0, carried)
    {
      if !IsSystem(messages[idx]) {
        if |acc| + |messages[idx].content| > SUMMARY_TRUNCATE_BYTES {
          break;
        }
        acc := acc + (messages[idx].content + " ");
      }
      idx := idx + 1;
    }
  }

  method CollectPrompts(messages: seq<Message>, end: nat) returns (kept: seq<Message>)
    requires end <= |messages|
    ensures kept == Filter(messages[..end], IsPrompt)
  {
    kept := [];
    for i := 0 to end
      invariant kept == Filter(messages[..i], IsPrompt)
    {
      FilterPush(messages[..i], messages[i], IsPrompt);
      assert messages[..i + 1] == messages[..i] + [messages[i]];
      if messages[i].role == "system" && !IsSummary(messages[i]) {
        kept := kept + [messages[i]];
      }
    }
  }

  method CollectNonSystem(messages: seq<Message>, start: nat, end: nat) returns (kept: seq<Message>)
    requires start <= end <= |messages|
    ensures kept == Filter(messages[start..end], NotSystem)
  {
    kept := [];
    for i := start to end
      invariant kept == Filter(messages[start..i], NotSystem)
    {
      FilterPush(messages[start..i], messages[i], NotSystem);
      assert messages[start..i + 1] == messages[start..i] + [messages[i]];
      if messages[i].role != "system" {
        kept := kept + [messages[i]];
      }
    }
  }

  /** summarize_if_needed, on an in-memory vector. */
  method SummarizeIfNeeded(messages: seq<Message>) returns (result: seq<Message>)
    ensures result == Fallback(messages)
  {
    var total := MeasureTotal(messages);
    if total <= MAX_TOTAL_BYTES {
      return messages;
    }
    var carried := FindCarried(messages);
    var idx, acc := Absorb(messages, carried);
    if acc == "" {
      return messages;
    }
    var prompts := CollectPrompts(messages, |messages|);
    var rest := CollectNonSystem(messages, idx, |messages|);
    assert messages[..|messages|] == messages && messages[idx..|messages|] == messages[idx..];
    result := prompts + [SummaryMessage(acc)] + rest;
  }

  /** The vector a successful summarisation builds from the reloaded messages. */
  method BuildReduced(messages: seq<Message>, before: nat, summary: string) returns (reduced: seq<Message>)
    requires before <= |messages|
    ensures reduced == Reduced(messages, before, summary)
  {
    var prompts := CollectPrompts(messages, before);
    var start := if before > KEEP_LAST then before - KEEP_LAST else 0;
    var recent := CollectNonSystem(messages, start, before);
    reduced := prompts + [SummaryMessage(summary)] + recent + messages[before..];
  }

  class ChatContextManager {
    const backend: SqliteBackend

    constructor (backend: SqliteBackend)
      ensures this.backend == backend
    {
      this.backend := backend;
    }

    ghost function Contents(): Db
      reads backend
    {
      Db(backend.rows, backend.nextId)
    }

    /** What the four entry points share: the lock, and a single-row append. */
    method Append(convo: string, m: Message, now: int)
      requires backend.Valid() && ValidRole(m.role)
      modifies backend
      ensures backend.Valid()
      ensures NoRowAhead(old(backend.rows), CText(convo), now) ==>
                backend.LoadOf(convo) == old(backend.LoadOf(convo)) + [Kept(m)]
      ensures Contents() == Appended(old(Contents()), CText(convo), Kept(m), now)
      ensures Kept(m).role == m.role
      // the call ConversationRows takes an append for
      ensures Storable(m) && backend.sanitize(m.nick) == m.nick && backend.sanitize(m.content) == m.content ==>
                Contents() == Appended(old(Contents()), CText(convo), m, now)
      ensures forall key :: key != CText(convo) ==> Query(backend.rows, key) == old(Query(backend.rows, key))
    {
      ValidRoleSurvives(m.role);
      backend.AppendMessage(convo, m, now);
    }

    /** m as it is stored. */
    function Kept(m: Message): Message {
      Message(CText(m.role), CText(backend.sanitize(m.nick)), CText(backend.sanitize(m.content)),
              CText(m.toolCallId), CText(m.toolCallsJson))
    }

    method AppendUser(convo: string, nick: string, content: string, now: int)
      requires backend.Valid()
      modifies backend
      ensures backend.Valid()
      ensures var m := Message("user", CText(backend.sanitize(nick)), CText(backend.sanitize(content)), "", "");
              Contents() == Appended(old(Contents()), CText(convo), m, now)
    {
      Append(convo, Message("user", nick, content, "", ""), now);
    }

    method AppendAssistant(convo: string, content: string, now: int)
      requires backend.Valid()
      modifies backend
      ensures backend.Valid()
      ensures var m := Message("assistant", CText(backend.sanitize("")), CText(backend.sanitize(content)), "", "");
              Contents() == Appended(old(Contents()), CText(convo), m, now)
    {
      Append(convo, Message("assistant", "", content, "", ""), now);
    }

    method AppendTool(convo: string, toolCallId: string, content: string, now: int)
      requires backend.Valid()
      modifies backend
      ensures backend.Valid()
      ensures var m := Message("tool", CText(backend.sanitize("")), CText(backend.sanitize(content)),
                               CText(toolCallId), "");
              Contents() == Appended(old(Contents()), CText(convo), m, now)
    {
      Append(convo, Message("tool", "", content, toolCallId, ""), now);
    }

    method AppendAssistantWithToolCalls(convo: string, content: string, toolCallsJson: string, now: int)
      requires backend.Valid()
      modifies backend
      ensures backend.Valid()
      ensures var m := Message("assistant", CText(backend.sanitize("")), CText(backend.sanitize(content)), "",
                               CText(toolCallsJson));
              Contents() == Appended(old(Contents()), CText(convo), m, now)
    {
      Append(convo, Message("assistant", "", content, "", toolCallsJson), now);
    }

    method Clear(convo: string)
      requires backend.Valid()
      modifies backend
      ensures backend.Valid() && backend.LoadOf(convo) == []
      ensures Contents() == Db(Without(old(backend.rows), CText(convo)), old(backend.nextId))
      ensures forall key :: key != CText(convo) ==> Query(backend.rows, key) == old(Query(backend.rows, key))
    {
      backend.ClearMessages(convo);
    }

    method GetMessages(convo: string) returns (msgs: seq<Message>)
      ensures msgs == backend.LoadOf(convo)
    {
      msgs := backend.Load(convo);
    }

    /** First critical section: remember the message count, if the total is large enough. */
    method Snapshot(convo: string) returns (before: Option<nat>)
      ensures before == if TotalBytes(backend.LoadOf(convo)) <= 65536 then None
                        else Some(|backend.LoadOf(convo)|)
    {
      var messages := backend.Load(convo);
      var total := MeasureTotal(messages);
      before := if total <= MAX_TOTAL_BYTES then None else Some(|messages|);
    }

    /** Second critical section, when the model answered with `summary`. */
    method CommitSummary(convo: string, before: nat, summary: string, now: int)
      requires backend.Valid()
      modifies backend
      ensures backend.Valid()
      ensures backend.LoadOf(convo) == Stored(SuccessCommit(old(backend.LoadOf(convo)), before, summary))
      ensures Contents() == Summarised(old(Contents()), CText(convo), before, summary, now)
      ensures '\0' !in summary ==> backend.LoadOf(convo) == SuccessCommit(old(backend.LoadOf(convo)), before, summary)
      ensures forall key :: key != CText(convo) ==> Query(backend.rows, key) == old(Query(backend.rows, key))
    {
      QueryIsStorable(backend.rows, backend.nextId, CText(convo));
      if '\0' !in summary {
        SuccessIsStored(backend.LoadOf(convo), before, summary);
      }
      if summary == "" {
        return;
      }
      var messages := backend.Load(convo);
      if |messages| < before {
        return;
      }
      var reduced := BuildReduced(messages, before, summary);
      backend.Save(convo, reduced, now);
    }

    /** Second critical section, when the model call threw. */
    method CommitFallback(convo: string, before: nat, now: int)
      requires backend.Valid()
      modifies backend
      ensures backend.Valid()
      ensures backend.LoadOf(convo) == FallbackCommit(old(backend.LoadOf(convo)), before)
      ensures Contents() == FellBack(old(Contents()), CText(convo), before, now)
      ensures forall key :: key != CText(convo) ==> Query(backend.rows, key) == old(Query(backend.rows, key))
    {
      QueryIsStorable(backend.rows, backend.nextId, CText(convo));
      FallbackIsStored(backend.LoadOf(convo), before);
      var messages := backend.Load(convo);
      if |messages| > before {
        var original := SummarizeIfNeeded(messages[..before]);
        backend.Save(convo, original + messages[before..], now);
      } else {
        var whole := SummarizeIfNeeded(messages);
        backend.Save(convo, whole, now);
      }
    }
  }
}
