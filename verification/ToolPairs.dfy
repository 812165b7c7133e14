/** Tool calls and their results through a summarisation: when a commit keeps a "tool" message
    whose calling assistant message it dropped. */
module ToolPairs {
  import opened Options
  import opened Sequences
  import opened ChatMessages
  import opened ChatContext
  import opened Conversation

  /** The call ids a tool_calls text lists. */
  type CallIds = string -> set<string>

  predicate Calls(m: Message, id: string, ids: CallIds) {
    m.role == "assistant" && id in ids(m.toolCallsJson)
  }

  predicate HasCall(ms: seq<Message>, id: string, ids: CallIds) {
    exists i :: 0 <= i < |ms| && Calls(ms[i], id, ids)
  }

  /** Every tool result comes after an assistant message that made the call. */
  predicate Paired(ms: seq<Message>, ids: CallIds) {
    forall j :: 0 <= j < |ms| && ms[j].role == "tool" ==> HasCall(ms[..j], ms[j].toolCallId, ids)
  }

  lemma HasCallConcat(a: seq<Message>, b: seq<Message>, id: string, ids: CallIds)
    ensures HasCall(a + b, id, ids) <==> HasCall(a, id, ids) || HasCall(b, id, ids)
  {
    if i :| 0 <= i < |a| && Calls(a[i], id, ids) {
      assert Calls((a + b)[i], id, ids);
    }
    if i :| 0 <= i < |b| && Calls(b[i], id, ids) {
      assert Calls((a + b)[|a| + i], id, ids);
    }
    if i :| 0 <= i < |a + b| && Calls((a + b)[i], id, ids) {
      assert if i < |a| then Calls(a[i], id, ids) else Calls(b[i - |a|], id, ids);
    }
  }

  lemma HasCallOne(m: Message, id: string, ids: CallIds)
    ensures HasCall([m], id, ids) <==> Calls(m, id, ids)
  {
    assert Calls(m, id, ids) ==> Calls([m][0], id, ids);
  }

  lemma HasCallPush(ms: seq<Message>, m: Message, id: string, ids: CallIds)
    ensures HasCall(ms + [m], id, ids) <==> HasCall(ms, id, ids) || Calls(m, id, ids)
  {
    HasCallConcat(ms, [m], id, ids);
    HasCallOne(m, id, ids);
  }

  lemma PairedPush(ms: seq<Message>, m: Message, ids: CallIds)
    ensures Paired(ms + [m], ids) <==> Paired(ms, ids) && (m.role == "tool" ==> HasCall(ms, m.toolCallId, ids))
  {
    var all := ms + [m];
    assert forall j :: 0 <= j < |ms| ==> all[j] == ms[j] && all[..j] == ms[..j];
    assert all[|ms|] == m && all[..|ms|] == ms;
  }

  /** System messages neither call tools nor answer calls. */
  lemma {:induction false} FilterKeepsCalls(ms: seq<Message>, id: string, ids: CallIds)
    ensures HasCall(Filter(ms, NotSystem), id, ids) <==> HasCall(ms, id, ids)
    decreases |ms|
  {
    if ms != [] {
      var init, last := ms[..|ms| - 1], ms[|ms| - 1];
      assert ms == init + [last];
      FilterKeepsCalls(init, id, ids);
      FilterPush(init, last, NotSystem);
      HasCallPush(init, last, id, ids);
      HasCallPush(Filter(init, NotSystem), last, id, ids);
    }
  }

  lemma {:induction false} FilterKeepsPairs(ms: seq<Message>, ids: CallIds)
    ensures Paired(Filter(ms, NotSystem), ids) <==> Paired(ms, ids)
    decreases |ms|
  {
    if ms != [] {
      var init, last := ms[..|ms| - 1], ms[|ms| - 1];
      assert ms == init + [last];
      FilterKeepsPairs(init, ids);
      FilterPush(init, last, NotSystem);
      PairedPush(init, last, ids);
      PairedPush(Filter(init, NotSystem), last, ids);
      FilterKeepsCalls(init, last.toolCallId, ids);
    }
  }

  /** A tool result at or after the cut whose calls all stand before it. */
  predicate CutsCall(ms: seq<Message>, from: nat, ids: CallIds)
    requires from <= |ms|
  {
    exists j :: from <= j < |ms| && ms[j].role == "tool" && !HasCall(ms[from..j], ms[j].toolCallId, ids)
  }

  lemma CutsCallIff(ms: seq<Message>, from: nat, ids: CallIds)
    requires from <= |ms|
    ensures CutsCall(ms, from, ids) <==> !Paired(ms[from..], ids)
  {
    var tail := ms[from..];
    forall j | from <= j < |ms| ensures tail[j - from] == ms[j] && tail[..j - from] == ms[from..j] {
    }
    if CutsCall(ms, from, ids) {
      var j :| from <= j < |ms| && ms[j].role == "tool" && !HasCall(ms[from..j], ms[j].toolCallId, ids);
      assert tail[j - from].role == "tool" && !HasCall(tail[..j - from], tail[j - from].toolCallId, ids);
    }
    if !Paired(tail, ids) {
      var i :| 0 <= i < |tail| && tail[i].role == "tool" && !HasCall(tail[..i], tail[i].toolCallId, ids);
      assert ms[from + i].role == "tool" && !HasCall(ms[from..from + i], ms[from + i].toolCallId, ids);
    }
  }

  /** A commit that folds a range keeps results with their calls exactly when no result at or
      after the cut answers a call made only before it. */
  lemma FoldKeepsPairsIff(ms: seq<Message>, r: seq<Message>, k: nat, text: string, from: nat, ids: CallIds)
    requires CommitsTo(ms, r, k, text, from)
    ensures Paired(r, ids) <==> !CutsCall(ms, from, ids)
  {
    FoldFacts(ms, r, k, text, from);
    FilterKeepsPairs(r, ids);
    FilterKeepsPairs(ms[from..], ids);
    CutsCallIff(ms, from, ids);
  }

  /** For the success commit the cut is ten messages before the end of the snapshot, */
  lemma SuccessKeepsPairsIff(ms: seq<Message>, n: nat, summary: string, ids: CallIds)
    requires summary != "" && n <= |ms|
    ensures Paired(SuccessCommit(ms, n, summary), ids) <==> !CutsCall(ms, KeepStart(n), ids)
  {
    assert ms[KeepStart(n)..n] == ms[..n][KeepStart(n)..];
    FoldKeepsPairsIff(ms, SuccessCommit(ms, n, summary), n, summary, KeepStart(n), ids);
  }

  /** and for the fallback it is where the accumulation stopped. */
  lemma FallbackKeepsPairsIff(ms: seq<Message>, ids: CallIds)
    requires Fallback(ms) != ms
    ensures Paired(Fallback(ms), ids) <==> !CutsCall(ms, Absorbed(ms), ids)
  {
    var k := Absorbed(ms);
    assert ms[..|ms|] == ms && ms[|ms|..] == [];
    assert Fallback(ms) == Folded(ms[..|ms|], FallbackText(ms), k) + ms[|ms|..];
    FoldKeepsPairsIff(ms, Fallback(ms), |ms|, FallbackText(ms), k, ids);
  }

  // ---------- a conversation that loses a call ----------

  function User(text: string): Message {
    Message("user", "", text, "", "")
  }

  /** A call, its result, and nine messages of a user, of which the first is long. */
  function LongTalk(calls: string, id: string, big: string): seq<Message> {
    [Message("assistant", "", "", "", calls), Message("tool", "", "done", id, ""), User(big)] + seq(8, _ => User("hm"))
  }

  lemma LongTalkIsPaired(calls: string, id: string, big: string, ids: CallIds)
    requires id in ids(calls)
    ensures Paired(LongTalk(calls, id, big), ids)
  {
    var ms := LongTalk(calls, id, big);
    assert Calls(ms[..1][0], id, ids);
  }

  /** A paired conversation of eleven messages, long enough to be summarised: the summary takes
      the call and leaves its result. */
  lemma SummaryCanSplitPair(calls: string, id: string, big: string, summary: string, ids: CallIds)
    requires id in ids(calls) && |big| > MAX_TOTAL_BYTES && summary != ""
    ensures var ms := LongTalk(calls, id, big);
            Paired(ms, ids) && !Paired(Run(State(ms, None), [Begin, Finish(summary)]).store, ids)
  {
    var ms := LongTalk(calls, id, big);
    LongTalkIsPaired(calls, id, big, ids);
    TotalAtLeast(ms, 2);
    assert [Begin, Finish(summary)][..1] == [Begin] && [Begin][..0] == [];
    assert Run(State(ms, None), [Begin]) == State(ms, Some(11));
    assert ms[1].role == "tool" && !HasCall(ms[1..1], ms[1].toolCallId, ids);
    SuccessKeepsPairsIff(ms, 11, summary, ids);
  }
}
