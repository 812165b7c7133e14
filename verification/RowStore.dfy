/** The `messages` table of the SQLite chat backend: rows stamped with a millisecond
    clock and numbered by AUTOINCREMENT, read back with ORDER BY created_at, id. */
module RowStore {
  import opened ChatMessages

  // ---------- text and CHECK rules ----------

  /** A string bound with length -1 stops at its first NUL byte. */
  function CText(s: string): string {
    if s == "" || s[0] == '\0' then "" else [s[0]] + CText(s[1..])
  }

  lemma {:induction false} CTextIsNulFreePrefix(s: string)
    ensures CText(s) <= s && '\0' !in CText(s)
    ensures CText(s) == s <==> '\0' !in s
    ensures CText(s) == s || s[|CText(s)|] == '\0'
  {
    if s != "" && s[0] != '\0' {
      CTextIsNulFreePrefix(s[1..]);
      assert s == [s[0]] + s[1..];
    }
  }

  predicate ValidRole(role: string) {
    role == "user" || role == "assistant" || role == "system" || role == "tool"
  }

  function CMessage(m: Message): Message {
    Message(CText(m.role), CText(m.nick), CText(m.content), CText(m.toolCallId), CText(m.toolCallsJson))
  }

  /** A message the table keeps unchanged. */
  predicate Storable(m: Message) {
    ValidRole(m.role) && CMessage(m) == m
  }

  lemma FieldsKept(m: Message)
    ensures CMessage(m) == m <==>
      && CText(m.role) == m.role && CText(m.nick) == m.nick && CText(m.content) == m.content
      && CText(m.toolCallId) == m.toolCallId && CText(m.toolCallsJson) == m.toolCallsJson
  {
  }

  lemma ValidRoleIsNulFree(role: string)
    requires ValidRole(role)
    ensures '\0' !in role
  {
  }

  lemma StorableMeansNulFree(m: Message)
    ensures Storable(m) <==>
      && (m.role == "user" || m.role == "assistant" || m.role == "system" || m.role == "tool")
      && '\0' !in m.nick && '\0' !in m.content && '\0' !in m.toolCallId && '\0' !in m.toolCallsJson
  {
    FieldsKept(m);
    CTextIsNulFreePrefix(m.role);
    CTextIsNulFreePrefix(m.nick);
    CTextIsNulFreePrefix(m.content);
    CTextIsNulFreePrefix(m.toolCallId);
    CTextIsNulFreePrefix(m.toolCallsJson);
    if ValidRole(m.role) {
      ValidRoleIsNulFree(m.role);
    }
  }

  /** What a batch of messages looks like once written and read back: texts cut at
      NUL, messages whose role fails the CHECK constraint silently missing. */
  function Stored(ms: seq<Message>): (r: seq<Message>)
    ensures |r| <= |ms|
  {
    if ms == [] then [] else
      var m := CMessage(ms[|ms| - 1]);
      Stored(ms[..|ms| - 1]) + (if ValidRole(m.role) then [m] else [])
  }

  /** Message by message: each is kept with every text cut at its first NUL byte, if the role that
      leaves is one of the four, and dropped otherwise. */
  lemma {:induction false} StoredPointwise(a: seq<Message>, b: seq<Message>)
    ensures Stored(a + b) == Stored(a) + Stored(b)
    ensures |b| == 1 ==>
              var role := CText(b[0].role);
              Stored(b) ==
                if role == "user" || role == "assistant" || role == "system" || role == "tool" then
                  [Message(role, CText(b[0].nick), CText(b[0].content), CText(b[0].toolCallId),
                           CText(b[0].toolCallsJson))]
                else []
    decreases |b|
  {
    if b == [] {
      assert a + b == a;
    } else {
      var init, last := b[..|b| - 1], b[|b| - 1];
      assert (a + b)[..|a + b| - 1] == a + init;
      StoredPointwise(a, init);
    }
  }

  lemma {:induction false} StoredIsIdentity(ms: seq<Message>)
    ensures Stored(ms) == ms <==> forall m :: m in ms ==> Storable(m)
  {
    if ms != [] {
      var init, last := ms[..|ms| - 1], ms[|ms| - 1];
      StoredIsIdentity(init);
      assert ms == init + [last];
      assert last in ms;
      if Stored(ms) == ms {
        assert |Stored(init)| == |init|;
        assert Stored(ms)[..|init|] == Stored(init);
        assert Stored(ms)[|init|] == CMessage(last);
        assert CMessage(last) == last;
      }
    }
  }

  // ---------- rows and queries ----------

  datatype Row = Row(id: nat, convo: string, msg: Message, stamp: int)

  predicate Before(a: Row, b: Row) {
    a.stamp < b.stamp || (a.stamp == b.stamp && a.id < b.id)
  }

  ghost predicate Ordered(rs: seq<Row>) {
    forall i, j :: 0 <= i < j < |rs| ==> Before(rs[i], rs[j])
  }

  ghost predicate IdsIncrease(rs: seq<Row>) {
    forall i, j :: 0 <= i < j < |rs| ==> rs[i].id < rs[j].id
  }

  ghost predicate IdsBelow(rs: seq<Row>, n: nat) {
    forall i :: 0 <= i < |rs| ==> rs[i].id < n
  }

  /** SELECT ... WHERE convo_id = key, in id order. */
  function Select(rows: seq<Row>, key: string): seq<Row> {
    if rows == [] then [] else
      var last := rows[|rows| - 1];
      Select(rows[..|rows| - 1], key) + (if last.convo == key then [last] else [])
  }

  /** DELETE ... WHERE convo_id = key. */
  function Without(rows: seq<Row>, key: string): seq<Row> {
    if rows == [] then [] else
      var last := rows[|rows| - 1];
      Without(rows[..|rows| - 1], key) + (if last.convo != key then [last] else [])
  }

  function Insert(sorted: seq<Row>, r: Row): seq<Row> {
    if sorted == [] || !Before(r, sorted[|sorted| - 1]) then sorted + [r]
    else Insert(sorted[..|sorted| - 1], r) + [sorted[|sorted| - 1]]
  }

  function SortRows(rs: seq<Row>): seq<Row> {
    if rs == [] then [] else Insert(SortRows(rs[..|rs| - 1]), rs[|rs| - 1])
  }

  function Messages(rs: seq<Row>): (ms: seq<Message>)
    ensures |ms| == |rs|
    ensures forall i :: 0 <= i < |rs| ==> ms[i] == rs[i].msg
  {
    seq(|rs|, i requires 0 <= i < |rs| => rs[i].msg)
  }

  /** SELECT ... WHERE convo_id = key ORDER BY created_at, id. */
  function Query(rows: seq<Row>, key: string): seq<Message> {
    Messages(SortRows(Select(rows, key)))
  }

  // ---------- sorting facts ----------

  /** Where a fresh row lands: after every row stamped no later than it. */
  function AtMost(rs: seq<Row>, stamp: int): (k: nat)
    ensures k <= |rs|
  {
    if rs == [] then 0 else AtMost(rs[..|rs| - 1], stamp) + (if rs[|rs| - 1].stamp <= stamp then 1 else 0)
  }

  lemma {:induction false} AtMostSplits(s: seq<Row>, stamp: int)
    requires Ordered(s)
    ensures forall i :: 0 <= i < |s| ==> (s[i].stamp <= stamp <==> i < AtMost(s, stamp))
  {
    if s != [] {
      var s' := s[..|s| - 1];
      AtMostSplits(s', stamp);
      assert forall i :: 0 <= i < |s'| ==> Before(s[i], s[|s'|]);
    }
  }

  lemma {:induction false} InsertPosition(s: seq<Row>, r: Row)
    requires Ordered(s) && IdsBelow(s, r.id)
    ensures var k := AtMost(s, r.stamp); Insert(s, r) == s[..k] + [r] + s[k..]
  {
    AtMostSplits(s, r.stamp);
    if s != [] && Before(r, s[|s| - 1]) {
      var s', k := s[..|s| - 1], AtMost(s, r.stamp);
      assert s[|s'|].stamp > r.stamp && k <= |s'|;
      InsertPosition(s', r);
      assert s == s' + [s[|s| - 1]] && s[..k] == s'[..k];
    }
  }

  lemma InsertOrdered(s: seq<Row>, r: Row)
    requires Ordered(s) && IdsBelow(s, r.id)
    ensures Ordered(Insert(s, r))
  {
    AtMostSplits(s, r.stamp);
    InsertPosition(s, r);
  }

  lemma {:induction false} InsertMultiset(s: seq<Row>, r: Row)
    ensures multiset(Insert(s, r)) == multiset(s) + multiset{r}
  {
    if s == [] || !Before(r, s[|s| - 1]) {
    } else {
      InsertMultiset(s[..|s| - 1], r);
      assert s == s[..|s| - 1] + [s[|s| - 1]];
    }
  }

  lemma SameMembers(a: seq<Row>, b: seq<Row>)
    requires multiset(a) == multiset(b)
    ensures |a| == |b| && forall x :: x in a <==> x in b
  {
    assert |multiset(a)| == |a| && |multiset(b)| == |b|;
    assert forall x :: x in a <==> x in multiset(a);
    assert forall x :: x in b <==> x in multiset(b);
  }

  lemma IdsBelowPermuted(a: seq<Row>, b: seq<Row>, n: nat)
    requires multiset(a) == multiset(b) && IdsBelow(b, n)
    ensures IdsBelow(a, n)
  {
    forall i | 0 <= i < |a| ensures a[i].id < n {
      assert a[i] in multiset(b);
    }
  }

  lemma MultisetPush(s: seq<Row>, r: Row)
    ensures multiset(s + [r]) == multiset(s) + multiset{r}
  {
  }

  lemma {:induction false} SortRowsPermutes(rs: seq<Row>)
    ensures multiset(SortRows(rs)) == multiset(rs)
  {
    if rs != [] {
      var init, last := rs[..|rs| - 1], rs[|rs| - 1];
      assert rs == init + [last];
      MultisetPush(init, last);
      SortRowsPermutes(init);
      InsertMultiset(SortRows(init), last);
      assert SortRows(rs) == Insert(SortRows(init), last);
    }
  }

  lemma {:induction false} SortRowsOrders(rs: seq<Row>)
    requires IdsIncrease(rs)
    ensures Ordered(SortRows(rs))
  {
    if rs != [] {
      var init, last := rs[..|rs| - 1], rs[|rs| - 1];
      SortRowsOrders(init);
      SortRowsPermutes(init);
      IdsBelowPermuted(SortRows(init), init, last.id);
      InsertOrdered(SortRows(init), last);
    }
  }

  /** ORDER BY created_at, id: the same rows, in strictly increasing (stamp, id) order. */
  lemma SortRowsSorts(rs: seq<Row>)
    requires IdsIncrease(rs)
    ensures multiset(SortRows(rs)) == multiset(rs)
    ensures Ordered(SortRows(rs))
  {
    SortRowsPermutes(rs);
    SortRowsOrders(rs);
  }

  lemma InsertLast(s: seq<Row>, r: Row)
    requires Ordered(s + [r])
    ensures Insert(s, r) == s + [r] && Ordered(s)
  {
    if s != [] {
      assert Before((s + [r])[|s| - 1], (s + [r])[|s|]);
    }
    forall i, j | 0 <= i < j < |s| ensures Before(s[i], s[j]) {
      assert Before((s + [r])[i], (s + [r])[j]);
    }
  }

  lemma {:induction false} SortOrderedIsIdentity(rs: seq<Row>)
    requires Ordered(rs)
    ensures SortRows(rs) == rs
    decreases |rs|
  {
    if rs != [] {
      var init, last := rs[..|rs| - 1], rs[|rs| - 1];
      assert rs == init + [last];
      InsertLast(init, last);
      SortOrderedIsIdentity(init);
    }
  }

  // ---------- inserting a batch and appending ----------

  /** The rows one save transaction inserts: consecutive ids, stamps now, now + 1, ... by
      position in the batch, skipping messages that fail the role CHECK. */
  function Batch(key: string, ms: seq<Message>, now: int, firstId: nat): (rs: seq<Row>)
  {
    if ms == [] then [] else
      var init := Batch(key, ms[..|ms| - 1], now, firstId);
      var m := CMessage(ms[|ms| - 1]);
      if ValidRole(m.role) then init + [Row(firstId + |init|, key, m, now + |ms| - 1)] else init
  }

  lemma BatchExtend(key: string, ms: seq<Message>, i: nat, now: int, firstId: nat)
    requires i < |ms|
    ensures var b := Batch(key, ms[..i], now, firstId);
            Batch(key, ms[..i + 1], now, firstId)
            == if ValidRole(CMessage(ms[i]).role) then b + [Row(firstId + |b|, key, CMessage(ms[i]), now + i)] else b
  {
    assert ms[..i + 1][..i] == ms[..i];
  }

  lemma {:induction false} BatchRange(key: string, ms: seq<Message>, now: int, firstId: nat)
    ensures forall i :: 0 <= i < |Batch(key, ms, now, firstId)| ==>
              var r := Batch(key, ms, now, firstId)[i];
              r.convo == key && now <= r.stamp < now + |ms| && r.id == firstId + i
  {
    if ms != [] {
      var init := ms[..|ms| - 1];
      BatchRange(key, init, now, firstId);
      BatchExtend(key, ms, |init|, now, firstId);
      assert ms[..|ms|] == ms;
    }
  }

  lemma {:induction false} BatchOrdered(key: string, ms: seq<Message>, now: int, firstId: nat)
    ensures Ordered(Batch(key, ms, now, firstId))
  {
    if ms != [] {
      var init := ms[..|ms| - 1];
      var b := Batch(key, init, now, firstId);
      BatchRange(key, init, now, firstId);
      BatchOrdered(key, init, now, firstId);
      BatchExtend(key, ms, |init|, now, firstId);
      assert ms[..|ms|] == ms;
      var r := Row(firstId + |b|, key, CMessage(ms[|init|]), now + |init|);
      assert Ordered(b + [r]) by {
        forall i, j | 0 <= i < j < |b + [r]| ensures Before((b + [r])[i], (b + [r])[j]) {
        }
      }
    }
  }

  lemma {:induction false} BatchMessages(key: string, ms: seq<Message>, now: int, firstId: nat)
    ensures Messages(Batch(key, ms, now, firstId)) == Stored(ms)
  {
    if ms != [] {
      BatchMessages(key, ms[..|ms| - 1], now, firstId);
    }
  }

  lemma {:induction false} StoredStorable(ms: seq<Message>)
    ensures forall i :: 0 <= i < |Stored(ms)| ==> Storable(Stored(ms)[i])
  {
    if ms != [] {
      StoredStorable(ms[..|ms| - 1]);
      CMessageIdempotent(ms[|ms| - 1]);
    }
  }

  lemma CMessageIdempotent(m: Message)
    ensures CMessage(CMessage(m)) == CMessage(m)
  {
    CTextIdempotent(m.role);
    CTextIdempotent(m.nick);
    CTextIdempotent(m.content);
    CTextIdempotent(m.toolCallId);
    CTextIdempotent(m.toolCallsJson);
  }

  lemma CTextIdempotent(s: string)
    ensures CText(CText(s)) == CText(s)
  {
    CTextIsNulFreePrefix(s);
    CTextIsNulFreePrefix(CText(s));
  }

  /** The row order a table keeps: ids increase with insertion, all below the next id. */
  ghost predicate Table(rows: seq<Row>, nextId: nat) {
    && IdsIncrease(rows)
    && IdsBelow(rows, nextId)
  }

  ghost predicate Clean(rows: seq<Row>) {
    forall i :: 0 <= i < |rows| ==> Storable(rows[i].msg)
  }

  lemma {:induction false} SelectKeepsTable(rows: seq<Row>, nextId: nat, key: string)
    requires Table(rows, nextId)
    ensures Table(Select(rows, key), nextId)
  {
    if rows != [] {
      var init, last := rows[..|rows| - 1], rows[|rows| - 1];
      SelectKeepsTable(init, last.id, key);
    }
  }

  lemma {:induction false} WithoutKeepsTable(rows: seq<Row>, nextId: nat, key: string)
    requires Table(rows, nextId)
    ensures Table(Without(rows, key), nextId)
  {
    if rows != [] {
      var init, last := rows[..|rows| - 1], rows[|rows| - 1];
      WithoutKeepsTable(init, last.id, key);
    }
  }

  lemma {:induction false} SelectMembers(rows: seq<Row>, key: string)
    ensures forall r :: r in Select(rows, key) <==> r in rows && r.convo == key
  {
    if rows != [] {
      SelectMembers(rows[..|rows| - 1], key);
      assert rows == rows[..|rows| - 1] + [rows[|rows| - 1]];
    }
  }

  lemma SelectPush(rows: seq<Row>, r: Row, key: string)
    ensures Select(rows + [r], key) == if r.convo == key then Select(rows, key) + [r] else Select(rows, key)
  {
    assert (rows + [r])[..|rows|] == rows;
  }

  lemma {:induction false} SelectAppend(a: seq<Row>, b: seq<Row>, key: string)
    ensures Select(a + b, key) == Select(a, key) + Select(b, key)
  {
    if b == [] {
      assert a + b == a;
    } else {
      var k := |b| - 1;
      SelectAppend(a, b[..k], key);
      assert (a + b)[..|a + b| - 1] == a + b[..k];
    }
  }

  lemma {:induction false} SelectOwned(rs: seq<Row>, owner: string, key: string)
    requires forall i :: 0 <= i < |rs| ==> rs[i].convo == owner
    ensures Select(rs, key) == if key == owner then rs else []
  {
    if rs != [] {
      SelectOwned(rs[..|rs| - 1], owner, key);
    }
  }

  lemma {:induction false} SelectWithout(rows: seq<Row>, deleted: string, key: string)
    ensures Select(Without(rows, deleted), key) == if key == deleted then [] else Select(rows, key)
  {
    if rows != [] {
      var init, last := rows[..|rows| - 1], rows[|rows| - 1];
      SelectWithout(init, deleted, key);
      SelectPush(Without(init, deleted), last, key);
      if last.convo == deleted {
        assert Without(rows, deleted) == Without(init, deleted);
      }
    }
  }

  function AfterSave(rows: seq<Row>, nextId: nat, key: string, ms: seq<Message>, now: int): seq<Row> {
    Without(rows, key) + Batch(key, ms, now, nextId)
  }

  lemma AfterSaveTable(rows: seq<Row>, nextId: nat, key: string, ms: seq<Message>, now: int)
    requires Table(rows, nextId)
    ensures Table(AfterSave(rows, nextId, key, ms, now), nextId + |Batch(key, ms, now, nextId)|)
  {
    WithoutKeepsTable(rows, nextId, key);
    BatchRange(key, ms, now, nextId);
  }

  lemma AfterSaveClean(rows: seq<Row>, nextId: nat, key: string, ms: seq<Message>, now: int)
    requires Clean(rows)
    ensures Clean(AfterSave(rows, nextId, key, ms, now))
  {
    WithoutKeepsClean(rows, key);
    BatchMessages(key, ms, now, nextId);
    StoredStorable(ms);
    var batch := Batch(key, ms, now, nextId);
    assert forall i :: 0 <= i < |batch| ==> batch[i].msg == Messages(batch)[i];
  }

  lemma {:induction false} WithoutKeepsClean(rows: seq<Row>, key: string)
    requires Clean(rows)
    ensures Clean(Without(rows, key))
  {
    if rows != [] {
      WithoutKeepsClean(rows[..|rows| - 1], key);
    }
  }

  lemma AfterSaveSelectOwn(rows: seq<Row>, nextId: nat, key: string, ms: seq<Message>, now: int)
    ensures Select(AfterSave(rows, nextId, key, ms, now), key) == Batch(key, ms, now, nextId)
  {
    var batch := Batch(key, ms, now, nextId);
    BatchRange(key, ms, now, nextId);
    SelectAppend(Without(rows, key), batch, key);
    SelectOwned(batch, key, key);
    SelectWithout(rows, key, key);
    assert [] + batch == batch;
  }

  lemma AfterSaveSelectOther(rows: seq<Row>, nextId: nat, key: string, ms: seq<Message>, now: int, other: string)
    requires other != key
    ensures Select(AfterSave(rows, nextId, key, ms, now), other) == Select(rows, other)
  {
    var batch := Batch(key, ms, now, nextId);
    BatchRange(key, ms, now, nextId);
    SelectAppend(Without(rows, key), batch, other);
    SelectOwned(batch, key, other);
    SelectWithout(rows, key, other);
    assert Select(rows, other) + [] == Select(rows, other);
  }

  /** save followed by load: exactly the stored form of the batch, and no other
      conversation's load moves. */
  lemma SaveThenQuery(rows: seq<Row>, nextId: nat, key: string, ms: seq<Message>, now: int)
    ensures Query(AfterSave(rows, nextId, key, ms, now), key) == Stored(ms)
    ensures forall other :: other != key ==> Query(AfterSave(rows, nextId, key, ms, now), other) == Query(rows, other)
  {
    AfterSaveSelectOwn(rows, nextId, key, ms, now);
    BatchOrdered(key, ms, now, nextId);
    SortOrderedIsIdentity(Batch(key, ms, now, nextId));
    BatchMessages(key, ms, now, nextId);
    forall other | other != key ensures Query(AfterSave(rows, nextId, key, ms, now), other) == Query(rows, other) {
      AfterSaveSelectOther(rows, nextId, key, ms, now, other);
    }
  }

  /** How many messages of the conversation an append at clock `now` lands behind. */
  function LandsAfter(rows: seq<Row>, key: string, now: int): nat {
    AtMost(SortRows(Select(rows, key)), now)
  }

  lemma QueryLength(rows: seq<Row>, nextId: nat, key: string)
    requires Table(rows, nextId)
    ensures |Query(rows, key)| == |Select(rows, key)|
  {
    SelectKeepsTable(rows, nextId, key);
    SortRowsSorts(Select(rows, key));
    SameMembers(SortRows(Select(rows, key)), Select(rows, key));
  }

  /** A single-row append: the new message is inserted after exactly those messages of
      the conversation whose stamp is not later than the clock. */
  lemma AppendThenQuery(rows: seq<Row>, nextId: nat, key: string, m: Message, now: int)
    requires Table(rows, nextId)
    ensures var k := LandsAfter(rows, key, now);
            && k <= |Query(rows, key)|
            && Query(rows + [Row(nextId, key, m, now)], key) == Query(rows, key)[..k] + [m] + Query(rows, key)[k..]
    ensures forall other :: other != key ==> Query(rows + [Row(nextId, key, m, now)], other) == Query(rows, other)
  {
    var r := Row(nextId, key, m, now);
    AppendedRow(rows, nextId, r);
    MessagesSplice(SortRows(Select(rows, key)), LandsAfter(rows, key, now), r);
    forall other | other != key ensures Query(rows + [r], other) == Query(rows, other) {
      SelectPush(rows, r, other);
    }
  }

  lemma AppendedRow(rows: seq<Row>, nextId: nat, r: Row)
    requires Table(rows, nextId) && r.id == nextId
    ensures var sorted := SortRows(Select(rows, r.convo));
            var k := LandsAfter(rows, r.convo, r.stamp);
            SortRows(Select(rows + [r], r.convo)) == sorted[..k] + [r] + sorted[k..]
  {
    var sel := Select(rows, r.convo);
    SelectPush(rows, r, r.convo);
    SelectKeepsTable(rows, nextId, r.convo);
    SortRowsSorts(sel);
    IdsBelowPermuted(SortRows(sel), sel, nextId);
    InsertPosition(SortRows(sel), r);
    SortPushed(sel, r);
  }

  lemma MessagesSplice(rs: seq<Row>, k: nat, r: Row)
    requires k <= |rs|
    ensures Messages(rs[..k] + [r] + rs[k..]) == Messages(rs)[..k] + [r.msg] + Messages(rs)[k..]
  {
  }

  lemma SortPushed(rs: seq<Row>, r: Row)
    ensures SortRows(rs + [r]) == Insert(SortRows(rs), r)
  {
    assert (rs + [r])[..|rs|] == rs;
  }

  lemma AppendKeepsTable(rows: seq<Row>, nextId: nat, r: Row)
    requires Table(rows, nextId) && Clean(rows) && r.id == nextId && Storable(r.msg)
    ensures Table(rows + [r], nextId + 1) && Clean(rows + [r])
  {
  }

  ghost predicate NoRowAhead(rows: seq<Row>, key: string, now: int) {
    forall r :: r in rows && r.convo == key ==> r.stamp <= now
  }

  /** The append is read back last if and only if no row of the conversation is stamped
      ahead of the clock. */
  lemma AppendLandsLastIff(rows: seq<Row>, nextId: nat, key: string, now: int)
    requires Table(rows, nextId)
    ensures LandsAfter(rows, key, now) == |Query(rows, key)|
            <==> NoRowAhead(rows, key, now)
  {
    var sel := Select(rows, key);
    SelectKeepsTable(rows, nextId, key);
    SortRowsSorts(sel);
    SameMembers(SortRows(sel), sel);
    SelectMembers(rows, key);
    AtMostIsAllIff(SortRows(sel), now);
  }

  lemma {:induction false} AtMostIsAllIff(rs: seq<Row>, now: int)
    ensures AtMost(rs, now) == |rs| <==> forall r :: r in rs ==> r.stamp <= now
  {
    if rs != [] {
      var init, last := rs[..|rs| - 1], rs[|rs| - 1];
      AtMostIsAllIff(init, now);
      assert rs == init + [last];
      assert last in rs;
    }
  }

  /** The clock may lag behind a save, which stamps a batch of n messages up to n - 1 ms
      ahead: an append d >= 0 ms after saving n storable messages lands after
      only the first min(n, d + 1) of them. */
  lemma AppendSoonAfterSave(
    rows: seq<Row>, nextId: nat, key: string, ms: seq<Message>, saved: int, m: Message, now: int, k: nat)
    requires Table(rows, nextId) && saved <= now && Stored(ms) == ms
    requires k == if now - saved + 1 < |ms| then now - saved + 1 else |ms|
    ensures Query(AfterSave(rows, nextId, key, ms, saved) + [Row(nextId + |ms|, key, m, now)], key)
            == ms[..k] + [m] + ms[k..]
  {
    AppendOnto(AfterSave(rows, nextId, key, ms, saved), rows, nextId, key, ms, saved, m, now, k);
  }

  lemma AppendOnto(after: seq<Row>, rows: seq<Row>, nextId: nat, key: string, ms: seq<Message>, saved: int, m: Message,
                   now: int, k: nat)
    requires Table(rows, nextId) && saved <= now && Stored(ms) == ms
    requires k == if now - saved + 1 < |ms| then now - saved + 1 else |ms|
    requires after == AfterSave(rows, nextId, key, ms, saved)
    ensures k <= |ms| && Query(after + [Row(nextId + |ms|, key, m, now)], key) == ms[..k] + [m] + ms[k..]
  {
    SavedFacts(rows, nextId, key, ms, saved, now);
    AppendAt(after, nextId + |ms|, key, ms, m, now, k);
  }

  lemma SavedFacts(rows: seq<Row>, nextId: nat, key: string, ms: seq<Message>, saved: int, now: int)
    requires Table(rows, nextId) && saved <= now && Stored(ms) == ms
    ensures var after := AfterSave(rows, nextId, key, ms, saved);
            && Query(after, key) == ms && Table(after, nextId + |ms|)
            && LandsAfter(after, key, now) == if now - saved + 1 < |ms| then now - saved + 1 else |ms|
  {
    SaveThenQuery(rows, nextId, key, ms, saved);
    SavedSize(rows, nextId, key, ms, saved);
    SavedLandsAfter(rows, nextId, key, ms, saved, now);
  }

  lemma SavedSize(rows: seq<Row>, nextId: nat, key: string, ms: seq<Message>, saved: int)
    requires Table(rows, nextId) && |Stored(ms)| == |ms|
    ensures Table(AfterSave(rows, nextId, key, ms, saved), nextId + |ms|)
  {
    BatchMessages(key, ms, saved, nextId);
    AfterSaveTable(rows, nextId, key, ms, saved);
  }

  lemma AppendAt(rows: seq<Row>, nextId: nat, key: string, ms: seq<Message>, m: Message, now: int, k: nat)
    requires Table(rows, nextId) && Query(rows, key) == ms && LandsAfter(rows, key, now) == k
    ensures k <= |ms|
    ensures Query(rows + [Row(nextId, key, m, now)], key) == ms[..k] + [m] + ms[k..]
  {
    AppendThenQuery(rows, nextId, key, m, now);
  }

  lemma SavedLandsAfter(rows: seq<Row>, nextId: nat, key: string, ms: seq<Message>, saved: int, now: int)
    requires saved <= now && |Stored(ms)| == |ms|
    ensures LandsAfter(AfterSave(rows, nextId, key, ms, saved), key, now)
            == if now - saved + 1 < |ms| then now - saved + 1 else |ms|
  {
    AfterSaveSelectOwn(rows, nextId, key, ms, saved);
    BatchOrdered(key, ms, saved, nextId);
    SortOrderedIsIdentity(Batch(key, ms, saved, nextId));
    StoredAllMeansRoles(ms);
    BatchAtMost(key, ms, saved, nextId, now);
  }

  lemma AtMostPush(rs: seq<Row>, r: Row, stamp: int)
    ensures AtMost(rs + [r], stamp) == AtMost(rs, stamp) + (if r.stamp <= stamp then 1 else 0)
  {
    assert (rs + [r])[..|rs|] == rs;
  }

  predicate RoleKept(m: Message) {
    ValidRole(CMessage(m).role)
  }

  lemma {:induction false} StoredAllMeansRoles(ms: seq<Message>)
    requires |Stored(ms)| == |ms|
    ensures forall i :: 0 <= i < |ms| ==> RoleKept(ms[i])
  {
    if ms != [] {
      StoredAllMeansRoles(ms[..|ms| - 1]);
    }
  }

  lemma BatchPush(key: string, init: seq<Message>, m: Message, now: int, firstId: nat)
    requires RoleKept(m)
    ensures var b := Batch(key, init, now, firstId);
            Batch(key, init + [m], now, firstId) == b + [Row(firstId + |b|, key, CMessage(m), now + |init|)]
  {
    assert (init + [m])[..|init|] == init;
  }

  lemma {:induction false} BatchAtMost(key: string, ms: seq<Message>, saved: int, firstId: nat, now: int)
    requires saved <= now
    requires forall j :: 0 <= j < |ms| ==> RoleKept(ms[j])
    ensures AtMost(Batch(key, ms, saved, firstId), now) == if now - saved + 1 < |ms| then now - saved + 1 else |ms|
    decreases |ms|
  {
    if ms != [] {
      var init, last := ms[..|ms| - 1], ms[|ms| - 1];
      var b := Batch(key, init, saved, firstId);
      assert ms == init + [last];
      assert RoleKept(last);
      BatchAtMost(key, init, saved, firstId, now);
      BatchPush(key, init, last, saved, firstId);
      AtMostPush(b, Row(firstId + |b|, key, CMessage(last), saved + |init|), now);
    }
  }

  lemma QueryIsStorable(rows: seq<Row>, nextId: nat, key: string)
    requires Table(rows, nextId) && Clean(rows)
    ensures Stored(Query(rows, key)) == Query(rows, key)
  {
    var sel := Select(rows, key);
    SelectKeepsTable(rows, nextId, key);
    SortRowsSorts(sel);
    SameMembers(SortRows(sel), sel);
    SelectMembers(rows, key);
    forall m | m in Query(rows, key) ensures Storable(m) {
      var i :| 0 <= i < |SortRows(sel)| && SortRows(sel)[i].msg == m;
      assert SortRows(sel)[i] in rows;
    }
    StoredIsIdentity(Query(rows, key));
  }

  lemma ValidRoleSurvives(role: string)
    requires ValidRole(role)
    ensures CText(role) == role
  {
    CTextIsNulFreePrefix(role);
    assert '\0' !in role;
  }

  // ---------- the backend object ----------

  class SqliteBackend {
    // sanitize_utf8: drops invalid UTF-8 before a single-row insert.
    const sanitize: string -> string
    var rows: seq<Row>
    var nextId: nat

    ghost predicate Valid()
      reads this
    {
      Table(rows, nextId) && Clean(rows)
    }

    ghost function LoadOf(convo: string): seq<Message>
      reads this
    {
      Query(rows, CText(convo))
    }

    /** What an append stores of a message. */
    function Sanitized(m: Message): Message {
      CMessage(m.(nick := sanitize(m.nick), content := sanitize(m.content)))
    }

    constructor (sanitize: string -> string)
      ensures Valid() && rows == [] && this.sanitize == sanitize
    {
      this.sanitize := sanitize;
      rows, nextId := [], 0;
    }

    method Load(convo: string) returns (msgs: seq<Message>)
      ensures msgs == LoadOf(convo)
    {
      var cursor := SortRows(Select(rows, CText(convo)));
      msgs := [];
      var i := 0;
      while i < |cursor|
        invariant 0 <= i <= |cursor|
        invariant msgs == Messages(cursor)[..i]
      {
        msgs := msgs + [cursor[i].msg];
        i := i + 1;
      }
    }

    /** Replaces the conversation; `now` is the clock read inside the transaction. */
    method Save(convo: string, messages: seq<Message>, now: int)
      requires Valid()
      modifies this
      ensures Valid()
      ensures LoadOf(convo) == Stored(messages)
      ensures forall key :: key != CText(convo) ==> Query(rows, key) == old(Query(rows, key))
      ensures rows == AfterSave(old(rows), old(nextId), CText(convo), messages, now)
      ensures nextId == old(nextId) + |Batch(CText(convo), messages, now, old(nextId))|
    {
      var key := CText(convo);
      SaveThenQuery(rows, nextId, key, messages, now);
      AfterSaveTable(rows, nextId, key, messages, now);
      AfterSaveClean(rows, nextId, key, messages, now);
      rows := Without(rows, key);
      InsertBatch(key, messages, now);
    }

    /** The INSERT loop of a save: a statement that fails the CHECK is skipped. */
    method InsertBatch(key: string, messages: seq<Message>, now: int)
      modifies this
      ensures rows == old(rows) + Batch(key, messages, now, old(nextId))
      ensures nextId == old(nextId) + |Batch(key, messages, now, old(nextId))|
    {
      ghost var rows0, id0 := rows, nextId;
      var i := 0;
      while i < |messages|
        invariant 0 <= i <= |messages|
        invariant rows == rows0 + Batch(key, messages[..i], now, id0)
        invariant nextId == id0 + |Batch(key, messages[..i], now, id0)|
      {
        var m := CMessage(messages[i]);
        BatchExtend(key, messages, i, now, id0);
        ghost var batch := Batch(key, messages[..i], now, id0);
        if ValidRole(m.role) {
          assert rows0 + (batch + [Row(nextId, key, m, now + i)]) == rows + [Row(nextId, key, m, now + i)];
          rows, nextId := rows + [Row(nextId, key, m, now + i)], nextId + 1;
        }
        i := i + 1;
      }
      assert messages[..i] == messages;
    }

    method AppendMessage(convo: string, m: Message, now: int)
      requires Valid()
      modifies this
      ensures Valid()
      ensures var safe := Sanitized(m);
              if ValidRole(safe.role) then
                var k := LandsAfter(old(rows), CText(convo), now);
                && k <= |old(LoadOf(convo))|
                && LoadOf(convo) == old(LoadOf(convo))[..k] + [safe] + old(LoadOf(convo))[k..]
                && rows == old(rows) + [Row(old(nextId), CText(convo), safe, now)]
              else rows == old(rows)
      ensures nextId == if ValidRole(Sanitized(m).role) then old(nextId) + 1 else old(nextId)
      ensures ValidRole(Sanitized(m).role) && NoRowAhead(old(rows), CText(convo), now) ==>
                LoadOf(convo) == old(LoadOf(convo)) + [Sanitized(m)]
      // field by field: nick and content sanitised, every text cut at its first NUL byte
      ensures var role := CText(m.role);
              rows == old(rows) +
                if role == "user" || role == "assistant" || role == "system" || role == "tool" then
                  [Row(old(nextId), CText(convo),
                       Message(role, CText(sanitize(m.nick)), CText(sanitize(m.content)), CText(m.toolCallId),
                               CText(m.toolCallsJson)),
                       now)]
                else []
      // a storable message the sanitiser leaves alone is stored as it is
      ensures Storable(m) && sanitize(m.nick) == m.nick && sanitize(m.content) == m.content ==>
                rows == old(rows) + [Row(old(nextId), CText(convo), m, now)]
      ensures forall key :: key != CText(convo) ==> Query(rows, key) == old(Query(rows, key))
    {
      var safe := Sanitized(m);
      if ValidRole(safe.role) {
        AppendThenQuery(rows, nextId, CText(convo), safe, now);
        AppendLandsLastIff(rows, nextId, CText(convo), now);
        CMessageIdempotent(m.(nick := sanitize(m.nick), content := sanitize(m.content)));
        AppendKeepsTable(rows, nextId, Row(nextId, CText(convo), safe, now));
        rows, nextId := rows + [Row(nextId, CText(convo), safe, now)], nextId + 1;
      }
    }

    method ClearMessages(convo: string)
      requires Valid()
      modifies this
      ensures Valid()
      ensures LoadOf(convo) == []
      ensures rows == Without(old(rows), CText(convo)) && nextId == old(nextId)
      ensures forall key :: key != CText(convo) ==> Query(rows, key) == old(Query(rows, key))
    {
      SaveThenQuery(rows, nextId, CText(convo), [], 0);
      AfterSaveTable(rows, nextId, CText(convo), [], 0);
      WithoutKeepsClean(rows, CText(convo));
      rows := Without(rows, CText(convo));
      assert rows == AfterSave(old(rows), nextId, CText(convo), [], 0);
    }

    method Count(convo: string) returns (n: nat)
      requires Valid()
      ensures n == |LoadOf(convo)|
    {
      QueryLength(rows, nextId, CText(convo));
      n := |Select(rows, CText(convo))|;
    }
  }
}
