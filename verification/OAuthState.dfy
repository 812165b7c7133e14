/** One-time OAuth state tokens: signed, valid for ten minutes, and remembered in a table of
    consumed nonces that forgets expired entries.  Times are Date.now() milliseconds. */
module OAuthState {
  const LIFETIME_SECONDS := 600
  const LIFETIME_MS := 600_000

  /** Issue time of every token ever generated, by its (random, hence unique) nonce.  A
      string that is not such a token fails the signature check. */
  type Issued = map<string, int>

  /** The expiry claim, in whole seconds. */
  function Expiry(issuedAt: int): int {
    issuedAt / 1000 + LIFETIME_SECONDS
  }

  /** One verifyState call: the nonce presented, and the clock as read by the signature
      library, by the purge and by the bookkeeping at the end. */
  datatype Call = Call(nonce: string, verifiedAt: int, purgedAt: int, storedAt: int)

  predicate Authentic(issued: Issued, c: Call) {
    c.nonce in issued && issued[c.nonce] <= c.verifiedAt && c.verifiedAt / 1000 < Expiry(issued[c.nonce])
  }

  function Purged(consumed: map<string, int>, now: int): map<string, int> {
    map n | n in consumed && now <= consumed[n] :: consumed[n]
  }

  predicate Accepts(issued: Issued, consumed: map<string, int>, c: Call) {
    Authentic(issued, c) && c.nonce !in Purged(consumed, c.purgedAt)
  }

  function AfterCall(issued: Issued, consumed: map<string, int>, c: Call): map<string, int> {
    if !Authentic(issued, c) then consumed
    else if c.nonce in Purged(consumed, c.purgedAt) then Purged(consumed, c.purgedAt)
    else Purged(consumed, c.purgedAt)[c.nonce := c.storedAt + LIFETIME_MS]
  }

  /** The table of one server process. */
  class NonceTable {
    var consumed: map<string, int>

    constructor ()
      ensures consumed == map[]
    {
      consumed := map[];
    }

    method PurgeExpiredNonces(now: int)
      modifies this
      ensures consumed == Purged(old(consumed), now)
      ensures forall n :: n in consumed <==> n in old(consumed) && now <= old(consumed)[n]
      ensures forall n :: n in consumed ==> consumed[n] == old(consumed)[n]
    {
      var pending := consumed.Keys;
      ghost var start := consumed;
      while pending != {}
        invariant pending <= start.Keys
        invariant consumed == map n | n in start && (n in pending || now <= start[n]) :: start[n]
        decreases pending
      {
        var nonce :| nonce in pending;
        if now > consumed[nonce] {
          consumed := consumed - {nonce};
        }
        pending := pending - {nonce};
      }
    }

    method VerifyState(ghost issued: Issued, c: Call, authentic: bool) returns (ok: bool)
      requires authentic == Authentic(issued, c)
      modifies this
      ensures ok == Accepts(issued, old(consumed), c)
      ensures consumed == AfterCall(issued, old(consumed), c)
      // in plain terms: refused when not authentic or remembered and not expired; otherwise
      // accepted and remembered for ten minutes, and whatever has expired is forgotten
      ensures !authentic ==> !ok && consumed == old(consumed)
      ensures authentic ==> ok == !(c.nonce in old(consumed) && c.purgedAt <= old(consumed)[c.nonce])
      ensures ok ==> c.nonce in consumed && consumed[c.nonce] == c.storedAt + 600_000
      ensures authentic ==> forall n :: n in consumed && (n != c.nonce || !ok) <==>
                n in old(consumed) && c.purgedAt <= old(consumed)[n] && (n != c.nonce || !ok)
      ensures authentic ==> forall n :: n in consumed && (n != c.nonce || !ok) ==>
                n in old(consumed) && consumed[n] == old(consumed)[n]
    {
      if !authentic {
        return false;
      }
      PurgeExpiredNonces(c.purgedAt);
      if c.nonce in consumed {
        return false;
      }
      consumed := consumed[c.nonce := c.storedAt + LIFETIME_MS];
      ok := true;
    }
  }

  // ---------- runs, with and without forgetting ----------

  function Decisions(issued: Issued, consumed: map<string, int>, calls: seq<Call>): (r: seq<bool>)
    ensures |r| == |calls|
    decreases |calls|
  {
    if calls == [] then []
    else [Accepts(issued, consumed, calls[0])] + Decisions(issued, AfterCall(issued, consumed, calls[0]), calls[1..])
  }

  /** The simple table that never forgets a nonce. */
  function IdealDecisions(issued: Issued, seen: set<string>, calls: seq<Call>): (r: seq<bool>)
    ensures |r| == |calls|
    decreases |calls|
  {
    if calls == [] then []
    else
      var ok := Authentic(issued, calls[0]) && calls[0].nonce !in seen;
      [ok] + IdealDecisions(issued, if ok then seen + {calls[0].nonce} else seen, calls[1..])
  }

  /** The clock never runs backwards, within a call or from one call to the next. */
  ghost predicate Monotone(from: int, calls: seq<Call>)
    decreases |calls|
  {
    calls == [] ||
    (from <= calls[0].verifiedAt <= calls[0].purgedAt <= calls[0].storedAt && Monotone(calls[0].storedAt, calls[1..]))
  }

  /** The purge reads the clock no later than the next whole second after the signature check
      did; in particular when both fall in the same second, or read the same value. */
  predicate Prompt(c: Call) {
    c.purgedAt <= (c.verifiedAt / 1000 + 1) * 1000
  }

  /** Everything seen is still remembered, or expired by `now`; what is remembered is kept
      until the token itself has expired. */
  ghost predicate Covers(issued: Issued, consumed: map<string, int>, seen: set<string>, now: int) {
    && (forall n :: n in consumed ==> n in seen && n in issued && consumed[n] >= issued[n] + LIFETIME_MS)
    && (forall n :: n in seen && n !in consumed ==> n in issued && now / 1000 >= Expiry(issued[n]))
  }

  lemma CallAgrees(issued: Issued, consumed: map<string, int>, seen: set<string>, now: int, c: Call)
    requires Covers(issued, consumed, seen, now)
    requires now <= c.verifiedAt <= c.purgedAt <= c.storedAt && Prompt(c)
    ensures Accepts(issued, consumed, c) <==> Authentic(issued, c) && c.nonce !in seen
    ensures Covers(issued, AfterCall(issued, consumed, c),
                   if Accepts(issued, consumed, c) then seen + {c.nonce} else seen, c.storedAt)
  {
    var after := AfterCall(issued, consumed, c);
    forall n | n in seen && n !in after ensures n in issued && c.storedAt / 1000 >= Expiry(issued[n]) {
      if n in consumed {
        assert c.purgedAt > issued[n] + LIFETIME_MS;
      }
    }
  }

  lemma {:induction false} PurgingIsInvisible(
    issued: Issued, consumed: map<string, int>, seen: set<string>, now: int, calls: seq<Call>)
    requires Covers(issued, consumed, seen, now) && Monotone(now, calls)
    requires forall i :: 0 <= i < |calls| ==> Prompt(calls[i])
    ensures Decisions(issued, consumed, calls) == IdealDecisions(issued, seen, calls)
    decreases |calls|
  {
    if calls != [] {
      var c := calls[0];
      assert Prompt(c);
      CallAgrees(issued, consumed, seen, now, c);
      PurgingIsInvisible(issued, AfterCall(issued, consumed, c),
                         if Accepts(issued, consumed, c) then seen + {c.nonce} else seen, c.storedAt, calls[1..]);
    }
  }

  lemma {:induction false} SeenIsRefused(issued: Issued, seen: set<string>, calls: seq<Call>, j: nat)
    requires j < |calls| && calls[j].nonce in seen
    ensures !IdealDecisions(issued, seen, calls)[j]
    decreases |calls|
  {
    if j > 0 {
      var ok := Authentic(issued, calls[0]) && calls[0].nonce !in seen;
      SeenIsRefused(issued, if ok then seen + {calls[0].nonce} else seen, calls[1..], j - 1);
    }
  }

  lemma {:induction false} IdealAcceptsOnce(issued: Issued, seen: set<string>, calls: seq<Call>, i: nat, j: nat)
    requires i < j < |calls| && calls[i].nonce == calls[j].nonce
    ensures !(IdealDecisions(issued, seen, calls)[i] && IdealDecisions(issued, seen, calls)[j])
    decreases |calls|
  {
    var ok := Authentic(issued, calls[0]) && calls[0].nonce !in seen;
    var seen' := if ok then seen + {calls[0].nonce} else seen;
    if i == 0 {
      if ok {
        SeenIsRefused(issued, seen', calls[1..], j - 1);
      }
    } else {
      IdealAcceptsOnce(issued, seen', calls[1..], i - 1, j - 1);
    }
  }

  /** No token is accepted twice in any run from an empty table whose purges are prompt. */
  lemma AcceptedAtMostOnce(issued: Issued, calls: seq<Call>, i: nat, j: nat)
    requires i < j < |calls| && calls[i].nonce == calls[j].nonce
    requires Monotone(calls[0].verifiedAt, calls) && forall k :: 0 <= k < |calls| ==> Prompt(calls[k])
    ensures !(Decisions(issued, map[], calls)[i] && Decisions(issued, map[], calls)[j])
  {
    PurgingIsInvisible(issued, map[], {}, calls[0].verifiedAt, calls);
    IdealAcceptsOnce(issued, {}, calls, i, j);
  }

  /** A replay that the table might let through: consumed as soon as it was issued, then
      presented again by a call reading the clock at `verifiedAt` and `purgedAt`. */
  function ReplayCalls(issuedAt: int, verifiedAt: int, purgedAt: int): seq<Call> {
    [Call("n", issuedAt, issuedAt, issuedAt), Call("n", verifiedAt, purgedAt, purgedAt)]
  }

  /** The clock reads of a call are safe for every history if and only if the purge is
      prompt: otherwise the library can still accept a token the purge already forgot. */
  lemma PromptIsExact(verifiedAt: int, purgedAt: int)
    requires verifiedAt <= purgedAt
    ensures Prompt(Call("n", verifiedAt, purgedAt, purgedAt))
            <==> forall issuedAt: int :: issuedAt <= verifiedAt ==>
                   Decisions(map["n" := issuedAt], map[], ReplayCalls(issuedAt, verifiedAt, purgedAt)) != [true, true]
  {
    if Prompt(Call("n", verifiedAt, purgedAt, purgedAt)) {
      forall issuedAt: int | issuedAt <= verifiedAt
        ensures Decisions(map["n" := issuedAt], map[], ReplayCalls(issuedAt, verifiedAt, purgedAt)) != [true, true]
      {
        ReplayDecisions(issuedAt, verifiedAt, purgedAt);
      }
    } else {
      var issuedAt := (verifiedAt / 1000 + 1) * 1000 - LIFETIME_MS;
      ReplayDecisions(issuedAt, verifiedAt, purgedAt);
    }
  }

  lemma ReplayDecisions(issuedAt: int, verifiedAt: int, purgedAt: int)
    requires issuedAt <= verifiedAt <= purgedAt
    ensures Decisions(map["n" := issuedAt], map[], ReplayCalls(issuedAt, verifiedAt, purgedAt))
            == [true, verifiedAt / 1000 < Expiry(issuedAt) && purgedAt > issuedAt + LIFETIME_MS]
  {
    var issued := map["n" := issuedAt];
    var calls := ReplayCalls(issuedAt, verifiedAt, purgedAt);
    var consumed := AfterCall(issued, map[], calls[0]);
    assert Authentic(issued, calls[0]);
    assert consumed == map["n" := issuedAt + LIFETIME_MS];
    assert calls[1..] == [calls[1]] && calls[1..][1..] == [];
    assert Decisions(issued, consumed, calls[1..]) == [Accepts(issued, consumed, calls[1])];
  }
}
