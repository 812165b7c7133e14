/** The gateway connection of the QQ session: what one connection sends, how the session id
    moves from connection to connection, and the reconnect loop around it. */
module QqTransport {
  import opened Options

  /** What a frame asks for. Broken is a frame with a field of the wrong type: reading that field
      throws and ends the connection, its sequence counting only if it was read before. Ignored
      is text that holds no JSON object. */
  datatype Kind =
    | Ignored
    | Broken
    | Hello
    | InvalidSession
    | Ready(sessionId: string)
    | Dispatch
    | HeartbeatAck
    | Reconnect
    | OtherOp

  datatype Frame = Frame(kind: Kind, sequence: Option<int>)

  datatype Payload = Identify | Resume(sessionId: string, sequence: int)

  // ---------- one connection, as functions of the frames it reads ----------

  predicate Ends(f: Frame) {
    f.kind.Broken? || f.kind.InvalidSession? || f.kind.Reconnect?
  }

  /** The frames a connection acts on: up to the first that ends it. */
  function Acted(frames: seq<Frame>): (r: seq<Frame>)
    ensures r <= frames
  {
    if frames == [] then []
    else if Ends(frames[0]) then [frames[0]]
    else [frames[0]] + Acted(frames[1..])
  }

  /** The session id after a frame: READY brings one unless it is empty, an invalid session
      takes it away, nothing else touches it. */
  function SidStep(sid: string, f: Frame): string {
    match f.kind
    case Ready(id) => if id != "" then id else sid
    case InvalidSession => ""
    case _ => sid
  }

  function SidAfter(sid: string, frames: seq<Frame>): string {
    if frames == [] then sid else SidStep(SidAfter(sid, frames[..|frames| - 1]), frames[|frames| - 1])
  }

  function SeqStep(n: int, f: Frame): int {
    if f.kind.Ignored? || f.sequence.None? then n else f.sequence.value
  }

  function SeqAfter(n: int, frames: seq<Frame>): int {
    if frames == [] then n else SeqStep(SeqAfter(n, frames[..|frames| - 1]), frames[|frames| - 1])
  }

  /** The answer to the first Hello: a resume of the id held when the connection began, or an
      identify when there was none. */
  function Answer(sid: string, n: int): Payload {
    if sid != "" then Resume(sid, n) else Identify
  }

  function SentStep(sid: string, n: int, sent: seq<Payload>, f: Frame): seq<Payload> {
    if sent == [] && f.kind.Hello? then [Answer(sid, n)] else sent
  }

  /** What a connection sends, given the session id and sequence it began with. */
  function SentOn(sid: string, n: int, frames: seq<Frame>): seq<Payload> {
    if frames == [] then []
    else SentStep(sid, SeqAfter(n, frames), SentOn(sid, n, frames[..|frames| - 1]), frames[|frames| - 1])
  }

  lemma Push(sid: string, n: int, frames: seq<Frame>, i: nat)
    requires i < |frames|
    ensures SidAfter(sid, frames[..i + 1]) == SidStep(SidAfter(sid, frames[..i]), frames[i])
    ensures SeqAfter(n, frames[..i + 1]) == SeqStep(SeqAfter(n, frames[..i]), frames[i])
    ensures SentOn(sid, n, frames[..i + 1]) ==
            SentStep(sid, SeqAfter(n, frames[..i + 1]), SentOn(sid, n, frames[..i]), frames[i])
  {
    assert frames[..i + 1][..i] == frames[..i];
  }

  lemma {:induction false} ActedUpTo(frames: seq<Frame>, i: nat)
    requires i <= |frames| && forall k :: 0 <= k < i - 1 ==> !Ends(frames[k])
    requires i == |frames| || (i > 0 && Ends(frames[i - 1]))
    ensures Acted(frames) == frames[..i]
    decreases |frames|
  {
    if i > 1 {
      ActedUpTo(frames[1..], i - 1);
      assert frames[..i] == [frames[0]] + frames[1..][..i - 1];
    } else if i == 1 {
      assert frames[..1] == [frames[0]];
      assert frames[1..] == [] || Ends(frames[0]);
    }
  }

  predicate IsEnd(k: Kind) {
    k.Broken? || k.InvalidSession? || k.Reconnect?
  }

  /** A connection acts on its frames up to and including the first broken one, invalid session or
      request to reconnect, and on all when there is none. */
  lemma {:induction false} ActedIsUpToEnd(frames: seq<Frame>)
    ensures var a := Acted(frames);
            && a <= frames
            && (forall k :: 0 <= k < |a| - 1 ==> !IsEnd(a[k].kind))
            && (|a| < |frames| ==> a != [] && IsEnd(a[|a| - 1].kind))
    decreases |frames|
  {
    if frames != [] && !Ends(frames[0]) {
      ActedIsUpToEnd(frames[1..]);
    }
  }

  // ---------- what a connection sends ----------

  predicate HasHello(frames: seq<Frame>) {
    exists k :: 0 <= k < |frames| && frames[k].kind.Hello?
  }

  predicate FirstHello(frames: seq<Frame>, k: nat) {
    k < |frames| && frames[k].kind.Hello? && forall j :: 0 <= j < k ==> !frames[j].kind.Hello?
  }

  /** A connection sends at most one identify or resume, and one exactly when a Hello came. */
  lemma {:induction false} AtMostOneSent(sid: string, n: int, frames: seq<Frame>)
    ensures |SentOn(sid, n, frames)| == if HasHello(frames) then 1 else 0
    decreases |frames|
  {
    if frames != [] {
      var init, last := frames[..|frames| - 1], frames[|frames| - 1];
      AtMostOneSent(sid, n, init);
      if HasHello(init) {
        var k :| 0 <= k < |init| && init[k].kind.Hello?;
        assert frames[k].kind.Hello?;
      } else if k :| 0 <= k < |frames| && frames[k].kind.Hello? {
        assert k < |init| ==> init[k].kind.Hello?;
      }
    }
  }

  lemma {:induction false} HelloAnswered(sid: string, n: int, frames: seq<Frame>, k: nat)
    requires FirstHello(frames, k)
    ensures SentOn(sid, n, frames) == [Answer(sid, SeqAfter(n, frames[..k + 1]))]
    decreases |frames|
  {
    var init := frames[..|frames| - 1];
    if k == |frames| - 1 {
      AtMostOneSent(sid, n, init);
      assert !HasHello(init);
      assert frames[..k + 1] == frames;
    } else {
      HelloAnswered(sid, n, init, k);
      assert init[..k + 1] == frames[..k + 1];
    }
  }

  // ---------- the sequence number is the latest seen ----------

  /** A frame that counts and has a sequence number. */
  predicate Numbered(f: Frame) {
    !f.kind.Ignored? && f.sequence.Some?
  }

  predicate LastNumbered(frames: seq<Frame>, k: nat, v: int) {
    k < |frames| && Numbered(frames[k]) && frames[k].sequence == Some(v)
    && forall j :: k < j < |frames| ==> !Numbered(frames[j])
  }

  /** v is the number of the last frame that has one, or n when none has. */
  ghost predicate LatestNumber(n: int, frames: seq<Frame>, v: int) {
    (exists k: nat :: LastNumbered(frames, k, v)) ||
    (v == n && forall j :: 0 <= j < |frames| ==> !Numbered(frames[j]))
  }

  lemma {:induction false} SeqIsTheLatest(n: int, frames: seq<Frame>, v: int)
    ensures SeqAfter(n, frames) == v <==> LatestNumber(n, frames, v)
    decreases |frames|
  {
    if frames != [] {
      var e := |frames| - 1;
      SeqIsTheLatest(n, frames[..e], v);
      if Numbered(frames[e]) {
        assert LastNumbered(frames, e, frames[e].sequence.value);
      } else {
        if k: nat :| LastNumbered(frames[..e], k, v) {
          assert LastNumbered(frames, k, v);
        }
        if k: nat :| LastNumbered(frames, k, v) {
          assert LastNumbered(frames[..e], k, v);
        }
      }
    }
  }

  /** A connection answers its first Hello: it resumes the session it began with, at the number
      that Hello left, and identifies when it began with none. */
  lemma FirstHelloIsAnswered(sid: string, n: int, frames: seq<Frame>, k: nat, v: int)
    requires FirstHello(frames, k) && LatestNumber(n, frames[..k + 1], v)
    ensures SentOn(sid, n, frames) == [if sid != "" then Resume(sid, v) else Identify]
  {
    HelloAnswered(sid, n, frames, k);
    SeqIsTheLatest(n, frames[..k + 1], v);
  }

  // ---------- the session id over a whole history ----------

  /** Whether frame k is the last to have set or cleared the session id, and set it to id. */
  predicate BroughtBy(frames: seq<Frame>, k: nat, id: string) {
    k < |frames| && frames[k].kind == Ready(id) && id != "" && forall j :: k < j < |frames| ==> !Decides(frames[j])
  }

  predicate Decides(f: Frame) {
    f.kind.InvalidSession? || (f.kind.Ready? && f.kind.sessionId != "")
  }

  lemma {:induction false} SidIsTheLatest(frames: seq<Frame>, id: string)
    requires id != ""
    ensures SidAfter("", frames) == id <==> exists k: nat :: BroughtBy(frames, k, id)
    decreases |frames|
  {
    if frames != [] {
      var n := |frames| - 1;
      SidIsTheLatest(frames[..n], id);
      if Decides(frames[n]) {
        if frames[n].kind == Ready(id) {
          assert BroughtBy(frames, n, id);
        }
      } else {
        if k: nat :| BroughtBy(frames[..n], k, id) {
          assert BroughtBy(frames, k, id);
        }
        if k: nat :| BroughtBy(frames, k, id) {
          assert BroughtBy(frames[..n], k, id);
        }
      }
    }
  }

  /** All frames acted on by the given connections, in order. */
  function History(conns: seq<seq<Frame>>): seq<Frame> {
    if conns == [] then [] else History(conns[..|conns| - 1]) + Acted(conns[|conns| - 1])
  }

  lemma {:induction false} SidAfterConcat(sid: string, a: seq<Frame>, b: seq<Frame>)
    ensures SidAfter(sid, a + b) == SidAfter(SidAfter(sid, a), b)
    decreases |b|
  {
    if b == [] {
      assert a + b == a;
    } else {
      SidAfterConcat(sid, a, b[..|b| - 1]);
      assert (a + b)[..|a + b| - 1] == a + b[..|b| - 1];
    }
  }

  /** The session id after the given connections. */
  function SidFrom(sid: string, conns: seq<seq<Frame>>): string {
    if conns == [] then sid else SidAfter(SidFrom(sid, conns[..|conns| - 1]), Acted(conns[|conns| - 1]))
  }

  lemma {:induction false} SidFromIsHistory(conns: seq<seq<Frame>>)
    ensures SidFrom("", conns) == SidAfter("", History(conns))
    decreases |conns|
  {
    if conns != [] {
      var init := conns[..|conns| - 1];
      SidFromIsHistory(init);
      SidAfterConcat("", History(init), Acted(conns[|conns| - 1]));
    }
  }

  lemma {:induction false} SeqAfterConcat(n: int, a: seq<Frame>, b: seq<Frame>)
    ensures SeqAfter(n, a + b) == SeqAfter(SeqAfter(n, a), b)
    decreases |b|
  {
    if b == [] {
      assert a + b == a;
    } else {
      SeqAfterConcat(n, a, b[..|b| - 1]);
      assert (a + b)[..|a + b| - 1] == a + b[..|b| - 1];
    }
  }

  /** The sequence number after the given connections. */
  function SeqBefore(n: int, conns: seq<seq<Frame>>): int {
    if conns == [] then n else SeqAfter(SeqBefore(n, conns[..|conns| - 1]), Acted(conns[|conns| - 1]))
  }

  lemma {:induction false} SeqBeforeIsHistory(n: int, conns: seq<seq<Frame>>)
    ensures SeqBefore(n, conns) == SeqAfter(n, History(conns))
    decreases |conns|
  {
    if conns != [] {
      var init := conns[..|conns| - 1];
      SeqBeforeIsHistory(n, init);
      SeqAfterConcat(n, History(init), Acted(conns[|conns| - 1]));
    }
  }

  /** What a connection after the given ones sends, once its first Hello has come. */
  lemma AnswerAfter(conns: seq<seq<Frame>>, acted: seq<Frame>, n: int, h: nat, v: int)
    requires FirstHello(acted, h) && LatestNumber(n, History(conns) + acted[..h + 1], v)
    ensures SentOn(SidFrom("", conns), SeqBefore(n, conns), acted)
            == [if SidAfter("", History(conns)) != "" then Resume(SidAfter("", History(conns)), v) else Identify]
  {
    SidFromIsHistory(conns);
    SeqBeforeIsHistory(n, conns);
    SeqIsTheLatest(n, History(conns) + acted[..h + 1], v);
    SeqAfterConcat(n, History(conns), acted[..h + 1]);
    HelloAnswered(SidFrom("", conns), SeqBefore(n, conns), acted, h);
  }

  lemma FirstIsOne(frames: seq<Frame>, h: nat, k: nat)
    requires FirstHello(frames, h) && FirstHello(frames, k)
    ensures h == k
  {
  }

  /** After any connections, a further one resumes a session exactly when a Hello comes and the
      last frame of the history to set or clear the session id was the READY that set it; and it
      resumes at the number of the last frame, up to that Hello, that had one. */
  lemma ResumesIffLatest(conns: seq<seq<Frame>>, frames: seq<Frame>, n: int, id: string, v: int)
    requires id != ""
    ensures SentOn(SidFrom("", conns), SeqBefore(n, conns), Acted(frames)) == [Resume(id, v)] <==>
            && (exists k: nat :: BroughtBy(History(conns), k, id))
            && (exists h: nat ::
                  FirstHello(Acted(frames), h) && LatestNumber(n, History(conns) + Acted(frames)[..h + 1], v))
  {
    var acted := Acted(frames);
    SidIsTheLatest(History(conns), id);
    AtMostOneSent(SidFrom("", conns), SeqBefore(n, conns), acted);
    if HasHello(acted) {
      var h := FindFirst(acted);
      var w := SeqAfter(n, History(conns) + acted[..h + 1]);
      SeqIsTheLatest(n, History(conns) + acted[..h + 1], w);
      AnswerAfter(conns, acted, n, h, w);
      SeqIsTheLatest(n, History(conns) + acted[..h + 1], v);
      if k: nat :| FirstHello(acted, k) && LatestNumber(n, History(conns) + acted[..k + 1], v) {
        FirstIsOne(acted, h, k);
      }
    }
  }

  lemma NoIdMeansNoneBrought(frames: seq<Frame>)
    ensures SidAfter("", frames) == "" <==> forall k: nat, id: string :: id != "" ==> !BroughtBy(frames, k, id)
  {
    var sid := SidAfter("", frames);
    if sid != "" {
      SidIsTheLatest(frames, sid);
    }
    forall k: nat, id: string | id != "" && BroughtBy(frames, k, id) ensures sid == id {
      SidIsTheLatest(frames, id);
    }
  }

  /** And it identifies exactly when a Hello comes and no READY of the history is still in force. */
  lemma IdentifiesIff(conns: seq<seq<Frame>>, frames: seq<Frame>, n: int)
    ensures SentOn(SidFrom("", conns), n, Acted(frames)) == [Identify] <==>
            && HasHello(Acted(frames))
            && forall k: nat, id: string :: id != "" ==> !BroughtBy(History(conns), k, id)
  {
    var acted := Acted(frames);
    SidFromIsHistory(conns);
    NoIdMeansNoneBrought(History(conns));
    AtMostOneSent(SidFrom("", conns), n, acted);
    if HasHello(acted) {
      var h := FindFirst(acted);
      HelloAnswered(SidFrom("", conns), n, acted, h);
    }
  }

  lemma {:induction false} FindFirst(frames: seq<Frame>) returns (k: nat)
    requires HasHello(frames)
    ensures FirstHello(frames, k)
    decreases |frames|
  {
    var init := frames[..|frames| - 1];
    if HasHello(init) {
      k := FindFirst(init);
    } else {
      k := |frames| - 1;
      assert forall j :: 0 <= j < k ==> init[j] == frames[j];
    }
  }

  predicate BringsId(f: Frame) {
    f.kind.Ready? && f.kind.sessionId != ""
  }

  lemma IdComesAfterInvalid(frames: seq<Frame>, k: nat)
    requires k < |frames| && frames[k].kind.InvalidSession?
    ensures SidAfter("", frames) != "" ==> exists m :: k < m < |frames| && BringsId(frames[m])
  {
    var id := SidAfter("", frames);
    if id != "" {
      SidIsTheLatest(frames, id);
      var m: nat :| BroughtBy(frames, m, id);
      assert Decides(frames[k]) && BringsId(frames[m]);
    }
  }

  /** After an invalid session every connection that sends anything identifies, until a READY
      brings a new id. */
  lemma IdentifiesAfterInvalid(conns: seq<seq<Frame>>, frames: seq<Frame>, n: int, k: nat)
    requires k < |History(conns)| && History(conns)[k].kind.InvalidSession?
    requires forall j :: k < j < |History(conns)| ==> !BringsId(History(conns)[j])
    ensures SentOn(SidFrom("", conns), n, Acted(frames)) == if HasHello(Acted(frames)) then [Identify] else []
  {
    var acted := Acted(frames);
    SidFromIsHistory(conns);
    IdComesAfterInvalid(History(conns), k);
    AtMostOneSent("", n, acted);
    if HasHello(acted) {
      var h := FindFirst(acted);
      HelloAnswered("", n, acted, h);
    }
  }

  // ---------- the reconnect loop ----------

  /** One turn of the loop: where it gets to, and the frames if it gets a connection. */
  datatype Round = LoginFails | GatewayFails | Connects(frames: seq<Frame>)

  datatype Event = Wait(seconds: nat) | Sent(payloads: seq<Payload>)

  const LOGIN_RETRY_DELAY := 5
  const RECONNECT_DELAY := 3

  function Power2(k: nat): nat {
    if k == 0 then 1 else 2 * Power2(k - 1)
  }

  function Min(a: nat, b: nat): nat {
    if a < b then a else b
  }

  function LoginDelay(attempts: nat): nat
    requires attempts >= 1
  {
    Min(LOGIN_RETRY_DELAY * Power2(Min(attempts - 1, 3)), 60)
  }

  function ReconnectDelay(attempts: nat): nat
    requires attempts >= 1
  {
    Min(RECONNECT_DELAY * Power2(Min(attempts - 1, 4)), 60)
  }

  /** Each delay doubles the last, up to 40 and 48 seconds: the 60-second cap is never met. */
  lemma DelaysDouble(attempts: nat)
    requires attempts >= 1
    ensures LoginDelay(1) == 5 && LoginDelay(attempts + 1) == Min(2 * LoginDelay(attempts), 40)
    ensures ReconnectDelay(1) == 3 && ReconnectDelay(attempts + 1) == Min(2 * ReconnectDelay(attempts), 48)
  {
    assert Power2(0) == 1 && Power2(1) == 2 && Power2(2) == 4 && Power2(3) == 8 && Power2(4) == 16;
    if attempts >= 5 {
      assert Min(attempts - 1, 4) == Min(attempts, 4) == 4;
    }
  }

  /** Login failures since the last success. */
  function Failures(rounds: seq<Round>): nat {
    if rounds == [] || !rounds[|rounds| - 1].LoginFails? then 0 else Failures(rounds[..|rounds| - 1]) + 1
  }

  /** The connections made. */
  function Conns(rounds: seq<Round>): seq<seq<Frame>> {
    if rounds == [] then []
    else
      var init, last := Conns(rounds[..|rounds| - 1]), rounds[|rounds| - 1];
      if last.Connects? then init + [last.frames] else init
  }

  /** What one round does after the rounds before it. */
  function RoundLog(sid: string, n: int, before: seq<Round>, last: Round): seq<Event> {
    match last
    case LoginFails => [Wait(LoginDelay(Failures(before) + 1))]
    case GatewayFails => [Wait(LOGIN_RETRY_DELAY)]
    case Connects(frames) =>
      var earlier := Conns(before);
      [Sent(SentOn(SidFrom(sid, earlier), SeqBefore(n, earlier), Acted(frames))),
       Wait(ReconnectDelay(|earlier| + 1))]
  }

  /** What the run does, round by round. */
  function RunLog(sid: string, n: int, rounds: seq<Round>): seq<Event> {
    if rounds == [] then []
    else
      var before := rounds[..|rounds| - 1];
      RunLog(sid, n, before) + RoundLog(sid, n, before, rounds[|rounds| - 1])
  }

  /** f is the number of login failures at the end of the rounds. */
  predicate EndsWithFailures(rounds: seq<Round>, f: nat) {
    && f <= |rounds| && (forall i :: |rounds| - f <= i < |rounds| ==> rounds[i].LoginFails?)
    && (f < |rounds| ==> !rounds[|rounds| - f - 1].LoginFails?)
  }

  lemma {:induction false} FailuresAre(rounds: seq<Round>)
    ensures EndsWithFailures(rounds, Failures(rounds))
    decreases |rounds|
  {
    if rounds != [] && rounds[|rounds| - 1].LoginFails? {
      FailuresAre(rounds[..|rounds| - 1]);
    }
  }

  /** Round by round: the waits after a failed login double with the failures in a row, a failed
      gateway request waits 5 seconds, and a connection is followed by a wait that doubles with
      the connections made so far. */
  lemma RunIsRoundByRound(sid: string, n: int, rounds: seq<Round>, last: Round, f: nat)
    requires EndsWithFailures(rounds, f)
    ensures RunLog(sid, n, []) == [] && Conns([]) == []
    ensures last.LoginFails? ==>
              && RunLog(sid, n, rounds + [last]) == RunLog(sid, n, rounds) + [Wait(LoginDelay(f + 1))]
              && Conns(rounds + [last]) == Conns(rounds)
    ensures last.GatewayFails? ==>
              && RunLog(sid, n, rounds + [last]) == RunLog(sid, n, rounds) + [Wait(5)]
              && Conns(rounds + [last]) == Conns(rounds)
    ensures last.Connects? ==>
              var conns := Conns(rounds);
              && Conns(rounds + [last]) == conns + [last.frames]
              && RunLog(sid, n, rounds + [last]) == RunLog(sid, n, rounds) +
                   [Sent(SentOn(SidFrom(sid, conns), SeqBefore(n, conns), Acted(last.frames))),
                    Wait(ReconnectDelay(|conns| + 1))]
  {
    FailuresAre(rounds);
    assert f == Failures(rounds);
    assert (rounds + [last])[..|rounds|] == rounds;
  }

  lemma RoundPush(sid: string, n: int, rounds: seq<Round>, i: nat)
    requires i < |rounds|
    ensures Failures(rounds[..i + 1]) == if rounds[i].LoginFails? then Failures(rounds[..i]) + 1 else 0
    ensures Conns(rounds[..i + 1]) ==
            if rounds[i].Connects? then Conns(rounds[..i]) + [rounds[i].frames] else Conns(rounds[..i])
    ensures RunLog(sid, n, rounds[..i + 1]) == RunLog(sid, n, rounds[..i]) + RoundLog(sid, n, rounds[..i], rounds[i])
  {
    assert rounds[..i + 1][..i] == rounds[..i];
  }

  lemma ConnPush(sid: string, n: int, conns: seq<seq<Frame>>, frames: seq<Frame>)
    ensures SidFrom(sid, conns + [frames]) == SidAfter(SidFrom(sid, conns), Acted(frames))
    ensures SeqBefore(n, conns + [frames]) == SeqAfter(SeqBefore(n, conns), Acted(frames))
  {
    assert (conns + [frames])[..|conns|] == conns;
  }

  /** The state of the loop after some rounds of a run that began with sid and n. */
  ghost predicate Ran(sid: string, n: int, rounds: seq<Round>, log: seq<Event>,
                      sessionId: string, lastSequence: int, loginAttempts: nat, reconnectAttempts: nat) {
    && log == RunLog(sid, n, rounds)
    && sessionId == SidFrom(sid, Conns(rounds)) && lastSequence == SeqBefore(n, Conns(rounds))
    && loginAttempts == Failures(rounds) && reconnectAttempts == |Conns(rounds)|
  }

  lemma RanUnconnected(sid: string, n: int, rounds: seq<Round>, i: nat, log: seq<Event>,
                       id: string, sequence: int, loginAttempts: nat, reconnectAttempts: nat)
    requires i < |rounds| && !rounds[i].Connects?
    requires Ran(sid, n, rounds[..i], log, id, sequence, loginAttempts, reconnectAttempts)
    ensures rounds[i].LoginFails? ==>
              Ran(sid, n, rounds[..i + 1], log + [Wait(LoginDelay(loginAttempts + 1))],
                  id, sequence, loginAttempts + 1, reconnectAttempts)
    ensures rounds[i].GatewayFails? ==>
              Ran(sid, n, rounds[..i + 1], log + [Wait(LOGIN_RETRY_DELAY)], id, sequence, 0, reconnectAttempts)
  {
    RoundPush(sid, n, rounds, i);
  }

  lemma RanConnected(sid: string, n: int, rounds: seq<Round>, i: nat, log: seq<Event>,
                     id: string, sequence: int, loginAttempts: nat, reconnectAttempts: nat)
    requires i < |rounds| && rounds[i].Connects?
    requires Ran(sid, n, rounds[..i], log, id, sequence, loginAttempts, reconnectAttempts)
    ensures var acted := Acted(rounds[i].frames);
            Ran(sid, n, rounds[..i + 1],
                log + [Sent(SentOn(id, sequence, acted)), Wait(ReconnectDelay(reconnectAttempts + 1))],
                SidAfter(id, acted), SeqAfter(sequence, acted), 0, reconnectAttempts + 1)
  {
    RoundPush(sid, n, rounds, i);
    ConnPush(sid, n, Conns(rounds[..i]), rounds[i].frames);
  }

  class Session {
    var sessionId: string
    var lastSequence: int

    constructor ()
      ensures sessionId == "" && lastSequence == 0
    {
      sessionId, lastSequence := "", 0;
    }

    /** One connection. Where reading stops for any other reason, the frames stop there. */
    method RunWebsocket(frames: seq<Frame>) returns (sent: seq<Payload>)
      modifies this
      ensures sessionId == SidAfter(old(sessionId), Acted(frames))
      ensures lastSequence == SeqAfter(old(lastSequence), Acted(frames))
      ensures sent == SentOn(old(sessionId), old(lastSequence), Acted(frames))
    {
      var lastSid := sessionId;
      var identified := false;
      sent := [];
      var i := 0;
      var open := true;
      while open && i < |frames|
        invariant 0 <= i <= |frames|
        invariant forall k :: 0 <= k < i - 1 ==> !Ends(frames[k])
        invariant i > 0 ==> open != Ends(frames[i - 1])
        invariant i == 0 ==> open
        invariant sessionId == SidAfter(lastSid, frames[..i])
        invariant lastSequence == SeqAfter(old(lastSequence), frames[..i])
        invariant sent == SentOn(lastSid, old(lastSequence), frames[..i])
        invariant identified == (sent != [])
      {
        Push(lastSid, old(lastSequence), frames, i);
        var f := frames[i];
        i := i + 1;
        if !f.kind.Ignored? && f.sequence.Some? {
          lastSequence := f.sequence.value;
        }
        match f.kind
        case Hello =>
          if !identified {
            sent := [if lastSid != "" then Resume(lastSid, lastSequence) else Identify];
            identified := true;
          }
        case InvalidSession =>
          sessionId := "";
          open := false;
        case Ready(id) =>
          if id != "" {
            sessionId := id;
          }
        case Reconnect =>
          open := false;
        case Broken =>
          open := false;
        case _ =>
      }
      ActedUpTo(frames, i);
    }

    /** The loop of login, gateway and connection, over any outcomes of its rounds. */
    method Run(rounds: seq<Round>) returns (log: seq<Event>)
      modifies this
      ensures log == RunLog(old(sessionId), old(lastSequence), rounds)
      ensures sessionId == SidFrom(old(sessionId), Conns(rounds))
      ensures lastSequence == SeqBefore(old(lastSequence), Conns(rounds))
    {
      ghost var sid, n := sessionId, lastSequence;
      var loginAttempts: nat, reconnectAttempts: nat := 0, 0;
      log := [];
      var i := 0;
      while i < |rounds|
        invariant 0 <= i <= |rounds|
        invariant Ran(sid, n, rounds[..i], log, sessionId, lastSequence, loginAttempts, reconnectAttempts)
      {
        match rounds[i] {
          case LoginFails =>
            RanUnconnected(sid, n, rounds, i, log, sessionId, lastSequence, loginAttempts, reconnectAttempts);
            loginAttempts := loginAttempts + 1;
            log := log + [Wait(LoginDelay(loginAttempts))];
          case GatewayFails =>
            RanUnconnected(sid, n, rounds, i, log, sessionId, lastSequence, loginAttempts, reconnectAttempts);
            loginAttempts := 0;
            log := log + [Wait(LOGIN_RETRY_DELAY)];
          case Connects(frames) =>
            RanConnected(sid, n, rounds, i, log, sessionId, lastSequence, loginAttempts, reconnectAttempts);
            loginAttempts := 0;
            var sent := RunWebsocket(frames);
            reconnectAttempts := reconnectAttempts + 1;
            log := log + [Sent(sent), Wait(ReconnectDelay(reconnectAttempts))];
        }
        i := i + 1;
      }
      assert rounds[..i] == rounds;
    }
  }
}
