/** The QQ access-token refresh: logins in flight, timer loops numbered by generation, and all
    interleavings of their resumptions on one event loop. */
module TokenRefresh {
  /** A timer loop: spawned but not yet waiting, waiting, or resumed by the timer firing or
      being cancelled. */
  datatype Phase = Spawned | Waiting | Fired | Aborted

  datatype Loop = Loop(gen: nat, phase: Phase)

  /** A login in flight was started by the run loop or by the refresh loop of a generation. */
  datatype Login = ByRun | ByRefresh(gen: nat)

  /** The last three fields are history: the generations that have started a refresh login,
      those whose refresh login failed, and whether the session was not running at some time
      since the last successful login. */
  datatype State = State(
    running: bool, generation: nat, loops: seq<Loop>, logins: seq<Login>,
    refreshed: seq<nat>, failed: seq<nat>, orphaned: bool)

  datatype Step =
    | RunLogs
    | LoginSucceeds(i: nat)
    | LoginFails(i: nat)
    | BeginsWaiting(i: nat)
    | TimerFires
    | Resumes(i: nat)
    | Stop
    | CancelTimer
    | Start

  const INIT := State(false, 0, [], [], [], [], true)

  function Without<T>(s: seq<T>, i: nat): seq<T>
    requires i < |s|
  {
    s[..i] + s[i + 1..]
  }

  /** Every waiting loop is resumed, the others are not concerned. */
  function Resumed(loops: seq<Loop>, phase: Phase): seq<Loop> {
    seq(|loops|, i requires 0 <= i < |loops| => if loops[i].phase.Waiting? then loops[i].(phase := phase) else loops[i])
  }

  predicate Enabled(s: State, step: Step) {
    match step
    case RunLogs => s.running
    case LoginSucceeds(i) => i < |s.logins|
    case LoginFails(i) => i < |s.logins|
    case BeginsWaiting(i) => i < |s.loops| && s.loops[i].phase.Spawned?
    case Resumes(i) => i < |s.loops| && (s.loops[i].phase.Fired? || s.loops[i].phase.Aborted?)
    case _ => true
  }

  /** Whether a resumed loop logs in: not cancelled, still running, still the newest. */
  predicate LogsIn(s: State, i: nat)
    requires i < |s.loops|
  {
    s.loops[i].phase.Fired? && s.running && s.loops[i].gen == s.generation
  }

  function Next(s: State, step: Step): State
    requires Enabled(s, step)
  {
    match step
    case RunLogs => s.(logins := s.logins + [ByRun])
    case LoginSucceeds(i) =>
      // The new generation cancels the timer under every older loop and spawns its own.
      var gen := s.generation + 1;
      s.(generation := gen, logins := Without(s.logins, i),
         loops := Resumed(s.loops, Aborted) + [Loop(gen, Spawned)], orphaned := !s.running)
    case LoginFails(i) =>
      s.(logins := Without(s.logins, i),
         failed := if s.logins[i].ByRefresh? then s.failed + [s.logins[i].gen] else s.failed)
    case BeginsWaiting(i) => s.(loops := s.loops[i := s.loops[i].(phase := Waiting)])
    case TimerFires => s.(loops := Resumed(s.loops, Fired))
    case Resumes(i) =>
      var ended := s.(loops := Without(s.loops, i));
      if LogsIn(s, i) then
        ended.(logins := s.logins + [ByRefresh(s.loops[i].gen)], refreshed := s.refreshed + [s.loops[i].gen])
      else ended
    case Stop => s.(running := false, orphaned := true)
    case CancelTimer => s.(loops := Resumed(s.loops, Aborted), orphaned := true)
    case Start => s.(running := true)
  }

  ghost predicate Legal(s: State, steps: seq<Step>)
    decreases |steps|
  {
    steps == [] || (Enabled(s, steps[0]) && Legal(Next(s, steps[0]), steps[1..]))
  }

  function Run(s: State, steps: seq<Step>): State
    requires Legal(s, steps)
    decreases |steps|
  {
    if steps == [] then s else Run(Next(s, steps[0]), steps[1..])
  }

  // ---------- the invariant ----------

  predicate DistinctLoops(loops: seq<Loop>) {
    forall i, j :: 0 <= i < j < |loops| ==> loops[i].gen != loops[j].gen
  }

  predicate DistinctGens(gens: seq<nat>) {
    forall i, j :: 0 <= i < j < |gens| ==> gens[i] != gens[j]
  }

  predicate HasLoop(loops: seq<Loop>, gen: nat) {
    exists i :: 0 <= i < |loops| && loops[i].gen == gen && !loops[i].phase.Aborted?
  }

  /** The refresh login of the generation is in flight. */
  predicate InFlight(logins: seq<Login>, gen: nat) {
    exists i :: 0 <= i < |logins| && logins[i] == ByRefresh(gen)
  }

  predicate DistinctRefreshes(logins: seq<Login>) {
    forall i, j :: 0 <= i < j < |logins| ==> logins[i].ByRefresh? ==> logins[i] != logins[j]
  }

  predicate LoopsOk(s: State) {
    && (forall i :: 0 <= i < |s.loops| ==> 1 <= s.loops[i].gen <= s.generation && s.loops[i].gen !in s.refreshed)
    && (forall i :: 0 <= i < |s.refreshed| ==> 1 <= s.refreshed[i] <= s.generation)
    && DistinctLoops(s.loops) && DistinctGens(s.refreshed)
    && (!s.orphaned ==>
          s.generation > 0 && s.running && (HasLoop(s.loops, s.generation) || s.generation in s.refreshed))
  }

  /** A refresh login that has started is in flight, has failed, or belongs to the past. */
  predicate LoginsOk(s: State) {
    && (forall i :: 0 <= i < |s.logins| && s.logins[i].ByRefresh? ==>
          s.logins[i].gen in s.refreshed && s.logins[i].gen !in s.failed)
    && (forall g :: g in s.failed ==> g in s.refreshed)
    && DistinctRefreshes(s.logins)
    && (s.generation in s.refreshed ==> s.generation in s.failed || InFlight(s.logins, s.generation))
  }

  predicate Inv(s: State) {
    LoopsOk(s) && LoginsOk(s)
  }

  lemma InitInv()
    ensures Inv(INIT)
  {
  }

  lemma ResumedKeeps(loops: seq<Loop>, phase: Phase)
    ensures |Resumed(loops, phase)| == |loops|
    ensures forall i :: 0 <= i < |loops| ==> Resumed(loops, phase)[i].gen == loops[i].gen
    ensures DistinctLoops(loops) ==> DistinctLoops(Resumed(loops, phase))
  {
  }

  lemma FiredKeepsLoop(loops: seq<Loop>, gen: nat)
    requires HasLoop(loops, gen)
    ensures HasLoop(Resumed(loops, Fired), gen)
  {
    var i :| 0 <= i < |loops| && loops[i].gen == gen && !loops[i].phase.Aborted?;
    assert Resumed(loops, Fired)[i].gen == gen;
  }

  lemma WaitingKeepsLoop(loops: seq<Loop>, k: nat, gen: nat)
    requires HasLoop(loops, gen) && k < |loops|
    ensures HasLoop(loops[k := loops[k].(phase := Waiting)], gen)
  {
    var i :| 0 <= i < |loops| && loops[i].gen == gen && !loops[i].phase.Aborted?;
    assert loops[k := loops[k].(phase := Waiting)][i].gen == gen;
  }

  lemma WithoutAt<T>(s: seq<T>, i: nat)
    requires i < |s|
    ensures |Without(s, i)| == |s| - 1
    ensures forall j :: 0 <= j < |s| - 1 ==> Without(s, i)[j] == s[if j < i then j else j + 1]
  {
  }

  lemma WithoutKeepsLoop(loops: seq<Loop>, k: nat, gen: nat)
    requires HasLoop(loops, gen) && k < |loops| && (loops[k].gen != gen || loops[k].phase.Aborted?)
    ensures HasLoop(Without(loops, k), gen)
  {
    var i :| 0 <= i < |loops| && loops[i].gen == gen && !loops[i].phase.Aborted?;
    WithoutAt(loops, k);
    var j := if i < k then i else i - 1;
    assert Without(loops, k)[j] == loops[i];
  }

  lemma SuccessKeepsLoops(s: State, i: nat)
    requires LoopsOk(s) && Enabled(s, LoginSucceeds(i))
    ensures LoopsOk(Next(s, LoginSucceeds(i)))
  {
    ResumedKeeps(s.loops, Aborted);
    var loops := Next(s, LoginSucceeds(i)).loops;
    assert loops[|s.loops|] == Loop(s.generation + 1, Spawned);
  }

  lemma ResumeKeepsLoops(s: State, i: nat)
    requires LoopsOk(s) && Enabled(s, Resumes(i))
    ensures LoopsOk(Next(s, Resumes(i)))
  {
    WithoutAt(s.loops, i);
    if !s.orphaned && HasLoop(s.loops, s.generation) && !LogsIn(s, i) {
      WithoutKeepsLoop(s.loops, i, s.generation);
    }
    assert LogsIn(s, i) ==> Next(s, Resumes(i)).refreshed[|s.refreshed|] == s.generation;
  }

  lemma TimerKeepsLoops(s: State, step: Step)
    requires LoopsOk(s) && Enabled(s, step) && (step.TimerFires? || step.CancelTimer?)
    ensures LoopsOk(Next(s, step))
  {
    if step.TimerFires? {
      ResumedKeeps(s.loops, Fired);
      if HasLoop(s.loops, s.generation) {
        FiredKeepsLoop(s.loops, s.generation);
      }
    } else {
      ResumedKeeps(s.loops, Aborted);
    }
  }

  lemma WaitKeepsLoops(s: State, i: nat)
    requires LoopsOk(s) && Enabled(s, BeginsWaiting(i))
    ensures LoopsOk(Next(s, BeginsWaiting(i)))
  {
    if HasLoop(s.loops, s.generation) {
      WaitingKeepsLoop(s.loops, i, s.generation);
    }
  }

  lemma StepKeepsLoops(s: State, step: Step)
    requires LoopsOk(s) && Enabled(s, step)
    ensures LoopsOk(Next(s, step))
  {
    match step
    case LoginSucceeds(i) => SuccessKeepsLoops(s, i);
    case Resumes(i) => ResumeKeepsLoops(s, i);
    case TimerFires => TimerKeepsLoops(s, step);
    case CancelTimer => TimerKeepsLoops(s, step);
    case BeginsWaiting(i) => WaitKeepsLoops(s, i);
    case _ =>
  }

  lemma WithoutKeepsFlight(logins: seq<Login>, k: nat, gen: nat)
    requires InFlight(logins, gen) && k < |logins| && logins[k] != ByRefresh(gen)
    ensures InFlight(Without(logins, k), gen)
  {
    var i :| 0 <= i < |logins| && logins[i] == ByRefresh(gen);
    WithoutAt(logins, k);
    var j := if i < k then i else i - 1;
    assert Without(logins, k)[j] == logins[i];
  }

  lemma PushKeepsFlight(logins: seq<Login>, x: Login, gen: nat)
    ensures InFlight(logins + [x], gen) <==> InFlight(logins, gen) || x == ByRefresh(gen)
  {
    if i :| 0 <= i < |logins| && logins[i] == ByRefresh(gen) {
      assert (logins + [x])[i] == logins[i];
    }
    assert (logins + [x])[|logins|] == x;
  }

  lemma FailureKeepsLogins(s: State, i: nat)
    requires LoginsOk(s) && Enabled(s, LoginFails(i))
    ensures LoginsOk(Next(s, LoginFails(i)))
  {
    WithoutAt(s.logins, i);
    if s.generation in s.refreshed && s.generation !in s.failed && s.logins[i] != ByRefresh(s.generation) {
      WithoutKeepsFlight(s.logins, i, s.generation);
    }
    assert s.logins[i].ByRefresh? ==> Next(s, LoginFails(i)).failed[|s.failed|] == s.logins[i].gen;
  }

  lemma ResumeKeepsLogins(s: State, i: nat)
    requires Inv(s) && Enabled(s, Resumes(i))
    ensures LoginsOk(Next(s, Resumes(i)))
  {
    if LogsIn(s, i) {
      PushKeepsFlight(s.logins, ByRefresh(s.generation), s.generation);
      assert forall j :: 0 <= j < |s.logins| && s.logins[j].ByRefresh? ==> s.logins[j].gen in s.refreshed;
    }
  }

  lemma StepKeepsLogins(s: State, step: Step)
    requires Inv(s) && Enabled(s, step)
    ensures LoginsOk(Next(s, step))
  {
    match step
    case LoginSucceeds(i) => WithoutAt(s.logins, i);
    case LoginFails(i) => FailureKeepsLogins(s, i);
    case Resumes(i) => ResumeKeepsLogins(s, i);
    case RunLogs => PushKeepsFlight(s.logins, ByRun, s.generation);
    case _ =>
  }

  lemma StepKeepsInv(s: State, step: Step)
    requires Inv(s) && Enabled(s, step)
    ensures Inv(Next(s, step))
  {
    StepKeepsLoops(s, step);
    StepKeepsLogins(s, step);
  }

  lemma {:induction false} RunKeepsInv(s: State, steps: seq<Step>)
    requires Inv(s) && Legal(s, steps)
    ensures Inv(Run(s, steps))
    decreases |steps|
  {
    if steps != [] {
      StepKeepsInv(s, steps[0]);
      RunKeepsInv(Next(s, steps[0]), steps[1..]);
    }
  }

  // ---------- what holds over every run ----------

  /** In every reachable state at most one loop is of the newest generation. */
  lemma AtMostOneNewest(steps: seq<Step>, i: nat, j: nat)
    requires Legal(INIT, steps)
    requires i < |Run(INIT, steps).loops| && j < |Run(INIT, steps).loops|
    requires Run(INIT, steps).loops[i].gen == Run(INIT, steps).loops[j].gen == Run(INIT, steps).generation
    ensures i == j
  {
    InitInv();
    RunKeepsInv(INIT, steps);
  }

  /** A generation overtaken before it refreshed never refreshes, whatever happens next. */
  lemma {:induction false} StaleNeverLogsIn(s: State, steps: seq<Step>, gen: nat)
    requires Legal(s, steps) && gen < s.generation
    ensures gen in Run(s, steps).refreshed <==> gen in s.refreshed
    decreases |steps|
  {
    if steps != [] {
      StaleNeverLogsIn(Next(s, steps[0]), steps[1..], gen);
    }
  }

  lemma {:induction false} StoppedNeverLogsIn(s: State, steps: seq<Step>)
    requires Legal(s, steps) && !s.running && Start !in steps
    ensures Run(s, steps).refreshed == s.refreshed && |Run(s, steps).logins| <= |s.logins|
    decreases |steps|
  {
    if steps != [] {
      assert steps[0] in steps;
      StoppedNeverLogsIn(Next(s, steps[0]), steps[1..]);
    }
  }

  /** After a stop no login starts, of the run loop or of a refresh, until the session is started. */
  lemma StopSilences(s: State, steps: seq<Step>)
    requires Legal(s, [Stop] + steps) && Start !in steps
    ensures Run(s, [Stop] + steps).refreshed == s.refreshed
    ensures |Run(s, [Stop] + steps).logins| <= |s.logins|
  {
    assert ([Stop] + steps)[1..] == steps;
    StoppedNeverLogsIn(Next(s, Stop), steps);
  }

  /** A successful login cancels every loop that waits and spawns one of the next generation; a
      timer that fires or is cancelled leaves none waiting either. */
  lemma SuccessCancelsWaiting(s: State, i: nat)
    requires Enabled(s, LoginSucceeds(i))
    ensures var t := Next(s, LoginSucceeds(i));
            && t.generation == s.generation + 1 && |t.loops| == |s.loops| + 1
            && t.loops[|s.loops|] == Loop(t.generation, Spawned)
            && forall k :: 0 <= k < |s.loops| ==>
                 t.loops[k] == Loop(s.loops[k].gen, if s.loops[k].phase.Waiting? then Aborted else s.loops[k].phase)
    ensures forall k :: 0 <= k < |s.loops| ==>
              && Next(s, TimerFires).loops[k] ==
                   Loop(s.loops[k].gen, if s.loops[k].phase.Waiting? then Fired else s.loops[k].phase)
              && Next(s, CancelTimer).loops[k] ==
                   Loop(s.loops[k].gen, if s.loops[k].phase.Waiting? then Aborted else s.loops[k].phase)
  {
  }

  /** Each generation starts at most one refresh login, so there are never more refresh logins
      than there were successful logins. */
  lemma OneRefreshPerGeneration(steps: seq<Step>)
    requires Legal(INIT, steps)
    ensures DistinctGens(Run(INIT, steps).refreshed)
    ensures |Run(INIT, steps).refreshed| <= Run(INIT, steps).generation
  {
    InitInv();
    RunKeepsInv(INIT, steps);
    DistinctFit(Run(INIT, steps).refreshed, Run(INIT, steps).generation);
  }

  lemma {:induction false} DistinctFit(gens: seq<nat>, n: nat)
    requires DistinctGens(gens) && forall i :: 0 <= i < |gens| ==> 1 <= gens[i] <= n
    ensures |gens| <= n
    decreases n
  {
    if gens != [] {
      assert gens[0] <= n;
      if i :| 0 <= i < |gens| && gens[i] == n {
        WithoutAt(gens, i);
        DistinctFit(Without(gens, i), n - 1);
      } else {
        DistinctFit(gens, n - 1);
      }
    }
  }

  /** While the session has kept running since the last successful login, that login's refresh
      is still to come, by a live loop or a login in flight, exactly unless it has failed. */
  lemma RefreshAliveIff(steps: seq<Step>)
    requires Legal(INIT, steps) && !Run(INIT, steps).orphaned
    ensures var s := Run(INIT, steps);
            HasLoop(s.loops, s.generation) || InFlight(s.logins, s.generation) <==> s.generation !in s.failed
  {
    InitInv();
    RunKeepsInv(INIT, steps);
    var s := Run(INIT, steps);
    if i :| 0 <= i < |s.loops| && s.loops[i].gen == s.generation && !s.loops[i].phase.Aborted? {
      assert s.generation !in s.refreshed;
    }
  }

  lemma RunStep(s: State, step: Step, rest: seq<Step>)
    requires Enabled(s, step) && Legal(Next(s, step), rest)
    ensures Legal(s, [step] + rest) && Run(s, [step] + rest) == Run(Next(s, step), rest)
  {
    assert ([step] + rest)[1..] == rest;
  }

  /** One login, and its loop waiting for the timer. */
  const ARMED := State(true, 1, [Loop(1, Waiting)], [], [], [], false)

  const DEAD := State(true, 1, [], [], [1], [1], false)

  lemma Arming(rest: seq<Step>)
    requires Legal(ARMED, rest)
    ensures Legal(INIT, [Start] + ([RunLogs] + ([LoginSucceeds(0)] + ([BeginsWaiting(0)] + rest))))
    ensures Run(INIT, [Start] + ([RunLogs] + ([LoginSucceeds(0)] + ([BeginsWaiting(0)] + rest)))) == Run(ARMED, rest)
  {
    var s1 := Next(INIT, Start);
    var s2 := Next(s1, RunLogs);
    var s3 := Next(s2, LoginSucceeds(0));
    assert s3 == State(true, 1, [Loop(1, Spawned)], [], [], [], false);
    assert Next(s3, BeginsWaiting(0)) == ARMED;
    RunStep(s3, BeginsWaiting(0), rest);
    RunStep(s2, LoginSucceeds(0), [BeginsWaiting(0)] + rest);
    RunStep(s1, RunLogs, [LoginSucceeds(0)] + ([BeginsWaiting(0)] + rest));
    RunStep(INIT, Start, [RunLogs] + ([LoginSucceeds(0)] + ([BeginsWaiting(0)] + rest)));
  }

  lemma Dying() returns (steps: seq<Step>)
    ensures Legal(ARMED, steps) && Run(ARMED, steps) == DEAD
  {
    var s5 := Next(ARMED, TimerFires);
    assert s5 == State(true, 1, [Loop(1, Fired)], [], [], [], false);
    var s6 := Next(s5, Resumes(0));
    assert s6 == State(true, 1, [], [ByRefresh(1)], [1], [], false);
    assert Next(s6, LoginFails(0)) == DEAD;
    RunStep(s6, LoginFails(0), []);
    RunStep(s5, Resumes(0), [LoginFails(0)]);
    RunStep(ARMED, TimerFires, [Resumes(0)] + [LoginFails(0)]);
    steps := [TimerFires] + ([Resumes(0)] + [LoginFails(0)]);
  }

  /** One failed refresh login, and nothing re-arms the timer: the refresh is lost although the
      session never stopped. */
  lemma RefreshCanDie() returns (steps: seq<Step>)
    ensures Legal(INIT, steps) && Run(INIT, steps) == DEAD
  {
    var end := Dying();
    Arming(end);
    steps := [Start] + ([RunLogs] + ([LoginSucceeds(0)] + ([BeginsWaiting(0)] + end)));
  }
}
