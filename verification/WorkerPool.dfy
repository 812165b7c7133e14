/** The per-conversation worker pool as a transition system.  A step is one critical
    section or one condition-variable action of one thread; any thread may move next. */
module WorkerPool {

  datatype Event = Event(actor: string, text: string)

  /** An event without an actor belongs to the conversation "global". */
  function KeyOf(e: Event): string {
    if e.actor == "" then "global" else e.actor
  }

  /** Where a worker thread is in its loop.  Decided: it holds the slot's lock, found its wait
      predicate false and is about to block. */
  datatype Worker = Ready | Decided | Asleep | Processing(e: Event) | Exited

  /** One conversation's slot.  The last three fields are history: everything pushed,
      everything processed, and everything pushed after the worker had exited. */
  datatype Slot = Slot(
    key: string, queue: seq<Event>, stopping: bool, worker: Worker,
    pushed: seq<Event>, done: seq<Event>, late: seq<Event>)

  /** An enqueue call in progress: slot found but event not pushed yet; pushed but not notified. */
  datatype Caller = Found(slot: nat, e: Event) | Pushed(slot: nat)

  /** The stop call: flag set; marking slots one by one (the set still to mark);
      one slot marked and about to be notified; joining the workers. */
  datatype Stop = Idle | Flagged | Marking(todo: set<nat>) | Notifying(slot: nat, todo: set<nat>) | Joining

  /** `racing` is history: some enqueue was in progress when stop began, or began later. */
  datatype Pool = Pool(
    flag: bool, table: map<string, nat>, slots: map<nat, Slot>, nextSlot: nat,
    callers: map<nat, Caller>, stop: Stop, racing: bool)

  datatype Step =
    | Find(thread: nat, e: Event)
    | Push(thread: nat)
    | Notify(thread: nat)
    | Decide(slot: nat)
    | Sleep(slot: nat)
    | Wake(slot: nat)
    | Finish(slot: nat)
    | StopFlag
    | StopLock
    | StopMark(slot: nat)
    | StopNotify
    | StopJoin
    | StopReturn

  const INITIAL := Pool(false, map[], map[], 0, map[], Idle, false)

  /** stop holds the map mutex from its first loop to its return. */
  predicate MapLocked(p: Pool) {
    p.stop.Marking? || p.stop.Notifying? || p.stop.Joining?
  }

  /** In the table, hence not destroyed. */
  predicate Live(p: Pool, id: nat) {
    id in p.slots && p.slots[id].key in p.table && p.table[p.slots[id].key] == id
  }

  predicate Enabled(p: Pool, s: Step) {
    match s
    case Find(t, _) => t !in p.callers && !MapLocked(p)
    case Push(t) => t in p.callers && p.callers[t].Found? && Live(p, p.callers[t].slot)
                    && !p.slots[p.callers[t].slot].worker.Decided?
    case Notify(t) => t in p.callers && p.callers[t].Pushed? && Live(p, p.callers[t].slot)
    case Decide(id) => id in p.slots && p.slots[id].worker.Ready?
    case Sleep(id) => id in p.slots && p.slots[id].worker.Decided?
    case Wake(id) => id in p.slots && p.slots[id].worker.Asleep?
    case Finish(id) => id in p.slots && p.slots[id].worker.Processing?
    case StopFlag => p.stop.Idle?
    case StopLock => p.stop.Flagged?
    case StopMark(id) => p.stop.Marking? && id in p.stop.todo && id in p.slots && !p.slots[id].worker.Decided?
    case StopNotify => p.stop.Notifying? && p.stop.slot in p.slots
    case StopJoin => p.stop.Marking? && p.stop.todo == {}
    case StopReturn => p.stop.Joining? && forall id :: id in p.slots && Live(p, id) ==> p.slots[id].worker.Exited?
  }

  function Woken(s: Slot): Slot {
    if s.worker.Asleep? then s.(worker := Ready) else s
  }

  function AfterPush(s: Slot, e: Event): Slot {
    s.(queue := s.queue + [e], pushed := s.pushed + [e],
       late := if s.worker.Exited? then s.late + [e] else s.late)
  }

  /** The worker holds the lock and evaluates its wait predicate: block, exit or take a message. */
  function AfterDecide(s: Slot, flag: bool): Slot {
    if !(s.stopping || flag || s.queue != []) then s.(worker := Decided)
    else if (s.stopping || flag) && s.queue == [] then s.(worker := Exited)
    else s.(worker := Processing(s.queue[0]), queue := s.queue[1..])
  }

  function AfterFinish(s: Slot): Slot
    requires s.worker.Processing?
  {
    s.(worker := Ready, done := s.done + [s.worker.e])
  }

  function Apply(p: Pool, s: Step): Pool
    requires Enabled(p, s)
  {
    match s
    case Find(t, e) =>
      var key := KeyOf(e);
      var q := p.(racing := p.racing || p.flag);
      if key in p.table then q.(callers := p.callers[t := Found(p.table[key], e)])
      else q.(callers := p.callers[t := Found(p.nextSlot, e)], table := p.table[key := p.nextSlot],
              slots := p.slots[p.nextSlot := Slot(key, [], false, Ready, [], [], [])], nextSlot := p.nextSlot + 1)
    case Push(t) =>
      var id := p.callers[t].slot;
      p.(slots := p.slots[id := AfterPush(p.slots[id], p.callers[t].e)], callers := p.callers[t := Pushed(id)])
    case Notify(t) =>
      var id := p.callers[t].slot;
      p.(slots := p.slots[id := Woken(p.slots[id])], callers := p.callers - {t})
    case Decide(id) => p.(slots := p.slots[id := AfterDecide(p.slots[id], p.flag)])
    case Sleep(id) => p.(slots := p.slots[id := p.slots[id].(worker := Asleep)])
    case Wake(id) => p.(slots := p.slots[id := Woken(p.slots[id])])
    case Finish(id) => p.(slots := p.slots[id := AfterFinish(p.slots[id])])
    case StopFlag => p.(flag := true, stop := Flagged, racing := p.racing || p.callers != map[])
    case StopLock => p.(stop := Marking(p.table.Values))
    case StopMark(id) =>
      p.(slots := p.slots[id := p.slots[id].(stopping := true)], stop := Notifying(id, p.stop.todo - {id}))
    case StopNotify =>
      p.(slots := p.slots[p.stop.slot := Woken(p.slots[p.stop.slot])], stop := Marking(p.stop.todo))
    case StopJoin => p.(stop := Joining)
    case StopReturn => p.(stop := Idle, table := map[])
  }

  // ---------- the invariant ----------

  function InFlight(s: Slot): seq<Event> {
    if s.worker.Processing? then [s.worker.e] else []
  }

  /** stop still has to notify this slot. */
  predicate StopOwes(stop: Stop, id: nat) {
    match stop
    case Idle => false
    case Flagged => true
    case Marking(todo) => id in todo
    case Notifying(slot, todo) => id == slot || id in todo
    case Joining => false
  }

  /** stop still has to mark this slot, which needs its lock. */
  predicate StopWillMark(stop: Stop, id: nat) {
    match stop
    case Idle => false
    case Flagged => true
    case Marking(todo) => id in todo
    case Notifying(_, todo) => id in todo
    case Joining => false
  }

  ghost predicate CallerOwes(callers: map<nat, Caller>, id: nat) {
    exists t :: t in callers && callers[t] == Pushed(id)
  }

  /** What a slot's own fields keep: FIFO conservation, and what exiting meant. */
  ghost predicate HistoryOk(s: Slot, flag: bool) {
    && s.pushed == s.done + InFlight(s) + s.queue
    && (s.stopping ==> flag)
    && (if s.worker.Exited? then flag && s.queue == s.late else s.late == [])
    && (s.worker.Decided? ==> s.queue == [] && !s.stopping)
  }

  /** A worker that blocks, or is about to, although it should run is owed a notification. */
  ghost predicate WakeupOk(id: nat, s: Slot, flag: bool, stop: Stop, callers: map<nat, Caller>) {
    && (s.worker.Decided? && flag ==> StopWillMark(stop, id))
    && (s.worker.Asleep? && flag ==> StopOwes(stop, id))
    && (s.worker.Asleep? && s.queue != [] ==> CallerOwes(callers, id))
  }

  ghost predicate KeyOk(s: Slot) {
    forall e :: e in s.pushed ==> KeyOf(e) == s.key
  }

  ghost predicate SlotOk(id: nat, s: Slot, flag: bool, stop: Stop, callers: map<nat, Caller>) {
    HistoryOk(s, flag) && WakeupOk(id, s, flag, stop, callers) && KeyOk(s)
  }

  ghost predicate SlotsOk(p: Pool) {
    forall id :: id in p.slots ==> SlotOk(id, p.slots[id], p.flag, p.stop, p.callers)
  }

  ghost predicate TableOk(p: Pool) {
    && (forall id :: id in p.slots ==> id < p.nextSlot)
    && (forall id :: id in p.slots && !Live(p, id) ==> p.slots[id].worker.Exited?)
    && (forall key :: key in p.table ==> p.table[key] in p.slots && p.slots[p.table[key]].key == key)
  }

  ghost predicate CallersOk(p: Pool) {
    && (forall t :: t in p.callers ==> p.callers[t].slot in p.slots)
    && (forall t :: t in p.callers && p.callers[t].Found? ==> KeyOf(p.callers[t].e) == p.slots[p.callers[t].slot].key)
    && (p.flag && !p.racing ==> p.callers == map[])
    && (p.racing ==> p.flag)
  }

  ghost predicate StopOk(p: Pool) {
    && (!p.stop.Idle? ==> p.flag)
    && (p.stop.Marking? || p.stop.Notifying? ==> p.stop.todo <= p.table.Values)
    && (p.stop.Notifying? ==> p.stop.slot in p.table.Values)
  }

  ghost predicate Inv(p: Pool) {
    SlotsOk(p) && TableOk(p) && CallersOk(p) && StopOk(p)
  }

  function SetSlot(p: Pool, id: nat, s: Slot): Pool {
    p.(slots := p.slots[id := s])
  }

  /** One slot changes and nothing else does. */
  lemma SetSlotKeepsInv(p: Pool, id: nat, s: Slot)
    requires Inv(p) && id in p.slots && s.key == p.slots[id].key
    requires SlotOk(id, s, p.flag, p.stop, p.callers)
    requires p.slots[id].worker.Exited? ==> s.worker.Exited?
    ensures Inv(SetSlot(p, id, s))
  {
    TableKept(p, SetSlot(p, id, s));
  }

  /** Facts that survive a change of callers and a change of slots that keeps keys and exits. */
  lemma TableKept(p: Pool, q: Pool)
    requires TableOk(p) && q.table == p.table && q.nextSlot == p.nextSlot && q.slots.Keys == p.slots.Keys
    requires forall i :: i in p.slots ==> q.slots[i].key == p.slots[i].key
    requires forall i :: i in p.slots && p.slots[i].worker.Exited? ==> q.slots[i].worker.Exited?
    ensures TableOk(q)
  {
    assert forall i :: i in q.slots ==> Live(q, i) == Live(p, i);
  }

  lemma FindSlots(p: Pool, t: nat, e: Event)
    requires Inv(p) && Enabled(p, Find(t, e))
    ensures SlotsOk(Apply(p, Find(t, e)))
  {
    var q := Apply(p, Find(t, e));
    forall i | i in q.slots ensures SlotOk(i, q.slots[i], q.flag, q.stop, q.callers) {
      if i in p.slots {
        assert q.slots[i] == p.slots[i];
        KeepsOwing(p.callers, q.callers, t, i);
      }
    }
  }

  lemma FindTable(p: Pool, t: nat, e: Event)
    requires Inv(p) && Enabled(p, Find(t, e))
    ensures TableOk(Apply(p, Find(t, e))) && StopOk(Apply(p, Find(t, e)))
  {
    var q := Apply(p, Find(t, e));
    forall i | i in q.slots && !Live(q, i) ensures q.slots[i].worker.Exited? {
      assert !Live(p, i);
    }
  }

  lemma FindCallers(p: Pool, t: nat, e: Event)
    requires TableOk(p) && CallersOk(p) && Enabled(p, Find(t, e))
    ensures CallersOk(Apply(p, Find(t, e)))
  {
  }

  lemma KeepsOwing(before: map<nat, Caller>, after: map<nat, Caller>, t: nat, id: nat)
    requires forall u :: u in before && u != t ==> u in after && after[u] == before[u]
    requires t !in before || before[t] != Pushed(id)
    ensures CallerOwes(before, id) ==> CallerOwes(after, id)
  {
    if CallerOwes(before, id) {
      var u :| u in before && before[u] == Pushed(id);
      assert after[u] == Pushed(id);
    }
  }

  lemma AfterPushOk(s: Slot, e: Event, flag: bool)
    requires HistoryOk(s, flag) && KeyOk(s) && !s.worker.Decided? && KeyOf(e) == s.key
    ensures HistoryOk(AfterPush(s, e), flag) && KeyOk(AfterPush(s, e))
  {
    assert s.done + InFlight(s) + (s.queue + [e]) == (s.done + InFlight(s) + s.queue) + [e];
  }

  lemma PushSlots(p: Pool, t: nat)
    requires SlotsOk(p) && CallersOk(p) && Enabled(p, Push(t))
    ensures SlotsOk(Apply(p, Push(t)))
  {
    var q := Apply(p, Push(t));
    var id, e := p.callers[t].slot, p.callers[t].e;
    AfterPushOk(p.slots[id], e, p.flag);
    assert q.callers[t] == Pushed(id);
    forall i | i in q.slots ensures SlotOk(i, q.slots[i], q.flag, q.stop, q.callers) {
      if i != id {
        assert SlotOk(i, p.slots[i], p.flag, p.stop, p.callers);
        KeepsOwing(p.callers, q.callers, t, i);
      }
    }
  }

  lemma PushRest(p: Pool, t: nat)
    requires TableOk(p) && CallersOk(p) && StopOk(p) && Enabled(p, Push(t))
    ensures TableOk(Apply(p, Push(t))) && CallersOk(Apply(p, Push(t))) && StopOk(Apply(p, Push(t)))
  {
    TableKept(p, Apply(p, Push(t)));
  }

  lemma NotifySlots(p: Pool, t: nat)
    requires SlotsOk(p) && Enabled(p, Notify(t))
    ensures SlotsOk(Apply(p, Notify(t)))
  {
    var q := Apply(p, Notify(t));
    var id := p.callers[t].slot;
    forall i | i in q.slots ensures SlotOk(i, q.slots[i], q.flag, q.stop, q.callers) {
      assert SlotOk(i, p.slots[i], p.flag, p.stop, p.callers);
      if i != id {
        KeepsOwing(p.callers, q.callers, t, i);
      }
    }
  }

  lemma NotifyRest(p: Pool, t: nat)
    requires TableOk(p) && CallersOk(p) && StopOk(p) && Enabled(p, Notify(t))
    ensures TableOk(Apply(p, Notify(t))) && CallersOk(Apply(p, Notify(t))) && StopOk(Apply(p, Notify(t)))
  {
    TableKept(p, Apply(p, Notify(t)));
  }

  lemma AfterDecideOk(s: Slot, flag: bool)
    requires HistoryOk(s, flag) && KeyOk(s) && s.worker.Ready?
    ensures HistoryOk(AfterDecide(s, flag), flag) && KeyOk(AfterDecide(s, flag))
  {
    if s.queue != [] {
      assert s.done + [] + s.queue == s.done + [s.queue[0]] + s.queue[1..];
    }
  }

  lemma AfterFinishOk(s: Slot, flag: bool)
    requires HistoryOk(s, flag) && KeyOk(s) && s.worker.Processing?
    ensures HistoryOk(AfterFinish(s), flag) && KeyOk(AfterFinish(s))
  {
    assert s.done + [s.worker.e] + s.queue == (s.done + [s.worker.e]) + [] + s.queue;
  }

  lemma DecideKeepsInv(p: Pool, id: nat)
    requires Inv(p) && Enabled(p, Decide(id))
    ensures Inv(Apply(p, Decide(id)))
  {
    AfterDecideOk(p.slots[id], p.flag);
    SetSlotKeepsInv(p, id, AfterDecide(p.slots[id], p.flag));
  }

  lemma FinishKeepsInv(p: Pool, id: nat)
    requires Inv(p) && Enabled(p, Finish(id))
    ensures Inv(Apply(p, Finish(id)))
  {
    AfterFinishOk(p.slots[id], p.flag);
    SetSlotKeepsInv(p, id, AfterFinish(p.slots[id]));
  }

  lemma SleepKeepsInv(p: Pool, id: nat)
    requires Inv(p) && Enabled(p, Sleep(id))
    ensures Inv(Apply(p, Sleep(id)))
  {
    SetSlotKeepsInv(p, id, p.slots[id].(worker := Asleep));
  }

  lemma WakeKeepsInv(p: Pool, id: nat)
    requires Inv(p) && Enabled(p, Wake(id))
    ensures Inv(Apply(p, Wake(id)))
  {
    SetSlotKeepsInv(p, id, Woken(p.slots[id]));
  }

  lemma StopKeepsInv(p: Pool, s: Step)
    requires Inv(p) && Enabled(p, s)
    requires s.StopFlag? || s.StopLock? || s.StopJoin? || s.StopReturn?
    ensures Inv(Apply(p, s))
  {
    var q := Apply(p, s);
    forall i | i in q.slots ensures SlotOk(i, q.slots[i], q.flag, q.stop, q.callers) {
      if s.StopLock? && !p.slots[i].worker.Exited? {
        assert Live(p, i);
        assert p.table[p.slots[i].key] in p.table.Values;
      }
    }
    if !s.StopReturn? {
      assert forall i :: i in q.slots ==> Live(q, i) == Live(p, i);
    }
  }

  lemma SignalSlots(p: Pool, s: Step)
    requires SlotsOk(p) && StopOk(p) && Enabled(p, s) && (s.StopMark? || s.StopNotify?)
    ensures SlotsOk(Apply(p, s))
  {
    var q := Apply(p, s);
    forall i | i in q.slots ensures SlotOk(i, q.slots[i], q.flag, q.stop, q.callers) {
      assert SlotOk(i, p.slots[i], p.flag, p.stop, p.callers);
    }
  }

  lemma SignalRest(p: Pool, s: Step)
    requires TableOk(p) && CallersOk(p) && StopOk(p) && Enabled(p, s) && (s.StopMark? || s.StopNotify?)
    ensures TableOk(Apply(p, s)) && CallersOk(Apply(p, s)) && StopOk(Apply(p, s))
  {
    TableKept(p, Apply(p, s));
  }

  lemma StepKeepsInv(p: Pool, s: Step)
    requires Inv(p) && Enabled(p, s)
    ensures Inv(Apply(p, s))
  {
    match s
    case Find(t, e) => FindSlots(p, t, e); FindTable(p, t, e); FindCallers(p, t, e);
    case Push(t) => PushSlots(p, t); PushRest(p, t);
    case Notify(t) => NotifySlots(p, t); NotifyRest(p, t);
    case Decide(id) => DecideKeepsInv(p, id);
    case Sleep(id) => SleepKeepsInv(p, id);
    case Wake(id) => WakeKeepsInv(p, id);
    case Finish(id) => FinishKeepsInv(p, id);
    case StopFlag => StopKeepsInv(p, s);
    case StopLock => StopKeepsInv(p, s);
    case StopMark(_) => SignalSlots(p, s); SignalRest(p, s);
    case StopNotify => SignalSlots(p, s); SignalRest(p, s);
    case StopJoin => StopKeepsInv(p, s);
    case StopReturn => StopKeepsInv(p, s);
  }

  // ---------- runs ----------

  ghost predicate Run(p: Pool, steps: seq<Step>, q: Pool)
    decreases |steps|
  {
    if steps == [] then p == q
    else Enabled(p, steps[0]) && Run(Apply(p, steps[0]), steps[1..], q)
  }

  lemma {:induction false} RunKeepsInv(p: Pool, steps: seq<Step>, q: Pool)
    requires Inv(p) && Run(p, steps, q)
    ensures Inv(q)
    decreases |steps|
  {
    if steps != [] {
      StepKeepsInv(p, steps[0]);
      RunKeepsInv(Apply(p, steps[0]), steps[1..], q);
    }
  }

  ghost predicate Reachable(p: Pool) {
    exists steps :: Run(INITIAL, steps, p)
  }

  lemma ReachableInv(p: Pool)
    requires Reachable(p)
    ensures Inv(p)
  {
    var steps :| Run(INITIAL, steps, p);
    RunKeepsInv(INITIAL, steps, p);
  }

  /** Per conversation, events are processed in the order they were pushed, none is lost or
      duplicated inside the pool, and no two of the same conversation are in flight. */
  lemma SerialPerConversation(p: Pool)
    requires Reachable(p)
    ensures forall id :: id in p.slots ==>
              p.slots[id].pushed == p.slots[id].done + InFlight(p.slots[id]) + p.slots[id].queue
    ensures forall id, e :: id in p.slots && e in p.slots[id].pushed ==>
              p.slots[id].key == if e.actor == "" then "global" else e.actor
    ensures forall i, j :: i in p.slots && j in p.slots && p.slots[i].key == p.slots[j].key ==>
              p.slots[i].worker.Processing? && p.slots[j].worker.Processing? ==> i == j
  {
    ReachableInv(p);
    assert forall i :: i in p.slots && p.slots[i].worker.Processing? ==> Live(p, i);
  }

  lemma InFlightWasPushed(p: Pool, id: nat)
    requires Inv(p) && id in p.slots && p.slots[id].worker.Processing?
    ensures p.slots[id].worker.e in p.slots[id].pushed && Live(p, id)
  {
    var s := p.slots[id];
    assert SlotOk(id, s, p.flag, p.stop, p.callers);
    assert s.pushed[|s.done|] == s.worker.e;
  }

  ghost predicate ShareActor(a: seq<Event>, b: seq<Event>) {
    exists d, e :: d in a && e in b && d.actor == e.actor
  }

  /** So the events of one actor never meet in two places: two slots of the table that were given
      some are one slot, and two workers that process one are one worker. */
  lemma OneSlotPerActor(p: Pool, i: nat, j: nat)
    requires Reachable(p) && i in p.slots && j in p.slots
    ensures (Live(p, i) && Live(p, j) && ShareActor(p.slots[i].pushed, p.slots[j].pushed)) ==> i == j
    ensures p.slots[i].worker.Processing? && p.slots[j].worker.Processing? ==>
              p.slots[i].worker.e.actor == p.slots[j].worker.e.actor ==> i == j
  {
    ReachableInv(p);
    SerialPerConversation(p);
    if p.slots[i].worker.Processing? {
      InFlightWasPushed(p, i);
    }
    if p.slots[j].worker.Processing? {
      InFlightWasPushed(p, j);
    }
  }

  // ---------- what an enqueue is given is what is pushed ----------

  /** What a step pushes to a slot: the event its enqueue call was given. */
  function Given(p: Pool, held: map<nat, Event>, s: Step, id: nat): seq<Event>
    requires Enabled(p, s)
  {
    if s.Push? && p.callers[s.thread].slot == id && s.thread in held then [held[s.thread]] else []
  }

  function HeldAfter(held: map<nat, Event>, s: Step): map<nat, Event> {
    if s.Find? then held[s.thread := s.e] else held
  }

  /** The events pushed to a slot along a run, each as its enqueue call was given it; `held` has
      the events of the calls in progress. */
  ghost function Enqueued(p: Pool, held: map<nat, Event>, steps: seq<Step>, id: nat): seq<Event>
    decreases |steps|
  {
    if steps == [] || !Enabled(p, steps[0]) then []
    else Given(p, held, steps[0], id) + Enqueued(Apply(p, steps[0]), HeldAfter(held, steps[0]), steps[1..], id)
  }

  ghost predicate Holds(callers: map<nat, Caller>, held: map<nat, Event>) {
    forall t :: t in callers && callers[t].Found? ==> t in held && held[t] == callers[t].e
  }

  function PushedAt(p: Pool, id: nat): seq<Event> {
    if id in p.slots then p.slots[id].pushed else []
  }

  lemma PushGives(p: Pool, held: map<nat, Event>, t: nat, id: nat)
    requires Holds(p.callers, held) && Enabled(p, Push(t))
    ensures PushedAt(Apply(p, Push(t)), id) == PushedAt(p, id) + Given(p, held, Push(t), id)
  {
    assert PushedAt(p, id) + [] == PushedAt(p, id);
  }

  lemma OthersGiveNothing(p: Pool, s: Step, id: nat)
    requires TableOk(p) && Enabled(p, s) && !s.Push?
    ensures PushedAt(Apply(p, s), id) == PushedAt(p, id)
  {
    if s.Find? {
      assert p.nextSlot !in p.slots;
    }
  }

  lemma StepGives(p: Pool, held: map<nat, Event>, s: Step, id: nat)
    requires TableOk(p) && Holds(p.callers, held) && Enabled(p, s)
    ensures PushedAt(Apply(p, s), id) == PushedAt(p, id) + Given(p, held, s, id)
    ensures Holds(Apply(p, s).callers, HeldAfter(held, s))
  {
    if s.Push? {
      PushGives(p, held, s.thread, id);
    } else {
      OthersGiveNothing(p, s, id);
      assert PushedAt(p, id) + [] == PushedAt(p, id);
    }
  }

  lemma ConcatThree(a: seq<Event>, b: seq<Event>, c: seq<Event>)
    ensures (a + b) + c == a + (b + c)
  {
  }

  lemma {:induction false} PushedAreEnqueued(p: Pool, held: map<nat, Event>, steps: seq<Step>, q: Pool, id: nat)
    requires Inv(p) && Holds(p.callers, held) && Run(p, steps, q)
    ensures PushedAt(q, id) == PushedAt(p, id) + Enqueued(p, held, steps, id)
    decreases |steps|
  {
    if steps == [] {
      assert PushedAt(p, id) + [] == PushedAt(p, id);
    } else {
      var s, rest := steps[0], steps[1..];
      StepKeepsInv(p, s);
      StepGives(p, held, s, id);
      PushedAreEnqueued(Apply(p, s), HeldAfter(held, s), rest, q, id);
      ConcatThree(PushedAt(p, id), Given(p, held, s, id), Enqueued(Apply(p, s), HeldAfter(held, s), rest, id));
    }
  }

  /** Over every run from the start: what was pushed to a slot is what the enqueues that pushed to
      it were called with, in the order they pushed. */
  lemma EventsArrive(steps: seq<Step>, q: Pool, id: nat)
    requires Run(INITIAL, steps, q) && id in q.slots
    ensures q.slots[id].pushed == Enqueued(INITIAL, map[], steps, id)
  {
    PushedAreEnqueued(INITIAL, map[], steps, q, id);
    assert [] + Enqueued(INITIAL, map[], steps, id) == Enqueued(INITIAL, map[], steps, id);
  }

  /** The wait predicate of a worker. */
  predicate ShouldRun(s: Slot, flag: bool) {
    s.stopping || flag || s.queue != []
  }

  /** No lost wake-up: a sleeping worker that should run is owed a notification, by an
      enqueue that has pushed but not notified or by a stop that has not reached it. */
  lemma NoLostWakeup(p: Pool, id: nat)
    requires Reachable(p) && id in p.slots
    requires p.slots[id].worker.Asleep? && ShouldRun(p.slots[id], p.flag)
    ensures Live(p, id)
    ensures CallerOwes(p.callers, id) || StopOwes(p.stop, id)
  {
    ReachableInv(p);
    assert SlotOk(id, p.slots[id], p.flag, p.stop, p.callers);
  }

  /** An event in the queue of a worker that has not exited is never stuck: the worker can
      move, or a notification that will wake it can be delivered. */
  lemma QueuedIsNotStuck(p: Pool, id: nat)
    requires Reachable(p) && id in p.slots && p.slots[id].queue != [] && !p.slots[id].worker.Exited?
    ensures Enabled(p, Decide(id)) || Enabled(p, Finish(id)) ||
            exists t :: Enabled(p, Notify(t)) && p.callers[t].slot == id
  {
    ReachableInv(p);
    var s := p.slots[id];
    assert SlotOk(id, s, p.flag, p.stop, p.callers);
    if s.worker.Asleep? {
      var t :| t in p.callers && p.callers[t] == Pushed(id);
      assert Live(p, id);
      assert Enabled(p, Notify(t));
    }
  }

  /** And it gets on: some step takes a ready worker to the first event of its queue, finishes the
      event a worker is at, or wakes a sleeping one. */
  lemma QueuedAdvances(p: Pool, id: nat) returns (step: Step)
    requires Reachable(p) && id in p.slots && p.slots[id].queue != [] && !p.slots[id].worker.Exited?
    ensures Enabled(p, step)
    ensures var s, t := p.slots[id], Apply(p, step).slots[id];
            && (s.worker.Ready? ==> t == s.(worker := Processing(s.queue[0]), queue := s.queue[1..]))
            && (s.worker.Processing? ==> t == s.(worker := Ready, done := s.done + [s.worker.e]))
            && (s.worker.Asleep? ==> t == s.(worker := Ready))
            && !s.worker.Decided?
  {
    ReachableInv(p);
    var s := p.slots[id];
    assert SlotOk(id, s, p.flag, p.stop, p.callers);
    if s.worker.Asleep? {
      var t :| t in p.callers && p.callers[t] == Pushed(id);
      assert Live(p, id);
      step := Notify(t);
    } else if s.worker.Ready? {
      step := Decide(id);
    } else {
      step := Finish(id);
    }
  }

  // ---------- what stop guarantees ----------

  /** When stop may return, the undelivered events are exactly those pushed to a slot whose
      worker had already exited. */
  lemma StopDeliversAllButLate(p: Pool, id: nat)
    requires Reachable(p) && Enabled(p, StopReturn) && id in p.slots
    ensures p.slots[id].pushed == p.slots[id].done + p.slots[id].late
    ensures p.slots[id].done == p.slots[id].pushed <==> p.slots[id].late == []
  {
    ReachableInv(p);
    var s := p.slots[id];
    assert SlotOk(id, s, p.flag, p.stop, p.callers);
    assert s.worker.Exited?;
    assert s.done + [] + s.queue == s.done + s.queue;
    if s.done == s.pushed {
      assert |s.done| == |s.done| + |s.late|;
    }
  }

  ghost predicate NothingLate(p: Pool) {
    forall id :: id in p.slots ==> p.slots[id].late == []
  }

  lemma {:induction false} UnracedNothingLate(p: Pool, steps: seq<Step>, q: Pool)
    requires Inv(p) && NothingLate(p) && Run(p, steps, q) && !q.racing
    ensures NothingLate(q)
    decreases |steps|
  {
    if steps != [] {
      var s := steps[0];
      var p' := Apply(p, s);
      StepKeepsInv(p, s);
      RacingIsPermanent(p', steps[1..], q);
      UnracedStepNothingLate(p, s);
      UnracedNothingLate(p', steps[1..], q);
    }
  }

  lemma UnracedPushIsInTime(p: Pool, t: nat)
    requires SlotsOk(p) && CallersOk(p) && Enabled(p, Push(t)) && !p.racing
    ensures !p.slots[p.callers[t].slot].worker.Exited?
  {
    var id := p.callers[t].slot;
    assert SlotOk(id, p.slots[id], p.flag, p.stop, p.callers);
    assert p.callers != map[];
  }

  lemma UnracedStepNothingLate(p: Pool, s: Step)
    requires SlotsOk(p) && CallersOk(p) && NothingLate(p) && Enabled(p, s) && !Apply(p, s).racing
    ensures NothingLate(Apply(p, s))
  {
    if s.Push? {
      UnracedPushIsInTime(p, s.thread);
    }
    forall id | id in Apply(p, s).slots ensures Apply(p, s).slots[id].late == [] {
    }
  }

  lemma {:induction false} RacingIsPermanent(p: Pool, steps: seq<Step>, q: Pool)
    requires Run(p, steps, q)
    ensures p.racing ==> q.racing
    decreases |steps|
  {
    if steps != [] {
      RacingIsPermanent(Apply(p, steps[0]), steps[1..], q);
    }
  }

  /** If no enqueue was in progress when stop began and none began after, stop returns only
      once every event ever pushed has been processed, and no caller still holds a slot that is
      about to be destroyed. */
  lemma UnracedStopDrains(p: Pool)
    requires Reachable(p) && Enabled(p, StopReturn) && !p.racing
    ensures forall id :: id in p.slots ==> p.slots[id].done == p.slots[id].pushed
    ensures p.callers == map[]
  {
    ReachableInv(p);
    var steps :| Run(INITIAL, steps, p);
    UnracedNothingLate(INITIAL, steps, p);
    forall id | id in p.slots ensures p.slots[id].done == p.slots[id].pushed {
      StopDeliversAllButLate(p, id);
    }
  }

  lemma {:induction false} FlagStaysDown(p: Pool, steps: seq<Step>, q: Pool)
    requires !p.flag && Run(p, steps, q) && StopFlag !in steps
    ensures !q.flag
    decreases |steps|
  {
    if steps != [] {
      assert steps[0] in steps;
      FlagStaysDown(Apply(p, steps[0]), steps[1..], q);
    }
  }

  lemma {:induction false} StaysUnraced(p: Pool, steps: seq<Step>, q: Pool)
    requires !p.racing && p.callers == map[] && Run(p, steps, q)
    requires forall i :: 0 <= i < |steps| ==> !steps[i].Find?
    ensures !q.racing
    decreases |steps|
  {
    if steps != [] {
      StaysUnraced(Apply(p, steps[0]), steps[1..], q);
    }
  }

  /** In terms of the run alone: when every enqueue has returned before stop is called, and none
      is called after, everything pushed is processed once stop can return. */
  lemma StopDrains(before: seq<Step>, p: Pool, after: seq<Step>, q: Pool)
    requires Run(INITIAL, before, p) && StopFlag !in before && p.callers == map[]
    requires Run(p, after, q) && forall i :: 0 <= i < |after| ==> !after[i].Find?
    requires Enabled(q, StopReturn)
    ensures forall id :: id in q.slots ==> q.slots[id].done == q.slots[id].pushed
  {
    assert !p.racing by {
      RunKeepsInv(INITIAL, before, p);
      FlagStaysDown(INITIAL, before, p);
    }
    StaysUnraced(p, after, q);
    assert Reachable(q) by {
      RunConcat(INITIAL, before, p, after, q);
    }
    UnracedStopDrains(q);
  }

  // ---------- every worker is told ----------

  /** From the first mark on, a slot of the table that stop will not mark any more is marked. */
  ghost predicate MarkedOk(p: Pool) {
    MapLocked(p) ==>
      forall id :: id in p.slots && Live(p, id) && !StopWillMark(p.stop, id) ==> p.slots[id].stopping
  }

  lemma LockTakesAll(p: Pool)
    requires TableOk(p) && Enabled(p, StopLock)
    ensures MarkedOk(Apply(p, StopLock))
  {
    var q := Apply(p, StopLock);
    forall id | id in q.slots && Live(q, id) ensures StopWillMark(q.stop, id) {
      assert q.table[q.slots[id].key] in p.table.Values;
    }
  }

  lemma StopKeepsMarked(p: Pool, s: Step)
    requires MarkedOk(p) && Enabled(p, s) && (s.StopMark? || s.StopNotify? || s.StopJoin?)
    ensures MarkedOk(Apply(p, s))
  {
    var q := Apply(p, s);
    assert forall id :: Live(q, id) ==> Live(p, id);
  }

  lemma OthersKeepMarked(p: Pool, s: Step)
    requires MarkedOk(p) && Enabled(p, s) && MapLocked(p)
    requires s.Push? || s.Notify? || s.Decide? || s.Sleep? || s.Wake? || s.Finish?
    ensures MarkedOk(Apply(p, s))
  {
    var q := Apply(p, s);
    assert forall id :: Live(q, id) ==> Live(p, id);
  }

  lemma StepKeepsMarked(p: Pool, s: Step)
    requires TableOk(p) && MarkedOk(p) && Enabled(p, s)
    ensures MarkedOk(Apply(p, s))
  {
    match s
    case StopLock => LockTakesAll(p);
    case StopMark(_) => StopKeepsMarked(p, s);
    case StopNotify => StopKeepsMarked(p, s);
    case StopJoin => StopKeepsMarked(p, s);
    case StopReturn =>
    case StopFlag =>
    case _ =>
      if MapLocked(p) {
        OthersKeepMarked(p, s);
      }
  }

  lemma {:induction false} RunKeepsMarked(p: Pool, steps: seq<Step>, q: Pool)
    requires Inv(p) && MarkedOk(p) && Run(p, steps, q)
    ensures MarkedOk(q)
    decreases |steps|
  {
    if steps != [] {
      StepKeepsInv(p, steps[0]);
      StepKeepsMarked(p, steps[0]);
      RunKeepsMarked(Apply(p, steps[0]), steps[1..], q);
    }
  }

  /** When stop begins to join, every slot of the table has been told to stop. */
  lemma AllAreMarked(p: Pool, id: nat)
    requires Reachable(p) && p.stop.Joining? && id in p.slots && Live(p, id)
    ensures p.slots[id].stopping
  {
    var steps :| Run(INITIAL, steps, p);
    RunKeepsMarked(INITIAL, steps, p);
  }

  /** A pool with the single slot of conversation "a". */
  function Single(flag: bool, callers: map<nat, Caller>, stop: Stop, s: Slot): Pool {
    Pool(flag, map["a" := 0], map[0 := s], 1, callers, stop, flag)
  }

  lemma {:induction false} RunConcat(p: Pool, a: seq<Step>, m: Pool, b: seq<Step>, q: Pool)
    requires Run(p, a, m) && Run(m, b, q)
    ensures Run(p, a + b, q)
    decreases |a|
  {
    if a == [] {
      assert a + b == b;
    } else {
      RunConcat(Apply(p, a[0]), a[1..], m, b, q);
      assert (a + b)[1..] == a[1..] + b;
    }
  }

  lemma RunTwo(p: Pool, s: Step, t: Step)
    requires Enabled(p, s) && Enabled(Apply(p, s), t)
    ensures Run(p, [s, t], Apply(Apply(p, s), t))
  {
    assert [s, t][1..] == [t] && [t][1..] == [];
    assert Run(Apply(p, s), [t], Apply(Apply(p, s), t));
  }

  const LOST := Event("a", "hello")
  const LOST_SLOT := Slot("a", [LOST], false, Exited, [LOST], [], [LOST])

  /** The slot is found, stop raises its flag, the worker exits, and only then the push. */
  lemma LosingPush()
    ensures Run(INITIAL, [Find(0, LOST), StopFlag] + [Decide(0), Push(0)],
                Single(true, map[0 := Pushed(0)], Flagged, LOST_SLOT))
  {
    var created := Slot("a", [], false, Ready, [], [], []);
    var p0 := Single(false, map[0 := Found(0, LOST)], Idle, created);
    var p1 := Single(true, map[0 := Found(0, LOST)], Flagged, created);
    var p2 := Single(true, map[0 := Found(0, LOST)], Flagged, created.(worker := Exited));
    assert 0 in p0.callers;
    assert Apply(INITIAL, Find(0, LOST)) == p0;
    assert Apply(p0, StopFlag) == p1;
    RunTwo(INITIAL, Find(0, LOST), StopFlag);
    assert Apply(p1, Decide(0)) == p2;
    assert [] + [LOST] == [LOST];
    assert Apply(p2, Push(0)) == Single(true, map[0 := Pushed(0)], Flagged, LOST_SLOT);
    RunTwo(p1, Decide(0), Push(0));
    RunConcat(INITIAL, [Find(0, LOST), StopFlag], p1, [Decide(0), Push(0)], Apply(p2, Push(0)));
  }

  lemma LosingStop()
    ensures Run(Single(true, map[0 := Pushed(0)], Flagged, LOST_SLOT), [StopLock, StopMark(0)] + [StopNotify, StopJoin],
                Single(true, map[0 := Pushed(0)], Joining, LOST_SLOT.(stopping := true)))
  {
    var p0 := Single(true, map[0 := Pushed(0)], Flagged, LOST_SLOT);
    var p1 := Single(true, map[0 := Pushed(0)], Marking({0}), LOST_SLOT);
    var p2 := Single(true, map[0 := Pushed(0)], Notifying(0, {}), LOST_SLOT.(stopping := true));
    var p3 := Single(true, map[0 := Pushed(0)], Marking({}), LOST_SLOT.(stopping := true));
    assert p0.table["a"] in p0.table.Values;
    assert p0.table.Values == {0};
    assert Apply(p0, StopLock) == p1;
    assert {0} - {0} == {};
    assert Apply(p1, StopMark(0)) == p2;
    RunTwo(p0, StopLock, StopMark(0));
    assert Apply(p2, StopNotify) == p3;
    RunTwo(p2, StopNotify, StopJoin);
    RunConcat(p0, [StopLock, StopMark(0)], p2, [StopNotify, StopJoin], Apply(p3, StopJoin));
  }

  /** Without that condition delivery fails: an enqueue that has found its slot but not yet
      pushed when stop begins can lose its event. */
  lemma RacingEnqueueCanLose() returns (p: Pool)
    ensures Reachable(p) && Enabled(p, StopReturn) && p.racing && p.callers != map[]
    ensures exists id :: id in p.slots && p.slots[id].done != p.slots[id].pushed
  {
    p := Single(true, map[0 := Pushed(0)], Joining, LOST_SLOT.(stopping := true));
    LosingPush();
    LosingStop();
    RunConcat(INITIAL, [Find(0, LOST), StopFlag] + [Decide(0), Push(0)],
              Single(true, map[0 := Pushed(0)], Flagged, LOST_SLOT),
              [StopLock, StopMark(0)] + [StopNotify, StopJoin], p);
    assert p.slots[0].done != p.slots[0].pushed;
  }

  // ---------- stop terminates ----------

  function Rank(s: Slot): nat {
    3 * |s.queue| + match s.worker
                    case Exited => 0
                    case Ready => 1
                    case Processing(_) => 2
                    case Asleep => 2
                    case Decided => 3
  }

  /** Remaining work of the slots numbered below n. */
  function Work(slots: map<nat, Slot>, n: nat): nat {
    if n == 0 then 0 else Work(slots, n - 1) + (if n - 1 in slots then Rank(slots[n - 1]) else 0)
  }

  /** The work of a pool in which one slot is replaced. */
  lemma {:induction false} WorkChanges(before: map<nat, Slot>, after: map<nat, Slot>, id: nat, n: nat)
    requires id in before && before.Keys == after.Keys
    requires forall i :: i in before && i != id ==> after[i] == before[i]
    ensures Work(after, n) == if id < n then Work(before, n) - Rank(before[id]) + Rank(after[id]) else Work(before, n)
  {
    if n != 0 {
      WorkChanges(before, after, id, n - 1);
    }
  }

  lemma JoiningHasNoSleepers(p: Pool, id: nat)
    requires Inv(p) && p.stop.Joining? && id in p.slots
    ensures !p.slots[id].worker.Asleep? && !p.slots[id].worker.Decided?
  {
    assert SlotOk(id, p.slots[id], p.flag, p.stop, p.callers);
  }

  /** While stop joins, either it can return or some worker can move. */
  lemma JoiningProgress(p: Pool)
    requires Reachable(p) && p.stop.Joining?
    ensures Enabled(p, StopReturn) || exists id :: Enabled(p, Decide(id)) || Enabled(p, Finish(id))
  {
    ReachableInv(p);
    if !Enabled(p, StopReturn) {
      var id :| id in p.slots && Live(p, id) && !p.slots[id].worker.Exited?;
      JoiningHasNoSleepers(p, id);
      assert Enabled(p, Decide(id)) || Enabled(p, Finish(id));
    }
  }

  /** A step of a worker or of stop, not of an enqueue. */
  predicate OwnStep(s: Step) {
    !s.Find? && !s.Push? && !s.Notify?
  }

  lemma MarkingProgress(p: Pool) returns (s: Step)
    requires TableOk(p) && StopOk(p) && p.stop.Marking?
    ensures Enabled(p, s) && OwnStep(s)
  {
    var todo := p.stop.todo;
    if todo == {} {
      s := StopJoin;
    } else {
      var id :| id in todo;
      assert id in p.table.Values && id in p.slots;
      s := if p.slots[id].worker.Decided? then Sleep(id) else StopMark(id);
    }
  }

  /** Nor does it wait for an enqueue before that: from its first mark on, some step of a worker
      or of stop itself is possible. */
  lemma StoppingProgress(p: Pool) returns (s: Step)
    requires Reachable(p) && MapLocked(p)
    ensures Enabled(p, s) && OwnStep(s)
  {
    ReachableInv(p);
    if p.stop.Marking? {
      s := MarkingProgress(p);
    } else if p.stop.Notifying? {
      assert p.stop.slot in p.table.Values;
      s := StopNotify;
    } else {
      JoiningProgress(p);
      s := StopReturn;
      if id :| Enabled(p, Decide(id)) || Enabled(p, Finish(id)) {
        s := if Enabled(p, Decide(id)) then Decide(id) else Finish(id);
      }
    }
  }

  /** Callers that have not pushed yet. */
  function Unpushed(callers: map<nat, Caller>): set<nat> {
    set t | t in callers && callers[t].Found?
  }

  /** What stop still has to do before it joins. */
  function ToSignal(stop: Stop): nat {
    match stop
    case Marking(todo) => 2 * |todo| + 2
    case Notifying(_, todo) => 2 * |todo| + 3
    case _ => 1
  }

  /** What stop, the workers and the enqueues in progress can still do before stop returns. */
  function Remaining(p: Pool): nat {
    Work(p.slots, p.nextSlot) + 4 * |Unpushed(p.callers)| + |p.callers| + ToSignal(p.stop)
  }

  lemma PushUses(p: Pool, t: nat)
    requires Enabled(p, Push(t))
    ensures Remaining(Apply(p, Push(t))) < Remaining(p)
  {
    var q := Apply(p, Push(t));
    WorkChanges(p.slots, q.slots, p.callers[t].slot, p.nextSlot);
    assert Unpushed(q.callers) == Unpushed(p.callers) - {t};
    assert q.callers.Keys == p.callers.Keys;
    assert |q.callers| == |q.callers.Keys| == |p.callers|;
  }

  lemma NotifyUses(p: Pool, t: nat)
    requires Enabled(p, Notify(t))
    ensures Remaining(Apply(p, Notify(t))) < Remaining(p)
  {
    var q, id := Apply(p, Notify(t)), p.callers[t].slot;
    WorkChanges(p.slots, q.slots, id, p.nextSlot);
    assert Unpushed(q.callers) == Unpushed(p.callers);
    assert q.callers.Keys == p.callers.Keys - {t};
    assert |q.callers| == |q.callers.Keys| == |p.callers| - 1;
  }

  lemma WorkerUses(p: Pool, s: Step)
    requires p.flag && Enabled(p, s) && (s.Decide? || s.Sleep? || s.Wake? || s.Finish?) && s.slot < p.nextSlot
    ensures Remaining(Apply(p, s)) < Remaining(p)
  {
    WorkChanges(p.slots, Apply(p, s).slots, s.slot, p.nextSlot);
  }

  lemma MarkUses(p: Pool, id: nat)
    requires Enabled(p, StopMark(id))
    ensures Remaining(Apply(p, StopMark(id))) < Remaining(p)
  {
    var q := Apply(p, StopMark(id));
    WorkChanges(p.slots, q.slots, id, p.nextSlot);
    assert |p.stop.todo - {id}| == |p.stop.todo| - 1;
  }

  lemma StopNotifyUses(p: Pool)
    requires Enabled(p, StopNotify)
    ensures Remaining(Apply(p, StopNotify)) < Remaining(p)
  {
    WorkChanges(p.slots, Apply(p, StopNotify).slots, p.stop.slot, p.nextSlot);
  }

  /** From its first mark on, every step of anyone but the return of stop uses something up: no
      enqueue can begin, because stop holds the map mutex. */
  lemma StoppingStepUses(p: Pool, s: Step)
    requires Inv(p) && MapLocked(p) && Enabled(p, s) && s != StopReturn
    ensures MapLocked(Apply(p, s)) && Remaining(Apply(p, s)) < Remaining(p)
    ensures p.stop.Joining? ==> Apply(p, s).stop.Joining?
  {
    match s
    case Push(t) => PushUses(p, t);
    case Notify(t) => NotifyUses(p, t);
    case StopMark(id) => MarkUses(p, id);
    case StopNotify => StopNotifyUses(p);
    case StopJoin =>
    case _ => WorkerUses(p, s);
  }

  /** So whatever workers and racing enqueues do, at most Remaining(p) steps are left before
      stop can only return. */
  lemma {:induction false} StoppingTerminates(p: Pool, steps: seq<Step>, q: Pool)
    requires Inv(p) && MapLocked(p) && Run(p, steps, q) && StopReturn !in steps
    ensures MapLocked(q) && |steps| + Remaining(q) <= Remaining(p)
    ensures p.stop.Joining? ==> q.stop.Joining?
    decreases |steps|
  {
    if steps != [] {
      assert steps[0] in steps;
      StoppingStepUses(p, steps[0]);
      StepKeepsInv(p, steps[0]);
      StoppingTerminates(Apply(p, steps[0]), steps[1..], q);
    }
  }
}
