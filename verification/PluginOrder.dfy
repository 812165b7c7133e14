/** The plugin list: registration keeps it sorted by falling priority with a stable sort, and
    a message goes down the list until a plugin stops it. */
module PluginOrder {
  import opened Sequences

  datatype Plugin = Plugin(name: string, priority: int)

  /** What a plugin does with a message. */
  datatype Outcome = Done(handled: bool, stop: bool) | Threw

  // ---------- registration ----------

  /** Insertion behind every plugin of at least the same priority. */
  function Insert(sorted: seq<Plugin>, p: Plugin): (r: seq<Plugin>)
    ensures |r| == |sorted| + 1
  {
    if sorted == [] then [p]
    else
      var init, last := sorted[..|sorted| - 1], sorted[|sorted| - 1];
      if last.priority >= p.priority then sorted + [p] else Insert(init, p) + [last]
  }

  function StableSort(ps: seq<Plugin>): seq<Plugin> {
    if ps == [] then [] else Insert(StableSort(ps[..|ps| - 1]), ps[|ps| - 1])
  }

  predicate Falling(ps: seq<Plugin>) {
    forall i, j :: 0 <= i < j < |ps| ==> ps[i].priority >= ps[j].priority
  }

  function AtLevel(k: int): Plugin -> bool {
    (p: Plugin) => p.priority == k
  }

  function Level(ps: seq<Plugin>, k: int): seq<Plugin> {
    Filter(ps, AtLevel(k))
  }

  predicate HasName(ps: seq<Plugin>, name: string) {
    exists i :: 0 <= i < |ps| && ps[i].name == name
  }

  predicate NamesDistinct(ps: seq<Plugin>) {
    forall i, j :: 0 <= i < j < |ps| ==> ps[i].name != ps[j].name
  }

  lemma {:induction false} InsertMultiset(sorted: seq<Plugin>, p: Plugin)
    ensures multiset(Insert(sorted, p)) == multiset(sorted) + multiset{p}
    decreases |sorted|
  {
    if sorted != [] {
      var init, last := sorted[..|sorted| - 1], sorted[|sorted| - 1];
      InsertMultiset(init, p);
      assert sorted == init + [last];
    }
  }

  /** Insertion keeps the order, and puts nothing below a bound everything was above. */
  lemma {:induction false} InsertFalling(sorted: seq<Plugin>, p: Plugin, bound: int)
    requires Falling(sorted)
    ensures Falling(Insert(sorted, p))
    ensures (forall i :: 0 <= i < |sorted| ==> sorted[i].priority >= bound) && p.priority >= bound ==>
              forall i :: 0 <= i < |Insert(sorted, p)| ==> Insert(sorted, p)[i].priority >= bound
    decreases |sorted|
  {
    if sorted != [] {
      var init, last := sorted[..|sorted| - 1], sorted[|sorted| - 1];
      InsertFalling(init, p, last.priority);
      InsertFalling(init, p, bound);
    }
  }

  lemma {:induction false} InsertLevel(sorted: seq<Plugin>, p: Plugin, k: int)
    ensures Level(Insert(sorted, p), k) == if p.priority == k then Level(sorted, k) + [p] else Level(sorted, k)
    decreases |sorted|
  {
    if sorted == [] {
      FilterPush([], p, AtLevel(k));
      assert [] + [p] == [p];
    } else {
      var init, last := sorted[..|sorted| - 1], sorted[|sorted| - 1];
      assert sorted == init + [last];
      FilterPush(init, last, AtLevel(k));
      FilterPush(sorted, p, AtLevel(k));
      if last.priority < p.priority {
        InsertLevel(init, p, k);
        FilterPush(Insert(init, p), last, AtLevel(k));
      }
    }
  }

  lemma {:induction false} StableSortFalls(ps: seq<Plugin>)
    ensures Falling(StableSort(ps))
    decreases |ps|
  {
    if ps != [] {
      StableSortFalls(ps[..|ps| - 1]);
      InsertFalling(StableSort(ps[..|ps| - 1]), ps[|ps| - 1], 0);
    }
  }

  lemma {:induction false} StableSortPermutes(ps: seq<Plugin>)
    ensures multiset(StableSort(ps)) == multiset(ps)
    decreases |ps|
  {
    if ps != [] {
      var init, last := ps[..|ps| - 1], ps[|ps| - 1];
      StableSortPermutes(init);
      InsertMultiset(StableSort(init), last);
      assert ps == init + [last];
    }
  }

  /** Stability: every priority level keeps its order. */
  lemma {:induction false} StableSortIsStable(ps: seq<Plugin>, k: int)
    ensures Level(StableSort(ps), k) == Level(ps, k)
    decreases |ps|
  {
    if ps != [] {
      var init, last := ps[..|ps| - 1], ps[|ps| - 1];
      StableSortIsStable(init, k);
      InsertLevel(StableSort(init), last, k);
      FilterPush(init, last, AtLevel(k));
      assert ps == init + [last];
    }
  }

  function Registered(ps: seq<Plugin>, p: Plugin): seq<Plugin> {
    if HasName(ps, p.name) then ps else StableSort(ps + [p])
  }

  function RegisterAll(requests: seq<Plugin>): seq<Plugin> {
    if requests == [] then [] else Registered(RegisterAll(requests[..|requests| - 1]), requests[|requests| - 1])
  }

  /** The requests that are the first with their name. */
  function Firsts(requests: seq<Plugin>): seq<Plugin> {
    if requests == [] then []
    else
      var init, last := Firsts(requests[..|requests| - 1]), requests[|requests| - 1];
      if HasName(init, last.name) then init else init + [last]
  }

  lemma NameInMultiset(a: seq<Plugin>, b: seq<Plugin>, name: string)
    requires multiset(a) == multiset(b) && HasName(a, name)
    ensures HasName(b, name)
  {
    var i :| 0 <= i < |a| && a[i].name == name;
    assert a[i] in multiset(b);
  }

  /** Whatever is registered, in whatever order: the list holds the first request for each name,
      in falling priority, and requests of one priority in the order they came. */
  lemma {:induction false} RegistrationOrder(requests: seq<Plugin>, k: int)
    ensures multiset(RegisterAll(requests)) == multiset(Firsts(requests)) && NamesDistinct(Firsts(requests))
    ensures Falling(RegisterAll(requests))
    ensures Level(RegisterAll(requests), k) == Level(Firsts(requests), k)
    decreases |requests|
  {
    if requests != [] {
      var init, last := requests[..|requests| - 1], requests[|requests| - 1];
      RegistrationOrder(init, k);
      var list := RegisterAll(init);
      if HasName(list, last.name) {
        NameInMultiset(list, Firsts(init), last.name);
      } else if HasName(Firsts(init), last.name) {
        NameInMultiset(Firsts(init), list, last.name);
      } else {
        StableSortFalls(list + [last]);
        StableSortPermutes(list + [last]);
        StableSortIsStable(list + [last], k);
        FilterPush(list, last, AtLevel(k));
        FilterPush(Firsts(init), last, AtLevel(k));
      }
    }
  }

  // ---------- who is called ----------

  predicate Stops(ps: seq<Plugin>, outcome: Plugin -> Outcome) {
    exists i :: 0 <= i < |ps| && outcome(ps[i]).Done? && outcome(ps[i]).stop
  }

  /** The plugins called when all of ps are willing: up to the first that stops the message. */
  function UpToStop(ps: seq<Plugin>, outcome: Plugin -> Outcome): seq<Plugin> {
    if ps == [] || !Stops(ps[..|ps| - 1], outcome) then ps else UpToStop(ps[..|ps| - 1], outcome)
  }

  predicate AnyHandled(ps: seq<Plugin>, outcome: Plugin -> Outcome) {
    exists i :: 0 <= i < |ps| && outcome(ps[i]).Done? && outcome(ps[i]).handled
  }

  lemma StopsPush(ps: seq<Plugin>, p: Plugin, outcome: Plugin -> Outcome)
    ensures Stops(ps + [p], outcome) <==> Stops(ps, outcome) || (outcome(p).Done? && outcome(p).stop)
    ensures AnyHandled(ps + [p], outcome) <==> AnyHandled(ps, outcome) || (outcome(p).Done? && outcome(p).handled)
    ensures UpToStop(ps + [p], outcome) == if Stops(ps, outcome) then UpToStop(ps, outcome) else ps + [p]
  {
    assert (ps + [p])[..|ps|] == ps && (ps + [p])[|ps|] == p;
    assert forall i :: 0 <= i < |ps| ==> (ps + [p])[i] == ps[i];
  }

  lemma {:induction false} NothingAfterStop(ps: seq<Plugin>, rest: seq<Plugin>, outcome: Plugin -> Outcome)
    requires Stops(ps, outcome)
    ensures Stops(ps + rest, outcome) && UpToStop(ps + rest, outcome) == UpToStop(ps, outcome)
    decreases |rest|
  {
    if rest == [] {
      assert ps + rest == ps;
    } else {
      var init, last := rest[..|rest| - 1], rest[|rest| - 1];
      NothingAfterStop(ps, init, outcome);
      assert ps + rest == (ps + init) + [last];
      StopsPush(ps + init, last, outcome);
    }
  }

  /** The calls end with the first plugin that stops the message; everyone willing before it is
      called, and nobody after it. */
  lemma {:induction false} CallsEndAtStop(ps: seq<Plugin>, outcome: Plugin -> Outcome)
    ensures UpToStop(ps, outcome) <= ps
    ensures Stops(ps, outcome) <==> Stops(UpToStop(ps, outcome), outcome)
    ensures UpToStop(ps, outcome) != [] ==> !Stops(UpToStop(ps, outcome)[..|UpToStop(ps, outcome)| - 1], outcome)
    ensures UpToStop(ps, outcome) != ps ==> Stops(UpToStop(ps, outcome), outcome)
    decreases |ps|
  {
    if ps != [] {
      var init, last := ps[..|ps| - 1], ps[|ps| - 1];
      CallsEndAtStop(init, outcome);
      assert ps == init + [last];
      StopsPush(init, last, outcome);
    }
  }
}
