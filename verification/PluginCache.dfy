/** Per-agent plugin switches: a stored table with a cache of disabled plugins in front,
    against the plain meaning "what was last set for exactly this agent and plugin". */
module PluginCache {
  import opened Options
  import opened PluginOrder
  import opened Sequences
  import Text = RowStore

  /** A plugin configuration as the column holds it: an object, or some other JSON text. */
  datatype Json = Object(text: string) | Other(text: string)

  const EMPTY := Object("{}")

  datatype Pair = Pair(agent: string, plugin: string)

  datatype Row = Row(enabled: bool, config: Json)

  type Table = map<Pair, Row>

  function CacheKey(p: Pair): string {
    p.agent + "::" + p.plugin
  }

  /** Bound parameters stop at a NUL byte. */
  function RowKey(p: Pair): Pair {
    Pair(Text.CText(p.agent), Text.CText(p.plugin))
  }

  // ---------- the table ----------

  function RowEnabled(rows: Table, p: Pair): bool {
    if RowKey(p) in rows then rows[RowKey(p)].enabled else true
  }

  function RowConfig(rows: Table, p: Pair): Json {
    if RowKey(p) in rows && rows[RowKey(p)].config.Object? then rows[RowKey(p)].config else EMPTY
  }

  /** INSERT … ON CONFLICT DO UPDATE: the config column is overwritten only when one is given. */
  function Upserted(rows: Table, p: Pair, enabled: bool, config: Option<Json>): Table {
    var kept := if RowKey(p) in rows then rows[RowKey(p)].config else EMPTY;
    rows[RowKey(p) := Row(enabled, if config.Some? then config.value else kept)]
  }

  class AgentTable {
    var rows: Table

    constructor ()
      ensures rows == map[]
    {
      rows := map[];
    }

    method QueryEnabled(p: Pair, fallback: bool) returns (enabled: bool)
      ensures enabled == if RowKey(p) in rows then rows[RowKey(p)].enabled else fallback
    {
      enabled := fallback;
      if RowKey(p) in rows {
        enabled := rows[RowKey(p)].enabled;
      }
    }

    method QueryConfig(p: Pair) returns (config: Json)
      ensures config == RowConfig(rows, p)
    {
      config := EMPTY;
      if RowKey(p) in rows && rows[RowKey(p)].config.Object? {
        config := rows[RowKey(p)].config;
      }
    }

    method Upsert(p: Pair, enabled: bool, config: Option<Json>)
      modifies this
      ensures rows == Upserted(old(rows), p, enabled, config)
    {
      if RowKey(p) in rows {
        rows := rows[RowKey(p) := rows[RowKey(p)].(enabled := enabled)];
        if config.Some? {
          rows := rows[RowKey(p) := rows[RowKey(p)].(config := config.value)];
        }
      } else {
        rows := rows[RowKey(p) := Row(enabled, if config.Some? then config.value else EMPTY)];
      }
    }

    method SetEnabled(p: Pair, enabled: bool)
      modifies this
      ensures rows == Upserted(old(rows), p, enabled, None)
    {
      Upsert(p, enabled, None);
    }

    method SetConfig(p: Pair, config: Json)
      modifies this
      ensures rows == Upserted(old(rows), p, RowEnabled(old(rows), p), Some(config))
    {
      var current := QueryEnabled(p, true);
      Upsert(p, current, Some(config));
    }
  }

  // ---------- the cache in front ----------

  datatype State = State(disabled: set<string>, backed: bool, rows: Table)

  datatype Op = Enable(p: Pair) | Disable(p: Pair) | Ask(p: Pair) | SetConfig(p: Pair, config: Json)

  function Answer(s: State, p: Pair): bool {
    if CacheKey(p) in s.disabled then false else if s.backed then RowEnabled(s.rows, p) else true
  }

  function WithRows(s: State, rows: Table): State {
    if s.backed then s.(rows := rows) else s
  }

  function Step(s: State, op: Op): State {
    match op
    case Enable(p) => WithRows(s.(disabled := s.disabled - {CacheKey(p)}), Upserted(s.rows, p, true, None))
    case Disable(p) => WithRows(s.(disabled := s.disabled + {CacheKey(p)}), Upserted(s.rows, p, false, None))
    case Ask(p) => if Answer(s, p) then s else s.(disabled := s.disabled + {CacheKey(p)})
    case SetConfig(p, config) => WithRows(s, Upserted(s.rows, p, RowEnabled(s.rows, p), Some(config)))
  }

  function Run(s: State, ops: seq<Op>): State {
    if ops == [] then s else Step(Run(s, ops[..|ops| - 1]), ops[|ops| - 1])
  }

  // ---------- what it should mean ----------

  /** The switch of exactly p: its last setting, else what was stored at the start, else on. */
  function SwitchOf(start: State, ops: seq<Op>, p: Pair): bool {
    if ops == [] then if start.backed then RowEnabled(start.rows, p) else true
    else
      var before := SwitchOf(start, ops[..|ops| - 1], p);
      match ops[|ops| - 1]
      case Enable(q) => q == p || before
      case Disable(q) => q != p && before
      case _ => before
  }

  /** The configuration of exactly p: the last one set, shown as empty unless it is an object. */
  function ConfigOf(start: State, ops: seq<Op>, p: Pair): Json {
    if ops == [] then RowConfig(start.rows, p)
    else
      var before := ConfigOf(start, ops[..|ops| - 1], p);
      match ops[|ops| - 1]
      case SetConfig(q, config) => if q != p then before else if config.Object? then config else EMPTY
      case _ => before
  }

  predicate Switches(op: Op, p: Pair) {
    (op.Enable? || op.Disable?) && op.p == p
  }

  /** In plain terms: the last enable or disable of exactly p decides, and without one the stored
      switch, or on. */
  lemma {:induction false} SwitchIsLast(start: State, ops: seq<Op>, p: Pair, i: nat)
    requires i < |ops| ==> Switches(ops[i], p)
    requires forall k :: 0 <= k < |ops| && (k > i || i >= |ops|) ==> !Switches(ops[k], p)
    ensures SwitchOf(start, ops, p) ==
            if i < |ops| then ops[i].Enable?
            else if start.backed && RowKey(p) in start.rows then start.rows[RowKey(p)].enabled
            else true
    decreases |ops|
  {
    if ops != [] && i != |ops| - 1 {
      SwitchIsLast(start, ops[..|ops| - 1], p, i);
      assert !Switches(ops[|ops| - 1], p);
    }
  }

  /** And the last configuration set for exactly p is shown, if it is an object. */
  lemma {:induction false} ConfigIsLast(start: State, ops: seq<Op>, p: Pair, i: nat)
    requires i < |ops| ==> ops[i].SetConfig? && ops[i].p == p
    requires forall k :: 0 <= k < |ops| && (k > i || i >= |ops|) ==> !(ops[k].SetConfig? && ops[k].p == p)
    ensures ConfigOf(start, ops, p) ==
            if i < |ops| then if ops[i].config.Object? then ops[i].config else Object("{}")
            else if RowKey(p) in start.rows && start.rows[RowKey(p)].config.Object? then start.rows[RowKey(p)].config
            else Object("{}")
    decreases |ops|
  {
    if ops != [] && i != |ops| - 1 {
      ConfigIsLast(start, ops[..|ops| - 1], p, i);
    }
  }

  function Fresh(backed: bool, rows: Table): State {
    State({}, backed, rows)
  }

  ghost predicate Over(ops: seq<Op>, names: iset<Pair>) {
    forall i :: 0 <= i < |ops| ==> ops[i].p in names
  }

  /** No two names share a cache entry or a row. */
  ghost predicate ConflictFree(names: iset<Pair>, backed: bool) {
    forall p, q :: p in names && q in names && Clash(p, q, backed) ==> p == q
  }

  predicate Clash(p: Pair, q: Pair, backed: bool) {
    CacheKey(p) == CacheKey(q) || (backed && RowKey(p) == RowKey(q))
  }

  /** What the cache and the table know about one name. */
  predicate Tracks(s: State, p: Pair, on: bool) {
    if s.backed then RowEnabled(s.rows, p) == on && (CacheKey(p) in s.disabled ==> !on)
    else CacheKey(p) in s.disabled <==> !on
  }

  lemma TracksAnswers(s: State, p: Pair, on: bool)
    requires Tracks(s, p, on)
    ensures Answer(s, p) == on
  {
  }

  function Toggled(op: Op, p: Pair, on: bool): bool {
    match op
    case Enable(q) => q == p || on
    case Disable(q) => q != p && on
    case _ => on
  }

  /** An operation on a name that does not clash with p leaves p tracked. */
  lemma StepTracks(s: State, op: Op, p: Pair, on: bool)
    requires Tracks(s, p, on)
    requires Clash(op.p, p, s.backed) ==> op.p == p
    ensures Tracks(Step(s, op), p, Toggled(op, p, on)) && Step(s, op).backed == s.backed
  {
  }

  lemma {:induction false} RunTracks(backed: bool, rows: Table, ops: seq<Op>, names: iset<Pair>, p: Pair)
    requires ConflictFree(names, backed) && Over(ops, names) && p in names
    ensures Tracks(Run(Fresh(backed, rows), ops), p, SwitchOf(Fresh(backed, rows), ops, p))
    ensures Run(Fresh(backed, rows), ops).backed == backed
    decreases |ops|
  {
    if ops != [] {
      var init := ops[..|ops| - 1];
      assert Over(init, names);
      RunTracks(backed, rows, init, names, p);
      StepTracks(Run(Fresh(backed, rows), init), ops[|ops| - 1], p, SwitchOf(Fresh(backed, rows), init, p));
    }
  }

  ghost predicate AskMatches(backed: bool, rows: Table, ops: seq<Op>, p: Pair) {
    Answer(Run(Fresh(backed, rows), ops), p) == SwitchOf(Fresh(backed, rows), ops, p)
  }

  /** Every question about a name in use is answered by that name's own history. */
  ghost predicate Coherent(names: iset<Pair>, backed: bool) {
    forall rows, ops, p :: Over(ops, names) && p in names ==> AskMatches(backed, rows, ops, p)
  }

  lemma ClashLies(p: Pair, q: Pair, backed: bool, rows: Table)
    requires p != q && Clash(p, q, backed)
    ensures !AskMatches(backed, rows, [Enable(q), Disable(p)], q)
  {
    var start := Fresh(backed, rows);
    var ops := [Enable(q), Disable(p)];
    assert ops[..1] == [Enable(q)] && [Enable(q)][..0] == [];
    assert Run(start, [Enable(q)]) == Step(start, Enable(q));
    assert Run(start, ops) == Step(Step(start, Enable(q)), Disable(p));
    assert SwitchOf(start, [Enable(q)], q);
    assert SwitchOf(start, ops, q);
  }

  /** The cache is coherent over any run exactly when no two names in use clash. */
  lemma CoherentIffConflictFree(names: iset<Pair>, backed: bool)
    ensures Coherent(names, backed) <==> ConflictFree(names, backed)
  {
    if ConflictFree(names, backed) {
      forall rows, ops, p | Over(ops, names) && p in names ensures AskMatches(backed, rows, ops, p) {
        RunTracks(backed, rows, ops, names, p);
        TracksAnswers(Run(Fresh(backed, rows), ops), p, SwitchOf(Fresh(backed, rows), ops, p));
      }
    } else {
      var p, q :| p in names && q in names && Clash(p, q, backed) && p != q;
      ClashLies(p, q, backed, map[]);
      assert Over([Enable(q), Disable(p)], names);
    }
  }

  /** Setting a switch never changes a stored configuration, and setting a configuration never
      changes a switch, whatever the names. */
  lemma SwitchAndConfigAreIndependent(rows: Table, p: Pair, q: Pair, on: bool, config: Json)
    ensures RowConfig(Upserted(rows, p, on, None), q) == RowConfig(rows, q)
    ensures RowEnabled(Upserted(rows, p, RowEnabled(rows, p), Some(config)), q) == RowEnabled(rows, q)
  {
  }

  lemma {:induction false} ConfigIsItsOwn(rows: Table, ops: seq<Op>, names: iset<Pair>, p: Pair)
    requires ConflictFree(names, true) && Over(ops, names) && p in names
    ensures RowConfig(Run(Fresh(true, rows), ops).rows, p) == ConfigOf(Fresh(true, rows), ops, p)
    ensures Run(Fresh(true, rows), ops).backed
    decreases |ops|
  {
    if ops != [] {
      var init := ops[..|ops| - 1];
      assert Over(init, names);
      ConfigIsItsOwn(rows, init, names, p);
      assert Clash(ops[|ops| - 1].p, p, true) ==> ops[|ops| - 1].p == p;
    }
  }

  // ---------- asking and dispatching ----------

  /** The two states answer alike for every plugin of the agent. */
  ghost predicate SameAnswers(s: State, t: State, agent: string) {
    forall name: string :: Answer(t, Pair(agent, name)) == Answer(s, Pair(agent, name))
  }

  /** Asking about one plugin of an agent changes no answer about the agent's plugins. */
  lemma AskKeepsAnswers(start: State, s: State, agent: string, name: string)
    requires SameAnswers(start, s, agent)
    ensures SameAnswers(start, Step(s, Ask(Pair(agent, name))), agent)
  {
    forall other: string
      ensures Answer(Step(s, Ask(Pair(agent, name))), Pair(agent, other)) == Answer(start, Pair(agent, other))
    {
      if CacheKey(Pair(agent, name)) == CacheKey(Pair(agent, other)) {
        KeySplits(agent, name, agent, other);
      }
    }
  }

  /** The plugins a message is meant for. */
  ghost function Willing(s: State, agent: string, canHandle: Plugin -> bool, userAllows: Plugin -> bool)
    : Plugin -> bool
  {
    (p: Plugin) => canHandle(p) && (agent == "" || Answer(s, Pair(agent, p.name))) && userAllows(p)
  }

  ghost function SwitchedOn(
    start: State, ops: seq<Op>, agent: string, canHandle: Plugin -> bool, userAllows: Plugin -> bool): Plugin -> bool
  {
    (p: Plugin) => canHandle(p) && SwitchOf(start, ops, Pair(agent, p.name)) && userAllows(p)
  }

  lemma NoStopMeansAll(ps: seq<Plugin>, outcome: Plugin -> Outcome)
    requires !Stops(ps, outcome)
    ensures UpToStop(ps, outcome) == ps
  {
    CallsEndAtStop(ps, outcome);
  }

  lemma NothingBeforeStop(ps: seq<Plugin>, p: Plugin, outcome: Plugin -> Outcome)
    requires !Stops(ps, outcome)
    ensures UpToStop(ps + [p], outcome) == ps + [p]
  {
    StopsPush(ps, p, outcome);
  }

  lemma StopEndsDispatch(plugins: seq<Plugin>, i: nat, willing: Plugin -> bool, before: seq<Plugin>, p: Plugin,
                         outcome: Plugin -> Outcome)
    requires i <= |plugins| && Filter(plugins[..i], willing) == before + [p]
    requires !Stops(before, outcome) && Stops(before + [p], outcome)
    ensures UpToStop(Filter(plugins, willing), outcome) == before + [p]
  {
    assert plugins == plugins[..i] + plugins[i..];
    FilterAppend(plugins[..i], plugins[i..], willing);
    NothingAfterStop(before + [p], Filter(plugins[i..], willing), outcome);
    NothingBeforeStop(before, p, outcome);
  }

  lemma CalledAreWilling(plugins: seq<Plugin>, willing: Plugin -> bool, called: seq<Plugin>, outcome: Plugin -> Outcome)
    requires called == UpToStop(Filter(plugins, willing), outcome)
    ensures forall p :: p in called ==> p in plugins && willing(p)
    ensures !Stops(called, outcome) ==> forall p :: p in plugins && willing(p) ==> p in called
  {
    FilterMembers(plugins, willing);
    CallsEndAtStop(Filter(plugins, willing), outcome);
  }

  /** In any run over names that do not clash, a dispatch for an agent calls exactly the plugins
      that can take the message, are allowed for the user, and were last switched on for that
      agent, down to the first that stops it. */
  lemma {:induction false} DispatchFollowsSwitches(
    backed: bool, rows: Table, ops: seq<Op>, names: iset<Pair>, plugins: seq<Plugin>, agent: string,
    canHandle: Plugin -> bool, userAllows: Plugin -> bool)
    requires ConflictFree(names, backed) && Over(ops, names) && agent != ""
    requires forall i :: 0 <= i < |plugins| ==> Pair(agent, plugins[i].name) in names
    ensures Filter(plugins, Willing(Run(Fresh(backed, rows), ops), agent, canHandle, userAllows)) ==
            Filter(plugins, SwitchedOn(Fresh(backed, rows), ops, agent, canHandle, userAllows))
  {
    forall i | 0 <= i < |plugins|
      ensures Answer(Run(Fresh(backed, rows), ops), Pair(agent, plugins[i].name)) ==
              SwitchOf(Fresh(backed, rows), ops, Pair(agent, plugins[i].name))
    {
      var p := Pair(agent, plugins[i].name);
      RunTracks(backed, rows, ops, names, p);
      TracksAnswers(Run(Fresh(backed, rows), ops), p, SwitchOf(Fresh(backed, rows), ops, p));
    }
    FilterCongruent(plugins, Willing(Run(Fresh(backed, rows), ops), agent, canHandle, userAllows),
                    SwitchedOn(Fresh(backed, rows), ops, agent, canHandle, userAllows));
  }

  lemma {:induction false} FilterCongruent(ps: seq<Plugin>, f: Plugin -> bool, g: Plugin -> bool)
    requires forall i :: 0 <= i < |ps| ==> f(ps[i]) == g(ps[i])
    ensures Filter(ps, f) == Filter(ps, g)
    decreases |ps|
  {
    if ps != [] {
      FilterCongruent(ps[..|ps| - 1], f, g);
    }
  }

  // ---------- which names clash ----------

  /** An agent id whose keys another id's keys can imitate. */
  predicate Swallows(a: string, b: string) {
    b == a + ":" || a + "::" <= b
  }

  lemma KeySplits(a: string, x: string, b: string, y: string)
    requires a + "::" + x == b + "::" + y && |a| <= |b|
    ensures (a == b && x == y) || Swallows(a, b)
  {
    var k := a + "::" + x;
    assert a == k[..|a|] == b[..|a|];
    if |a| == |b| {
      assert x == k[|a| + 2..] == y;
    } else {
      assert b[|a|] == k[|a|] == ':';
      if |b| > |a| + 1 {
        assert b[|a| + 1] == k[|a| + 1] == ':';
        assert b[..|a| + 2] == a + "::";
      } else {
        assert b == a + ":";
      }
    }
  }

  lemma SwallowsCollide(a: string, b: string) returns (x: string, y: string)
    requires Swallows(a, b)
    ensures a != b && CacheKey(Pair(a, x)) == CacheKey(Pair(b, y))
  {
    y := "";
    if b == a + ":" {
      x := ":";
      assert a + "::" + ":" == a + ":" + "::";
    } else {
      x := b[|a| + 2..] + "::";
      assert b == a + "::" + b[|a| + 2..];
    }
  }

  ghost predicate KeysInjective(agents: iset<string>) {
    forall p: Pair, q: Pair :: p.agent in agents && q.agent in agents && CacheKey(p) == CacheKey(q) ==> p == q
  }

  /** Cache keys tell all plugins of a set of agents apart exactly when no agent id is another
      one followed by a colon, or begins with another one followed by two colons. */
  lemma KeysInjectiveIff(agents: iset<string>)
    ensures KeysInjective(agents) <==> forall a, b :: a in agents && b in agents ==> !Swallows(a, b)
  {
    if a, b :| a in agents && b in agents && Swallows(a, b) {
      var x, y := SwallowsCollide(a, b);
      assert CacheKey(Pair(a, x)) == CacheKey(Pair(b, y)) && Pair(a, x) != Pair(b, y);
    } else {
      forall p: Pair, q: Pair | p.agent in agents && q.agent in agents && CacheKey(p) == CacheKey(q) ensures p == q {
        if |p.agent| <= |q.agent| {
          KeySplits(p.agent, p.plugin, q.agent, q.plugin);
        } else {
          KeySplits(q.agent, q.plugin, p.agent, p.plugin);
        }
      }
    }
  }

  lemma SwallowingTakesAColon(a: string, b: string)
    requires Swallows(a, b)
    ensures ':' in b
  {
    assert b[|a|] == ':';
  }

  /** Names free of NUL, with agent ids free of colons, never clash. */
  lemma PlainNamesAreCoherent(names: iset<Pair>, backed: bool)
    requires forall p :: p in names ==> ':' !in p.agent && '\0' !in p.agent && '\0' !in p.plugin
    ensures Coherent(names, backed)
  {
    forall p, q | p in names && q in names && Clash(p, q, backed) ensures p == q {
      if Swallows(p.agent, q.agent) {
        SwallowingTakesAColon(p.agent, q.agent);
      } else if Swallows(q.agent, p.agent) {
        SwallowingTakesAColon(q.agent, p.agent);
      }
      if CacheKey(p) == CacheKey(q) {
        if |p.agent| <= |q.agent| {
          KeySplits(p.agent, p.plugin, q.agent, q.plugin);
        } else {
          KeySplits(q.agent, q.plugin, p.agent, p.plugin);
        }
      } else {
        Text.CTextIsNulFreePrefix(p.agent);
        Text.CTextIsNulFreePrefix(p.plugin);
        Text.CTextIsNulFreePrefix(q.agent);
        Text.CTextIsNulFreePrefix(q.plugin);
      }
    }
    CoherentIffConflictFree(names, backed);
  }

  // ---------- the manager object ----------

  class PluginManager {
    const backend: AgentTable?
    var disabledCache: set<string>
    var plugins: seq<Plugin>

    constructor (backend: AgentTable?)
      ensures this.backend == backend && disabledCache == {} && plugins == []
    {
      this.backend := backend;
      disabledCache, plugins := {}, [];
    }

    ghost function StateOf(): State
      reads this, if backend == null then {} else {backend}
    {
      State(disabledCache, backend != null, if backend == null then map[] else backend.rows)
    }

    method IsPluginEnabled(p: Pair) returns (enabled: bool)
      modifies this`disabledCache
      ensures enabled == Answer(old(StateOf()), p)
      ensures StateOf() == Step(old(StateOf()), Ask(p))
    {
      if CacheKey(p) in disabledCache {
        assert disabledCache == disabledCache + {CacheKey(p)};
        return false;
      }
      if backend == null {
        return true;
      }
      enabled := backend.QueryEnabled(p, true);
      if !enabled {
        disabledCache := disabledCache + {CacheKey(p)};
      }
    }

    method EnablePlugin(p: Pair)
      modifies this`disabledCache, if backend == null then {} else {backend}
      ensures StateOf() == Step(old(StateOf()), Enable(p))
    {
      disabledCache := disabledCache - {CacheKey(p)};
      if backend != null {
        backend.SetEnabled(p, true);
      }
    }

    method DisablePlugin(p: Pair)
      modifies this`disabledCache, if backend == null then {} else {backend}
      ensures StateOf() == Step(old(StateOf()), Disable(p))
    {
      disabledCache := disabledCache + {CacheKey(p)};
      if backend != null {
        backend.SetEnabled(p, false);
      }
    }

    method RegisterPlugin(p: Plugin) returns (added: bool)
      modifies this`plugins
      ensures added == !HasName(old(plugins), p.name)
      ensures plugins == Registered(old(plugins), p)
    {
      var i := 0;
      while i < |plugins|
        invariant 0 <= i <= |plugins|
        invariant !HasName(plugins[..i], p.name)
      {
        if plugins[i].name == p.name {
          return false;
        }
        assert forall k :: 0 <= k < i ==> plugins[..i + 1][k] == plugins[..i][k];
        i := i + 1;
      }
      assert plugins[..i] == plugins;
      plugins := StableSort(plugins + [p]);
      added := true;
    }

    /** Hands a message down the list. `outcome` is what each plugin does with it, `userAllows`
        the per-user switches; the empty agent is not filtered. */
    method DispatchMessage(
      agent: string, canHandle: Plugin -> bool, userAllows: Plugin -> bool, outcome: Plugin -> Outcome)
      returns (handledAny: bool, called: seq<Plugin>)
      modifies this`disabledCache
      ensures called == UpToStop(Filter(plugins, Willing(old(StateOf()), agent, canHandle, userAllows)), outcome)
      ensures handledAny == AnyHandled(called, outcome)
      // whoever is called takes the message, is allowed for the user and is on for the agent
      ensures forall p :: p in called ==>
                p in plugins && canHandle(p) && userAllows(p) &&
                (agent != "" ==> Answer(old(StateOf()), Pair(agent, p.name)))
      // and unless the message is stopped, everyone such is called
      ensures !Stops(called, outcome) ==>
                forall p :: (p in plugins && canHandle(p) && userAllows(p)
                             && (agent != "" ==> Answer(old(StateOf()), Pair(agent, p.name)))) ==> p in called
    {
      handledAny, called := false, [];
      ghost var start := StateOf();
      ghost var willing := Willing(start, agent, canHandle, userAllows);
      var i := 0;
      while i < |plugins|
        invariant 0 <= i <= |plugins|
        invariant SameAnswers(start, StateOf(), agent)
        invariant called == Filter(plugins[..i], willing) && !Stops(called, outcome)
        invariant handledAny == AnyHandled(called, outcome)
      {
        var current := plugins[i];
        assert plugins[..i + 1] == plugins[..i] + [current];
        FilterPush(plugins[..i], current, willing);
        StopsPush(called, current, outcome);
        i := i + 1;
        if !canHandle(current) {
          continue;
        }
        if agent != "" {
          AskKeepsAnswers(start, StateOf(), agent, current.name);
          var enabled := IsPluginEnabled(Pair(agent, current.name));
          if !enabled {
            continue;
          }
        }
        if !userAllows(current) {
          continue;
        }
        ghost var before := called;
        called := called + [current];
        match outcome(current)
        case Done(handled, stop) =>
          handledAny := handledAny || handled;
          if stop {
            StopEndsDispatch(plugins, i, willing, before, current, outcome);
            CalledAreWilling(plugins, willing, called, outcome);
            return;
          }
        case Threw =>
      }
      assert plugins[..i] == plugins;
      NoStopMeansAll(called, outcome);
      CalledAreWilling(plugins, willing, called, outcome);
    }
  }
}
