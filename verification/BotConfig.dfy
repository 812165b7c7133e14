/** The bot configuration file: the loader, the redacting printer, and what survives a save
    followed by a load. A JSON text is modelled by the value it denotes. */
module BotConfig {
  import opened Options

  datatype Error = TypeError | NoAgents

  datatype Result<+T> = Ok(value: T) | Err(error: Error) {
    predicate IsFailure() {
      Err?
    }
    function PropagateFailure<U>(): Result<U>
      requires Err?
    {
      Err(error)
    }
    function Extract(): T
      requires Ok?
    {
      value
    }
  }

  type Int32 = x: int | -0x8000_0000 <= x < 0x8000_0000
  type Int64 = x: int | -0x8000_0000_0000_0000 <= x < 0x8000_0000_0000_0000

  /** JSON numbers are whole here, in the range the parser keeps exactly. */
  type JsonInt = x: int | -0x8000_0000_0000_0000 <= x < 0x1_0000_0000_0000_0000

  /** The member names the program looks for, in the order of the constructors of Key. */
  predicate LookedFor(text: string) {
    text in {
      "name", "command", "args", "startup_timeout", "call_timeout", "env", "app_id", "app_secret",
      "model", "api_key", "user_token", "waf_cookie", "base_url", "enabled", "interval_hours",
      "min_conversations", "claude_path", "id", "platform", "llm_provider", "deepseek", "openai",
      "workspace", "storage_dir", "mode", "agent_reach_enabled", "max_messages_per_minute",
      "daily_token_budget", "self_iteration", "mcp_servers", "qq", "admins", "verify_tls", "log_file",
      "management_api", "listen", "jwt_secret", "agents", "global"
    }
  }

  type OtherName = text: string | !LookedFor(text) witness ""

  /** A member name: one the program looks for, or any other.  Every name has one form. */
  datatype Key =
    | KeyName | KeyCommand | KeyArgs | KeyStartupTimeout | KeyCallTimeout | KeyEnv | KeyAppId | KeyAppSecret
    | KeyModel | KeyApiKey | KeyUserToken | KeyWafCookie | KeyBaseUrl | KeyEnabled | KeyIntervalHours
    | KeyMinConversations | KeyClaudePath | KeyId | KeyPlatform | KeyLlmProvider | KeyDeepseek | KeyOpenai
    | KeyWorkspace | KeyStorageDir | KeyMode | KeyAgentReachEnabled | KeyMaxMessagesPerMinute
    | KeyDailyTokenBudget | KeySelfIteration | KeyMcpServers | KeyQq | KeyAdmins | KeyVerifyTls | KeyLogFile
    | KeyManagementApi | KeyListen | KeyJwtSecret | KeyAgents | KeyGlobal
    | Other(text: OtherName)

  datatype Json =
    | Null
    | Bool(b: bool)
    | Int(n: JsonInt)
    | Str(s: string)
    | Array(items: seq<Json>)
    | Object(fields: Fields)

  type Fields = map<Key, Json>

  // ---------- typed reads ----------

  /** Casts to a narrower signed integer wrap around. */
  function ToInt32(n: int): Int32 {
    (n + 0x8000_0000) % 0x1_0000_0000 - 0x8000_0000
  }

  function ToInt64(n: int): Int64 {
    (n + 0x8000_0000_0000_0000) % 0x1_0000_0000_0000_0000 - 0x8000_0000_0000_0000
  }

  function GetString(o: Fields, key: Key, absent: string): Result<string> {
    if key !in o then Ok(absent) else if o[key].Str? then Ok(o[key].s) else Err(TypeError)
  }

  function GetBool(o: Fields, key: Key, absent: bool): Result<bool> {
    if key !in o then Ok(absent) else if o[key].Bool? then Ok(o[key].b) else Err(TypeError)
  }

  /** Reading an int accepts a boolean; reading a 64-bit integer does not. */
  function GetInt32(o: Fields, key: Key, absent: Int32): Result<Int32> {
    if key !in o then Ok(absent)
    else
      match o[key]
      case Int(n) => Ok(ToInt32(n))
      case Bool(b) => Ok(if b then 1 else 0)
      case _ => Err(TypeError)
  }

  function GetInt64(o: Fields, key: Key, absent: Int64): Result<Int64> {
    if key !in o then Ok(absent) else if o[key].Int? then Ok(ToInt64(o[key].n)) else Err(TypeError)
  }

  const REDACTED := "***"

  /** A string that is absent, not a string, or redacted reads as empty. */
  function SafeString(o: Fields, key: Key): string {
    if key in o && o[key].Str? && o[key].s != REDACTED then o[key].s else ""
  }

  function Section(o: Fields, key: Key): Fields {
    if key in o && o[key].Object? then o[key].fields else map[]
  }

  function Items(o: Fields, key: Key): seq<Json> {
    if key in o && o[key].Array? then o[key].items else []
  }

  // ---------- the configuration ----------

  datatype Mode = Plugin | Agent

  datatype Qq = Qq(appId: string, appSecret: string)

  datatype Deepseek = Deepseek(apiKey: string, model: string, userToken: string, wafCookie: string)

  datatype Openai = Openai(apiKey: string, model: string, baseUrl: string)

  datatype SelfIteration = SelfIteration(
    enabled: bool, intervalHours: Int32, minConversations: Int32, claudePath: string)

  datatype Server = Server(
    name: string, command: string, args: seq<string>, startupTimeout: Int32, callTimeout: Int32, env: map<Key, string>)

  datatype AgentConfig = AgentConfig(
    id: string, name: string, enabled: bool, platform: string, qq: Qq,
    llmProvider: string, deepseek: Deepseek, openai: Openai, workspace: string, storageDir: string,
    admins: seq<string>, mode: Mode, agentReach: bool, maxPerMinute: Int32, dailyBudget: Int64,
    selfIteration: SelfIteration, servers: seq<Server>)

  datatype GlobalConfig = GlobalConfig(
    verifyTls: bool, logFile: string, apiEnabled: bool, listen: string, jwtSecret: string)

  datatype Config = Config(agents: seq<AgentConfig>, global: GlobalConfig, isLegacy: bool)

  const NO_ITERATION := SelfIteration(false, 24, 10, "claude")
  const STARTUP_TIMEOUT: Int32 := 30
  const CALL_TIMEOUT: Int32 := 60

  // ---------- the loader ----------

  function ParseMode(value: string): Mode {
    if value == "agent" then Agent else Plugin
  }

  /** The strings of an array, other items skipped. */
  function StringsIn(items: seq<Json>): seq<string> {
    if items == [] then []
    else
      var init := StringsIn(items[..|items| - 1]);
      if items[|items| - 1].Str? then init + [items[|items| - 1].s] else init
  }

  function Timeout(o: Fields, key: Key, absent: Int32): Int32 {
    if key in o && o[key].Int? then ToInt32(o[key].n) else absent
  }

  function EnvIn(o: Fields): map<Key, string> {
    map k | k in o && o[k].Str? :: o[k].s
  }

  function ParseServer(o: Fields): Result<Server> {
    var name :- GetString(o, KeyName, "");
    var command :- GetString(o, KeyCommand, "");
    Ok(Server(name, command, StringsIn(Items(o, KeyArgs)),
              Timeout(o, KeyStartupTimeout, STARTUP_TIMEOUT), Timeout(o, KeyCallTimeout, CALL_TIMEOUT),
              EnvIn(Section(o, KeyEnv))))
  }

  predicate Usable(s: Server) {
    s.name != "" && s.command != ""
  }

  /** What the items of an array yield, in order, those that yield nothing skipped. */
  function Collect<T>(items: seq<Json>, read: Json -> Result<Option<T>>): Result<seq<T>> {
    if items == [] then Ok([])
    else
      var init :- Collect(items[..|items| - 1], read);
      var x :- read(items[|items| - 1]);
      Ok(if x.Some? then init + [x.value] else init)
  }

  function ServerItem(item: Json): Result<Option<Server>> {
    if !item.Object? then Ok(None)
    else
      var s :- ParseServer(item.fields);
      Ok(if Usable(s) then Some(s) else None)
  }

  function ParseQq(o: Fields): Qq {
    Qq(SafeString(o, KeyAppId), SafeString(o, KeyAppSecret))
  }

  function ParseDeepseek(o: Fields): Result<Deepseek> {
    var model :- GetString(o, KeyModel, "deepseek-chat");
    Ok(Deepseek(SafeString(o, KeyApiKey), model, SafeString(o, KeyUserToken), SafeString(o, KeyWafCookie)))
  }

  function ParseOpenai(o: Fields): Result<Openai> {
    var model :- GetString(o, KeyModel, "gpt-4o");
    var baseUrl :- GetString(o, KeyBaseUrl, "https://api.openai.com");
    Ok(Openai(SafeString(o, KeyApiKey), model, baseUrl))
  }

  function ParseSelfIteration(o: Fields): Result<SelfIteration> {
    var enabled :- GetBool(o, KeyEnabled, NO_ITERATION.enabled);
    var interval :- GetInt32(o, KeyIntervalHours, NO_ITERATION.intervalHours);
    var conversations :- GetInt32(o, KeyMinConversations, NO_ITERATION.minConversations);
    var path :- GetString(o, KeyClaudePath, NO_ITERATION.claudePath);
    Ok(SelfIteration(enabled, interval, conversations, path))
  }

  function ParseAgent(j: Fields): Result<AgentConfig> {
    var id :- GetString(j, KeyId, "");
    var name :- GetString(j, KeyName, "");
    var enabled :- GetBool(j, KeyEnabled, true);
    var platform :- GetString(j, KeyPlatform, "qq");
    var llmProvider :- GetString(j, KeyLlmProvider, "deepseek");
    var deepseek :- ParseDeepseek(Section(j, KeyDeepseek));
    var openai :- ParseOpenai(Section(j, KeyOpenai));
    var workspace :- GetString(j, KeyWorkspace, "./workspace");
    var storageDir :- GetString(j, KeyStorageDir, "./contexts");
    var mode :- GetString(j, KeyMode, "agent");
    var agentReach :- GetBool(j, KeyAgentReachEnabled, true);
    var maxPerMinute :- GetInt32(j, KeyMaxMessagesPerMinute, 10);
    var dailyBudget :- GetInt64(j, KeyDailyTokenBudget, 0);
    var selfIteration :- ParseSelfIteration(Section(j, KeySelfIteration));
    var servers :- Collect(Items(j, KeyMcpServers), ServerItem);
    Ok(AgentConfig(id, name, enabled, platform, ParseQq(Section(j, KeyQq)), llmProvider, deepseek, openai, workspace,
                   storageDir, StringsIn(Items(j, KeyAdmins)), ParseMode(mode), agentReach, maxPerMinute, dailyBudget,
                   selfIteration, servers))
  }

  function AgentItem(item: Json): Result<Option<AgentConfig>> {
    if !item.Object? then Ok(None)
    else
      var a :- ParseAgent(item.fields);
      Ok(if a.id != "" then Some(a) else None)
  }

  function ParseGlobal(root: Fields): Result<GlobalConfig> {
    var src := if KeyGlobal in root && root[KeyGlobal].Object? then root[KeyGlobal].fields else root;
    var verifyTls :- GetBool(src, KeyVerifyTls, true);
    var logFile :- GetString(src, KeyLogFile, "");
    var mgmt := Section(src, KeyManagementApi);
    var apiEnabled :- GetBool(mgmt, KeyEnabled, false);
    var listen :- GetString(mgmt, KeyListen, "127.0.0.1:9090");
    Ok(GlobalConfig(verifyTls, logFile, apiEnabled, listen, SafeString(mgmt, KeyJwtSecret)))
  }

  /** The one agent of the flat format. */
  function LegacyAgent(root: Fields): Result<AgentConfig> {
    var a :- ParseAgent(root);
    Ok(a.(id := if a.id == "" then "default" else a.id, name := if a.name == "" then "Default" else a.name))
  }

  function Load(root: Json): Result<Config> {
    if !root.Object? then Err(TypeError)
    else
      var global :- ParseGlobal(root.fields);
      if KeyAgents in root.fields && root.fields[KeyAgents].Array? then
        var agents :- Collect(root.fields[KeyAgents].items, AgentItem);
        if agents == [] then Err(NoAgents) else Ok(Config(agents, global, false))
      else
        var a :- LegacyAgent(root.fields);
        Ok(Config([a], global, true))
  }

  // ---------- the printer ----------

  function Redact(secret: string): Json {
    Str(if secret == "" then "" else REDACTED)
  }

  function StringsJson(ss: seq<string>): seq<Json> {
    seq(|ss|, i requires 0 <= i < |ss| => Str(ss[i]))
  }

  function EnvJson(env: map<Key, string>): Fields {
    map k | k in env :: Str(env[k])
  }

  function ServerJson(s: Server): Fields {
    var o: Fields := map[KeyName := Str(s.name), KeyCommand := Str(s.command)];
    var p := if s.args != [] then o[KeyArgs := Array(StringsJson(s.args))] else o;
    if s.env != map[] then p[KeyEnv := Object(EnvJson(s.env))] else p
  }

  function ServersJson(ss: seq<Server>): seq<Json> {
    seq(|ss|, i requires 0 <= i < |ss| => Object(ServerJson(ss[i])))
  }

  function QqJson(q: Qq): Fields {
    map[KeyAppId := Str(q.appId), KeyAppSecret := Redact(q.appSecret)]
  }

  function DeepseekJson(d: Deepseek): Fields {
    map[KeyApiKey := Redact(d.apiKey), KeyModel := Str(d.model),
        KeyUserToken := Redact(d.userToken), KeyWafCookie := Redact(d.wafCookie)]
  }

  function OpenaiJson(o: Openai): Fields {
    map[KeyApiKey := Redact(o.apiKey), KeyModel := Str(o.model), KeyBaseUrl := Str(o.baseUrl)]
  }

  function SelfIterationJson(s: SelfIteration): Fields {
    map[KeyEnabled := Bool(s.enabled), KeyIntervalHours := Int(s.intervalHours),
        KeyMinConversations := Int(s.minConversations), KeyClaudePath := Str(s.claudePath)]
  }

  /** The members of an agent object; the last two are written only when present. */
  datatype AgentMembers = AgentMembers(
    id: Json, name: Json, enabled: Json, platform: Json, qq: Json, llmProvider: Json, deepseek: Json, openai: Json,
    workspace: Json, storageDir: Json, admins: Json, mode: Json, agentReach: Json,
    maxPerMinute: Json, dailyBudget: Json,
    selfIteration: Option<Json>, servers: Option<Json>)

  function Members(m: AgentMembers): Fields {
    var j := map[KeyId := m.id, KeyName := m.name, KeyEnabled := m.enabled, KeyPlatform := m.platform, KeyQq := m.qq,
                 KeyLlmProvider := m.llmProvider, KeyDeepseek := m.deepseek, KeyOpenai := m.openai,
                 KeyWorkspace := m.workspace, KeyStorageDir := m.storageDir, KeyAdmins := m.admins, KeyMode := m.mode,
                 KeyAgentReachEnabled := m.agentReach, KeyMaxMessagesPerMinute := m.maxPerMinute,
                 KeyDailyTokenBudget := m.dailyBudget];
    var k := if m.selfIteration.Some? then j[KeySelfIteration := m.selfIteration.value] else j;
    if m.servers.Some? then k[KeyMcpServers := m.servers.value] else k
  }

  function MembersOf(a: AgentConfig): AgentMembers {
    AgentMembers(
      Str(a.id), Str(a.name), Bool(a.enabled), Str(a.platform), Object(QqJson(a.qq)), Str(a.llmProvider),
      Object(DeepseekJson(a.deepseek)), Object(OpenaiJson(a.openai)), Str(a.workspace), Str(a.storageDir),
      Array(StringsJson(a.admins)), Str(if a.mode == Agent then "agent" else "plugin"), Bool(a.agentReach),
      Int(a.maxPerMinute), Int(a.dailyBudget),
      if a.selfIteration != NO_ITERATION then Some(Object(SelfIterationJson(a.selfIteration))) else None,
      if a.servers != [] then Some(Array(ServersJson(a.servers))) else None)
  }

  function AgentJson(a: AgentConfig): Fields {
    Members(MembersOf(a))
  }

  function AgentsJson(agents: seq<AgentConfig>): seq<Json> {
    seq(|agents|, i requires 0 <= i < |agents| => Object(AgentJson(agents[i])))
  }

  function GlobalJson(g: GlobalConfig): Fields {
    map[KeyVerifyTls := Bool(g.verifyTls), KeyLogFile := Str(g.logFile),
        KeyManagementApi := Object(map[KeyEnabled := Bool(g.apiEnabled), KeyListen := Str(g.listen),
                                       KeyJwtSecret := Redact(g.jwtSecret)])]
  }

  function ToJson(c: Config): Json {
    Object(map[KeyAgents := Array(AgentsJson(c.agents)), KeyGlobal := Object(GlobalJson(c.global))])
  }

  // ---------- what survives ----------

  function NormalServer(s: Server): Server {
    s.(startupTimeout := STARTUP_TIMEOUT, callTimeout := CALL_TIMEOUT)
  }

  function Somes<T>(xs: seq<Option<T>>): seq<T> {
    if xs == [] then []
    else
      var init := Somes(xs[..|xs| - 1]);
      if xs[|xs| - 1].Some? then init + [xs[|xs| - 1].value] else init
  }

  function KeptServer(s: Server): Option<Server> {
    if Usable(s) then Some(NormalServer(s)) else None
  }

  function KeptServers(ss: seq<Server>): seq<Option<Server>> {
    seq(|ss|, i requires 0 <= i < |ss| => KeptServer(ss[i]))
  }

  function NormalServers(ss: seq<Server>): seq<Server> {
    Somes(KeptServers(ss))
  }

  /** Secrets blank, a literal "***" app id blank, unusable servers dropped, timeouts default. */
  function NormalAgent(a: AgentConfig): AgentConfig {
    a.(qq := Qq(if a.qq.appId == REDACTED then "" else a.qq.appId, ""),
       deepseek := a.deepseek.(apiKey := "", userToken := "", wafCookie := ""),
       openai := a.openai.(apiKey := ""),
       servers := NormalServers(a.servers))
  }

  function KeptAgent(a: AgentConfig): Option<AgentConfig> {
    if a.id != "" then Some(NormalAgent(a)) else None
  }

  function KeptAgents(agents: seq<AgentConfig>): seq<Option<AgentConfig>> {
    seq(|agents|, i requires 0 <= i < |agents| => KeptAgent(agents[i]))
  }

  function NormalAgents(agents: seq<AgentConfig>): seq<AgentConfig> {
    Somes(KeptAgents(agents))
  }

  function Normal(c: Config): Config {
    Config(NormalAgents(c.agents), c.global.(jwtSecret := ""), false)
  }

  // ---------- reading back the pieces ----------

  lemma {:induction false} StringsReadBack(ss: seq<string>)
    ensures StringsIn(StringsJson(ss)) == ss
    decreases |ss|
  {
    if ss != [] {
      var init := ss[..|ss| - 1];
      StringsReadBack(init);
      assert StringsJson(ss)[..|ss| - 1] == StringsJson(init);
      assert ss == init + [ss[|ss| - 1]];
    }
  }

  lemma EnvReadsBack(env: map<Key, string>)
    ensures EnvIn(EnvJson(env)) == env
  {
  }

  lemma ServerReadsBack(s: Server)
    ensures ParseServer(ServerJson(s)) == Ok(NormalServer(s))
  {
    StringsReadBack(s.args);
    EnvReadsBack(s.env);
    assert StringsIn([]) == [];
    assert EnvIn(map[]) == map[];
  }

  lemma {:induction false} CollectPointwise<T>(items: seq<Json>, read: Json -> Result<Option<T>>, xs: seq<Option<T>>)
    requires |items| == |xs| && forall i :: 0 <= i < |xs| ==> read(items[i]) == Ok(xs[i])
    ensures Collect(items, read) == Ok(Somes(xs))
    decreases |xs|
  {
    if xs != [] {
      var n := |xs| - 1;
      assert forall i :: 0 <= i < n ==> read(items[..n][i]) == Ok(xs[..n][i]);
      CollectPointwise(items[..n], read, xs[..n]);
    }
  }

  lemma ServerItemReadsBack(s: Server)
    ensures ServerItem(Object(ServerJson(s))) == Ok(KeptServer(s))
  {
    ServerReadsBack(s);
  }

  lemma ServersReadBack(ss: seq<Server>)
    ensures Collect(ServersJson(ss), ServerItem) == Ok(NormalServers(ss))
  {
    var xs := KeptServers(ss);
    forall i | 0 <= i < |ss| ensures ServerItem(ServersJson(ss)[i]) == Ok(xs[i]) {
      ServerItemReadsBack(ss[i]);
    }
    CollectPointwise(ServersJson(ss), ServerItem, xs);
  }

  lemma QqReadsBack(q: Qq)
    ensures ParseQq(QqJson(q)) == Qq(if q.appId == REDACTED then "" else q.appId, "")
  {
  }

  lemma DeepseekReadsBack(d: Deepseek)
    ensures ParseDeepseek(DeepseekJson(d)) == Ok(d.(apiKey := "", userToken := "", wafCookie := ""))
  {
  }

  lemma OpenaiReadsBack(o: Openai)
    ensures ParseOpenai(OpenaiJson(o)) == Ok(o.(apiKey := ""))
  {
  }

  lemma SelfIterationReadsBack(s: SelfIteration)
    ensures ParseSelfIteration(SelfIterationJson(s)) == Ok(s)
    ensures ParseSelfIteration(map[]) == Ok(NO_ITERATION)
  {
  }

  predicate Holds(o: Fields, key: Key, v: Json) {
    key in o && o[key] == v
  }

  predicate HasIdentity(j: Fields, m: AgentMembers) {
    && Holds(j, KeyId, m.id) && Holds(j, KeyName, m.name) && Holds(j, KeyEnabled, m.enabled)
    && Holds(j, KeyPlatform, m.platform) && Holds(j, KeyQq, m.qq) && Holds(j, KeyLlmProvider, m.llmProvider)
    && Holds(j, KeyDeepseek, m.deepseek) && Holds(j, KeyOpenai, m.openai)
  }

  predicate HasRuntime(j: Fields, m: AgentMembers) {
    && Holds(j, KeyWorkspace, m.workspace) && Holds(j, KeyStorageDir, m.storageDir) && Holds(j, KeyAdmins, m.admins)
    && Holds(j, KeyMode, m.mode) && Holds(j, KeyAgentReachEnabled, m.agentReach)
    && Holds(j, KeyMaxMessagesPerMinute, m.maxPerMinute) && Holds(j, KeyDailyTokenBudget, m.dailyBudget)
  }

  predicate HasOptional(j: Fields, m: AgentMembers) {
    && (if m.selfIteration.Some? then Holds(j, KeySelfIteration, m.selfIteration.value) else KeySelfIteration !in j)
    && (if m.servers.Some? then Holds(j, KeyMcpServers, m.servers.value) else KeyMcpServers !in j)
  }

  lemma IdentityKept(m: AgentMembers)
    ensures HasIdentity(Members(m), m)
  {
  }

  lemma RuntimeKept(m: AgentMembers)
    ensures HasRuntime(Members(m), m)
  {
  }

  lemma OptionalKept(m: AgentMembers)
    ensures HasOptional(Members(m), m)
  {
  }

  /** The loader's reads of the plain members. */
  predicate PlainReads(j: Fields, n: AgentConfig) {
    && GetString(j, KeyId, "") == Ok(n.id) && GetString(j, KeyName, "") == Ok(n.name)
    && GetBool(j, KeyEnabled, true) == Ok(n.enabled) && GetString(j, KeyPlatform, "qq") == Ok(n.platform)
    && GetString(j, KeyLlmProvider, "deepseek") == Ok(n.llmProvider)
    && GetString(j, KeyWorkspace, "./workspace") == Ok(n.workspace)
    && GetString(j, KeyStorageDir, "./contexts") == Ok(n.storageDir)
    && GetString(j, KeyMode, "agent").Ok? && ParseMode(GetString(j, KeyMode, "agent").value) == n.mode
    && GetBool(j, KeyAgentReachEnabled, true) == Ok(n.agentReach)
    && GetInt32(j, KeyMaxMessagesPerMinute, 10) == Ok(n.maxPerMinute)
    && GetInt64(j, KeyDailyTokenBudget, 0) == Ok(n.dailyBudget)
  }

  /** The loader's reads of the nested members. */
  predicate NestedReads(j: Fields, n: AgentConfig) {
    && ParseQq(Section(j, KeyQq)) == n.qq && ParseDeepseek(Section(j, KeyDeepseek)) == Ok(n.deepseek)
    && ParseOpenai(Section(j, KeyOpenai)) == Ok(n.openai)
    && ParseSelfIteration(Section(j, KeySelfIteration)) == Ok(n.selfIteration)
    && Collect(Items(j, KeyMcpServers), ServerItem) == Ok(n.servers) && StringsIn(Items(j, KeyAdmins)) == n.admins
  }

  lemma ReadsSuffice(j: Fields, n: AgentConfig)
    requires PlainReads(j, n) && NestedReads(j, n)
    ensures ParseAgent(j) == Ok(n)
  {
  }

  lemma PlainMembersRead(j: Fields, a: AgentConfig)
    requires HasIdentity(j, MembersOf(a)) && HasRuntime(j, MembersOf(a))
    ensures PlainReads(j, a)
  {
  }

  lemma SecretMembersRead(j: Fields, a: AgentConfig)
    requires HasIdentity(j, MembersOf(a))
    ensures ParseQq(Section(j, KeyQq)) == NormalAgent(a).qq
    ensures ParseDeepseek(Section(j, KeyDeepseek)) == Ok(NormalAgent(a).deepseek)
    ensures ParseOpenai(Section(j, KeyOpenai)) == Ok(NormalAgent(a).openai)
  {
    QqReadsBack(a.qq);
    DeepseekReadsBack(a.deepseek);
    OpenaiReadsBack(a.openai);
  }

  lemma ListMembersRead(j: Fields, a: AgentConfig)
    requires HasRuntime(j, MembersOf(a)) && HasOptional(j, MembersOf(a))
    ensures ParseSelfIteration(Section(j, KeySelfIteration)) == Ok(a.selfIteration)
    ensures Collect(Items(j, KeyMcpServers), ServerItem) == Ok(NormalServers(a.servers))
    ensures StringsIn(Items(j, KeyAdmins)) == a.admins
  {
    StringsReadBack(a.admins);
    SelfIterationReadsBack(a.selfIteration);
    ServersReadBack(a.servers);
  }

  lemma AgentReadsBack(a: AgentConfig)
    ensures ParseAgent(AgentJson(a)) == Ok(NormalAgent(a))
  {
    var m := MembersOf(a);
    IdentityKept(m);
    RuntimeKept(m);
    OptionalKept(m);
    PlainMembersRead(AgentJson(a), a);
    SecretMembersRead(AgentJson(a), a);
    ListMembersRead(AgentJson(a), a);
    ReadsSuffice(AgentJson(a), NormalAgent(a));
  }

  lemma AgentItemReadsBack(a: AgentConfig)
    ensures AgentItem(Object(AgentJson(a))) == Ok(KeptAgent(a))
  {
    AgentReadsBack(a);
  }

  lemma AgentsReadBack(agents: seq<AgentConfig>)
    ensures Collect(AgentsJson(agents), AgentItem) == Ok(NormalAgents(agents))
  {
    var xs := KeptAgents(agents);
    forall i | 0 <= i < |agents| ensures AgentItem(AgentsJson(agents)[i]) == Ok(xs[i]) {
      AgentItemReadsBack(agents[i]);
    }
    CollectPointwise(AgentsJson(agents), AgentItem, xs);
  }

  lemma GlobalReadsBack(c: Config)
    ensures ParseGlobal(ToJson(c).fields) == Ok(c.global.(jwtSecret := ""))
  {
  }

  // ---------- save, then load ----------

  predicate HasId(agents: seq<AgentConfig>) {
    exists i :: 0 <= i < |agents| && agents[i].id != ""
  }

  lemma {:induction false} SomesEmptyIff<T>(xs: seq<Option<T>>)
    ensures Somes(xs) == [] <==> forall i :: 0 <= i < |xs| ==> xs[i].None?
    decreases |xs|
  {
    if xs != [] {
      var n := |xs| - 1;
      SomesEmptyIff(xs[..n]);
      assert forall i :: 0 <= i < n ==> xs[..n][i] == xs[i];
    }
  }

  lemma NormalAgentsEmptyIff(agents: seq<AgentConfig>)
    ensures NormalAgents(agents) != [] <==> HasId(agents)
  {
    var xs := KeptAgents(agents);
    SomesEmptyIff(xs);
    assert forall i :: 0 <= i < |agents| ==> (xs[i].None? <==> agents[i].id == "");
  }

  /** Loading what was printed gives the normal form, exactly when some agent has an id. */
  lemma LoadUndoesToJson(c: Config)
    ensures Load(ToJson(c)) == if HasId(c.agents) then Ok(Normal(c)) else Err(NoAgents)
  {
    GlobalReadsBack(c);
    AgentsReadBack(c.agents);
    NormalAgentsEmptyIff(c.agents);
  }

  // ---------- the normal form is a fixpoint, and who is in it ----------

  predicate CleanServer(s: Server) {
    Usable(s) && s.startupTimeout == STARTUP_TIMEOUT && s.callTimeout == CALL_TIMEOUT
  }

  ghost predicate CleanAgent(a: AgentConfig) {
    && a.id != "" && a.qq.appId != REDACTED && a.qq.appSecret == ""
    && a.deepseek.apiKey == "" && a.deepseek.userToken == "" && a.deepseek.wafCookie == "" && a.openai.apiKey == ""
    && forall i :: 0 <= i < |a.servers| ==> CleanServer(a.servers[i])
  }

  /** A configuration with nothing for a save and a load to lose. */
  ghost predicate Clean(c: Config) {
    c.agents != [] && !c.isLegacy && c.global.jwtSecret == "" &&
    forall i :: 0 <= i < |c.agents| ==> CleanAgent(c.agents[i])
  }

  /** Everything that gets through is one of the values offered. */
  lemma {:induction false} SomesMember<T>(xs: seq<Option<T>>, k: nat) returns (i: nat)
    requires k < |Somes(xs)|
    ensures i < |xs| && xs[i] == Some(Somes(xs)[k])
    decreases |xs|
  {
    var n := |xs| - 1;
    if k < |Somes(xs[..n])| {
      i := SomesMember(xs[..n], k);
    } else {
      i := n;
    }
  }

  lemma {:induction false} SomesAll<T>(xs: seq<Option<T>>, vs: seq<T>)
    requires |xs| == |vs| && forall i :: 0 <= i < |xs| ==> xs[i] == Some(vs[i])
    ensures Somes(xs) == vs
    decreases |xs|
  {
    if xs != [] {
      var n := |xs| - 1;
      SomesAll(xs[..n], vs[..n]);
      assert vs == vs[..n] + [vs[n]];
    }
  }

  lemma NormalAgentIsClean(a: AgentConfig)
    requires a.id != ""
    ensures CleanAgent(NormalAgent(a))
  {
    var xs := KeptServers(a.servers);
    forall k | 0 <= k < |NormalServers(a.servers)| ensures CleanServer(NormalServers(a.servers)[k]) {
      var i := SomesMember(xs, k);
    }
  }

  lemma CleanAgentStays(a: AgentConfig)
    requires CleanAgent(a)
    ensures NormalAgent(a) == a
  {
    SomesAll(KeptServers(a.servers), a.servers);
  }

  lemma NormalAgentsShape(agents: seq<AgentConfig>)
    ensures forall k :: 0 <= k < |NormalAgents(agents)| ==> CleanAgent(NormalAgents(agents)[k])
  {
    var xs := KeptAgents(agents);
    forall k | 0 <= k < |NormalAgents(agents)| ensures CleanAgent(NormalAgents(agents)[k]) {
      var i := SomesMember(xs, k);
      NormalAgentIsClean(agents[i]);
    }
  }

  lemma CleanAgentsStay(agents: seq<AgentConfig>)
    requires forall i :: 0 <= i < |agents| ==> CleanAgent(agents[i])
    ensures NormalAgents(agents) == agents
  {
    forall i | 0 <= i < |agents| ensures KeptAgent(agents[i]) == Some(agents[i]) {
      CleanAgentStays(agents[i]);
    }
    SomesAll(KeptAgents(agents), agents);
  }

  /** A configuration comes back unchanged from a save and a load exactly when it is clean. */
  lemma SaveKeepsIff(c: Config)
    ensures Load(ToJson(c)) == Ok(c) <==> Clean(c)
  {
    LoadUndoesToJson(c);
    NormalAgentsEmptyIff(c.agents);
    if Clean(c) {
      CleanAgentsStay(c.agents);
    } else if Load(ToJson(c)) == Ok(c) {
      NormalAgentsShape(c.agents);
    }
  }

  /** One save and load reaches the fixpoint. */
  lemma SaveLoadIsIdempotent(c: Config)
    requires HasId(c.agents)
    ensures Clean(Normal(c)) && Load(ToJson(Normal(c))) == Ok(Normal(c))
  {
    NormalAgentsEmptyIff(c.agents);
    NormalAgentsShape(c.agents);
    SaveKeepsIff(Normal(c));
  }

  // ---------- redaction ----------

  function Mask(secret: string): string {
    if secret == "" then "" else REDACTED
  }

  function MaskAgent(a: AgentConfig): AgentConfig {
    a.(qq := a.qq.(appSecret := Mask(a.qq.appSecret)),
       deepseek := a.deepseek.(apiKey := Mask(a.deepseek.apiKey), userToken := Mask(a.deepseek.userToken),
                               wafCookie := Mask(a.deepseek.wafCookie)),
       openai := a.openai.(apiKey := Mask(a.openai.apiKey)))
  }

  /** Two configurations that differ at most in what their non-empty secrets are. */
  ghost predicate SameButSecrets(c: Config, d: Config) {
    |c.agents| == |d.agents| &&
    (forall i :: 0 <= i < |c.agents| ==> MaskAgent(c.agents[i]) == MaskAgent(d.agents[i])) &&
    c.global.(jwtSecret := Mask(c.global.jwtSecret)) == d.global.(jwtSecret := Mask(d.global.jwtSecret))
  }

  lemma AgentJsonHides(a: AgentConfig)
    ensures AgentJson(a) == AgentJson(MaskAgent(a))
  {
    assert MembersOf(a) == MembersOf(MaskAgent(a));
  }

  /** The printed configuration does not depend on what the secrets are. */
  lemma PrintHidesSecrets(c: Config, d: Config)
    requires SameButSecrets(c, d)
    ensures ToJson(c) == ToJson(d)
  {
    forall i | 0 <= i < |c.agents| ensures AgentsJson(c.agents)[i] == AgentsJson(d.agents)[i] {
      AgentJsonHides(c.agents[i]);
      AgentJsonHides(d.agents[i]);
    }
    assert GlobalJson(c.global) == GlobalJson(d.global);
    assert AgentsJson(c.agents) == AgentsJson(d.agents);
  }

  // ---------- what every accepted file yields ----------

  predicate Loaded(a: AgentConfig) {
    a.id != "" && forall i :: 0 <= i < |a.servers| ==> Usable(a.servers[i])
  }

  /** Everything collected came from some item. */
  lemma {:induction false} CollectMember<T>(items: seq<Json>, read: Json -> Result<Option<T>>, k: nat) returns (i: nat)
    requires Collect(items, read).Ok? && k < |Collect(items, read).value|
    ensures i < |items| && read(items[i]) == Ok(Some(Collect(items, read).value[k]))
    decreases |items|
  {
    var n := |items| - 1;
    if k < |Collect(items[..n], read).value| {
      i := CollectMember(items[..n], read, k);
    } else {
      i := n;
    }
  }

  lemma ParsedServersAreUsable(items: seq<Json>)
    requires Collect(items, ServerItem).Ok?
    ensures forall k :: 0 <= k < |Collect(items, ServerItem).value| ==> Usable(Collect(items, ServerItem).value[k])
  {
    forall k | 0 <= k < |Collect(items, ServerItem).value| ensures Usable(Collect(items, ServerItem).value[k]) {
      var i := CollectMember(items, ServerItem, k);
    }
  }

  lemma ParsedAgentServers(j: Fields)
    requires ParseAgent(j).Ok?
    ensures forall k :: 0 <= k < |ParseAgent(j).value.servers| ==> Usable(ParseAgent(j).value.servers[k])
  {
    ParsedServersAreUsable(Items(j, KeyMcpServers));
  }

  /** Whatever the file, an accepted one has at least one agent, every agent has an id, and
      every server has a name and a command. */
  lemma LoadIsWellFormed(root: Json)
    requires Load(root).Ok?
    ensures var agents := Load(root).value.agents;
            agents != [] && forall k :: 0 <= k < |agents| ==> Loaded(agents[k])
    ensures Load(ToJson(Load(root).value)) == Ok(Normal(Load(root).value))
  {
    var c := Load(root).value;
    forall k | 0 <= k < |c.agents| ensures Loaded(c.agents[k]) {
      if c.isLegacy {
        ParsedAgentServers(root.fields);
      } else {
        var items := root.fields[KeyAgents].items;
        var i := CollectMember(items, AgentItem, k);
        ParsedAgentServers(items[i].fields);
      }
    }
    assert Loaded(c.agents[0]);
    LoadUndoesToJson(c);
  }

  // ---------- what the loader makes of a file, member by member ----------

  /** v is the string of the member, or the given one without the member; and so on. */
  predicate StringAt(o: Fields, key: Key, absent: string, v: string) {
    if key in o then o[key] == Str(v) else v == absent
  }

  predicate BoolAt(o: Fields, key: Key, absent: bool, v: bool) {
    if key in o then o[key] == Bool(v) else v == absent
  }

  /** A number counts modulo the width of its field, and a boolean as 0 or 1. */
  predicate Int32At(o: Fields, key: Key, absent: int, v: Int32) {
    if key !in o then v == absent
    else if o[key].Bool? then v == if o[key].b then 1 else 0
    else o[key].Int? && (o[key].n - v) % 0x1_0000_0000 == 0
  }

  predicate Int64At(o: Fields, key: Key, absent: int, v: Int64) {
    if key in o then o[key].Int? && (o[key].n - v) % 0x1_0000_0000_0000_0000 == 0 else v == absent
  }

  predicate SecretAt(o: Fields, key: Key, v: string) {
    v == if key in o && o[key].Str? && o[key].s != "***" then o[key].s else ""
  }

  lemma StringIsAt(o: Fields, key: Key, absent: string, v: string)
    ensures GetString(o, key, absent) == Ok(v) <==> StringAt(o, key, absent, v)
  {
  }

  lemma Int32IsAt(o: Fields, key: Key, absent: Int32, v: Int32)
    ensures GetInt32(o, key, absent) == Ok(v) <==> Int32At(o, key, absent, v)
  {
    if key in o && o[key].Int? {
      WrapIs32(o[key].n, v);
    }
  }

  lemma WrapIs32(n: int, v: Int32)
    ensures ToInt32(n) == v <==> (n - v) % 0x1_0000_0000 == 0
  {
  }

  lemma WrapIs64(n: int, v: Int64)
    ensures ToInt64(n) == v <==> (n - v) % 0x1_0000_0000_0000_0000 == 0
  {
  }

  lemma Int64IsAt(o: Fields, key: Key, absent: Int64, v: Int64)
    ensures GetInt64(o, key, absent) == Ok(v) <==> Int64At(o, key, absent, v)
  {
    if key in o && o[key].Int? {
      WrapIs64(o[key].n, v);
    }
  }

  lemma ReadsAreNeeded(j: Fields, a: AgentConfig)
    requires ParseAgent(j) == Ok(a)
    ensures PlainReads(j, a) && NestedReads(j, a)
  {
  }

  /** The plain members of an agent that loads. */
  lemma AgentMembersAre(j: Fields, a: AgentConfig)
    requires ParseAgent(j) == Ok(a)
    ensures StringAt(j, KeyId, "", a.id) && StringAt(j, KeyName, "", a.name)
    ensures BoolAt(j, KeyEnabled, true, a.enabled) && StringAt(j, KeyPlatform, "qq", a.platform)
    ensures StringAt(j, KeyLlmProvider, "deepseek", a.llmProvider)
    ensures StringAt(j, KeyWorkspace, "./workspace", a.workspace)
    ensures StringAt(j, KeyStorageDir, "./contexts", a.storageDir)
    ensures BoolAt(j, KeyAgentReachEnabled, true, a.agentReach)
    ensures Int32At(j, KeyMaxMessagesPerMinute, 10, a.maxPerMinute)
    ensures Int64At(j, KeyDailyTokenBudget, 0, a.dailyBudget)
    ensures a.mode == Agent <==> StringAt(j, KeyMode, "agent", "agent")
  {
    ReadsAreNeeded(j, a);
    StringIsAt(j, KeyId, "", a.id);
    StringIsAt(j, KeyName, "", a.name);
    Int32IsAt(j, KeyMaxMessagesPerMinute, 10, a.maxPerMinute);
    Int64IsAt(j, KeyDailyTokenBudget, 0, a.dailyBudget);
  }

  /** And its sections. */
  lemma AgentSectionsAre(j: Fields, a: AgentConfig)
    requires ParseAgent(j) == Ok(a)
    ensures var q := Section(j, KeyQq); SecretAt(q, KeyAppId, a.qq.appId) && SecretAt(q, KeyAppSecret, a.qq.appSecret)
    ensures var d := Section(j, KeyDeepseek);
            && SecretAt(d, KeyApiKey, a.deepseek.apiKey) && StringAt(d, KeyModel, "deepseek-chat", a.deepseek.model)
            && SecretAt(d, KeyUserToken, a.deepseek.userToken) && SecretAt(d, KeyWafCookie, a.deepseek.wafCookie)
    ensures var o := Section(j, KeyOpenai);
            && SecretAt(o, KeyApiKey, a.openai.apiKey) && StringAt(o, KeyModel, "gpt-4o", a.openai.model)
            && StringAt(o, KeyBaseUrl, "https://api.openai.com", a.openai.baseUrl)
    ensures a.admins == StringsIn(Items(j, KeyAdmins))
  {
    ReadsAreNeeded(j, a);
  }

  lemma SelfIterationIs(o: Fields, s: SelfIteration)
    requires ParseSelfIteration(o) == Ok(s)
    ensures BoolAt(o, KeyEnabled, false, s.enabled) && StringAt(o, KeyClaudePath, "claude", s.claudePath)
    ensures Int32At(o, KeyIntervalHours, 24, s.intervalHours) && Int32At(o, KeyMinConversations, 10, s.minConversations)
  {
    Int32IsAt(o, KeyIntervalHours, 24, s.intervalHours);
    Int32IsAt(o, KeyMinConversations, 10, s.minConversations);
  }

  /** A server that loads: its timeouts are the numbers of the file when it has numbers there. */
  lemma ServerMembersAre(o: Fields, s: Server)
    requires ParseServer(o) == Ok(s)
    ensures StringAt(o, KeyName, "", s.name) && StringAt(o, KeyCommand, "", s.command)
    ensures s.args == StringsIn(Items(o, KeyArgs))
    ensures if KeyStartupTimeout in o && o[KeyStartupTimeout].Int?
            then (o[KeyStartupTimeout].n - s.startupTimeout) % 0x1_0000_0000 == 0 else s.startupTimeout == 30
    ensures if KeyCallTimeout in o && o[KeyCallTimeout].Int?
            then (o[KeyCallTimeout].n - s.callTimeout) % 0x1_0000_0000 == 0 else s.callTimeout == 60
    ensures forall k :: k in s.env <==> k in Section(o, KeyEnv) && Section(o, KeyEnv)[k].Str?
    ensures forall k :: k in s.env ==> Section(o, KeyEnv)[k] == Str(s.env[k])
  {
    StringIsAt(o, KeyName, "", s.name);
    StringIsAt(o, KeyCommand, "", s.command);
    TimeoutIs(o, KeyStartupTimeout, 30);
    TimeoutIs(o, KeyCallTimeout, 60);
  }

  lemma TimeoutIs(o: Fields, key: Key, absent: Int32)
    ensures if key in o && o[key].Int? then (o[key].n - Timeout(o, key, absent)) % 0x1_0000_0000 == 0
            else Timeout(o, key, absent) == absent
  {
    if key in o && o[key].Int? {
      WrapIs32(o[key].n, Timeout(o, key, absent));
    }
  }

  lemma {:induction false} StringsInPointwise(a: seq<Json>, b: seq<Json>)
    ensures StringsIn(a + b) == StringsIn(a) + StringsIn(b)
    ensures |b| == 1 ==> StringsIn(b) == if b[0].Str? then [b[0].s] else []
    decreases |b|
  {
    if b == [] {
      assert a + b == a;
    } else {
      var init, last := b[..|b| - 1], b[|b| - 1];
      assert (a + b)[..|a + b| - 1] == a + init;
      StringsInPointwise(a, init);
    }
  }

  /** The global settings stand in their own object, or, in older files, at the top. */
  lemma GlobalMembersAre(root: Fields, g: GlobalConfig)
    requires ParseGlobal(root) == Ok(g)
    ensures var src := if KeyGlobal in root && root[KeyGlobal].Object? then root[KeyGlobal].fields else root;
            var mgmt := Section(src, KeyManagementApi);
            && BoolAt(src, KeyVerifyTls, true, g.verifyTls) && StringAt(src, KeyLogFile, "", g.logFile)
            && BoolAt(mgmt, KeyEnabled, false, g.apiEnabled) && StringAt(mgmt, KeyListen, "127.0.0.1:9090", g.listen)
            && SecretAt(mgmt, KeyJwtSecret, g.jwtSecret)
  {
  }

  // ---------- which files load ----------

  predicate StringOrNone(o: Fields, key: Key) {
    key in o ==> o[key].Str?
  }

  predicate BoolOrNone(o: Fields, key: Key) {
    key in o ==> o[key].Bool?
  }

  predicate IntOrNone(o: Fields, key: Key) {
    key in o ==> o[key].Int?
  }

  predicate IntBoolOrNone(o: Fields, key: Key) {
    key in o ==> o[key].Int? || o[key].Bool?
  }

  predicate PlainTyped(j: Fields) {
    && StringOrNone(j, KeyId) && StringOrNone(j, KeyName) && BoolOrNone(j, KeyEnabled)
    && StringOrNone(j, KeyPlatform) && StringOrNone(j, KeyLlmProvider)
    && StringOrNone(j, KeyWorkspace) && StringOrNone(j, KeyStorageDir) && StringOrNone(j, KeyMode)
    && BoolOrNone(j, KeyAgentReachEnabled) && IntBoolOrNone(j, KeyMaxMessagesPerMinute)
    && IntOrNone(j, KeyDailyTokenBudget)
  }

  predicate ModelsTyped(deepseek: Fields, openai: Fields) {
    StringOrNone(deepseek, KeyModel) && StringOrNone(openai, KeyModel) && StringOrNone(openai, KeyBaseUrl)
  }

  predicate IterationTyped(o: Fields) {
    && BoolOrNone(o, KeyEnabled) && IntBoolOrNone(o, KeyIntervalHours)
    && IntBoolOrNone(o, KeyMinConversations) && StringOrNone(o, KeyClaudePath)
  }

  lemma ModelsLoadIff(deepseek: Fields, openai: Fields)
    ensures ParseDeepseek(deepseek).Ok? && ParseOpenai(openai).Ok? <==> ModelsTyped(deepseek, openai)
  {
  }

  lemma IterationLoadsIff(o: Fields)
    ensures ParseSelfIteration(o).Ok? <==> IterationTyped(o)
  {
  }

  /** Whether the reads of an agent's plain members succeed. */
  predicate PlainOk(j: Fields) {
    && GetString(j, KeyId, "").Ok? && GetString(j, KeyName, "").Ok? && GetBool(j, KeyEnabled, true).Ok?
    && GetString(j, KeyPlatform, "qq").Ok? && GetString(j, KeyLlmProvider, "deepseek").Ok?
    && GetString(j, KeyWorkspace, "./workspace").Ok? && GetString(j, KeyStorageDir, "./contexts").Ok?
    && GetString(j, KeyMode, "agent").Ok? && GetBool(j, KeyAgentReachEnabled, true).Ok?
    && GetInt32(j, KeyMaxMessagesPerMinute, 10).Ok? && GetInt64(j, KeyDailyTokenBudget, 0).Ok?
  }

  lemma PlainOkIff(j: Fields)
    ensures PlainOk(j) <==> PlainTyped(j)
  {
  }

  lemma AgentNeeds(j: Fields)
    ensures ParseAgent(j).Ok? <==>
            && PlainOk(j) && ParseDeepseek(Section(j, KeyDeepseek)).Ok? && ParseOpenai(Section(j, KeyOpenai)).Ok?
            && ParseSelfIteration(Section(j, KeySelfIteration)).Ok?
            && Collect(Items(j, KeyMcpServers), ServerItem).Ok?
  {
  }

  /** An agent object loads exactly when its members, where present, have the right types. */
  lemma AgentLoadsIff(j: Fields)
    ensures ParseAgent(j).Ok? <==>
            && PlainTyped(j) && ModelsTyped(Section(j, KeyDeepseek), Section(j, KeyOpenai))
            && IterationTyped(Section(j, KeySelfIteration)) && ServersLoad(Items(j, KeyMcpServers))
  {
    AgentNeeds(j);
    PlainOkIff(j);
    ModelsLoadIff(Section(j, KeyDeepseek), Section(j, KeyOpenai));
    IterationLoadsIff(Section(j, KeySelfIteration));
    CollectsIff(Items(j, KeyMcpServers), ServerItem);
    ServersLoadIff(Items(j, KeyMcpServers));
  }

  predicate ServersLoad(items: seq<Json>) {
    forall i :: 0 <= i < |items| && items[i].Object? ==>
      StringOrNone(items[i].fields, KeyName) && StringOrNone(items[i].fields, KeyCommand)
  }

  lemma ServersLoadIff(items: seq<Json>)
    ensures ServersLoad(items) <==> forall i :: 0 <= i < |items| ==> ServerItem(items[i]).Ok?
  {
    forall i | 0 <= i < |items|
      ensures ServerItem(items[i]).Ok? <==>
              (items[i].Object? ==> StringOrNone(items[i].fields, KeyName) && StringOrNone(items[i].fields, KeyCommand))
    {
    }
  }

  /** A list loads exactly when every item does; the error is the first. */
  lemma {:induction false} CollectsIff<T>(items: seq<Json>, read: Json -> Result<Option<T>>)
    ensures Collect(items, read).Ok? <==> forall i :: 0 <= i < |items| ==> read(items[i]).Ok?
    ensures forall i :: 0 <= i < |items| && read(items[i]).Err? && (forall k :: 0 <= k < i ==> read(items[k]).Ok?) ==>
              Collect(items, read) == Err(read(items[i]).error)
    decreases |items|
  {
    if items != [] {
      var n := |items| - 1;
      CollectsIff(items[..n], read);
      assert forall i :: 0 <= i < n ==> items[..n][i] == items[i];
    }
  }

  /** A file with a list of agents gives those with an id, in order, and needs one. */
  lemma {:induction false} ListLoads(root: Fields, items: seq<Json>, g: GlobalConfig, xs: seq<Option<AgentConfig>>)
    requires KeyAgents in root && root[KeyAgents] == Array(items) && ParseGlobal(root) == Ok(g) && |xs| == |items|
    requires forall i :: 0 <= i < |items| ==>
               if items[i].Object? then
                 ParseAgent(items[i].fields).Ok? &&
                 (var a := ParseAgent(items[i].fields).value; xs[i] == if a.id != "" then Some(a) else None)
               else xs[i] == None
    ensures Load(Object(root)) == if Somes(xs) == [] then Err(NoAgents) else Ok(Config(Somes(xs), g, false))
  {
    CollectPointwise(items, AgentItem, xs);
  }

  /** A flat file is one agent, "default" by id and "Default" by name where it says nothing. */
  lemma FlatLoads(root: Fields, a: AgentConfig, g: GlobalConfig)
    requires KeyAgents !in root || !root[KeyAgents].Array?
    requires ParseAgent(root) == Ok(a) && ParseGlobal(root) == Ok(g)
    ensures Load(Object(root)) ==
            Ok(Config([a.(id := if a.id == "" then "default" else a.id,
                          name := if a.name == "" then "Default" else a.name)],
                      g, true))
  {
  }

  /** Everything a save and a load keep of an agent. */
  lemma NormalKeeps(a: AgentConfig)
    ensures var n := NormalAgent(a);
            && n.id == a.id && n.name == a.name && n.enabled == a.enabled && n.platform == a.platform
            && n.llmProvider == a.llmProvider && n.deepseek.model == a.deepseek.model
            && n.openai.model == a.openai.model && n.openai.baseUrl == a.openai.baseUrl
            && n.workspace == a.workspace && n.storageDir == a.storageDir && n.admins == a.admins && n.mode == a.mode
            && n.agentReach == a.agentReach && n.maxPerMinute == a.maxPerMinute && n.dailyBudget == a.dailyBudget
            && n.selfIteration == a.selfIteration && (a.qq.appId != "***" ==> n.qq.appId == a.qq.appId)
    ensures forall s :: s in a.servers && s.name != "" && s.command != "" ==>
              s.(startupTimeout := 30, callTimeout := 60) in NormalAgent(a).servers
  {
    forall s | s in a.servers && s.name != "" && s.command != ""
      ensures s.(startupTimeout := 30, callTimeout := 60) in NormalAgent(a).servers
    {
      var i :| 0 <= i < |a.servers| && a.servers[i] == s;
      SomesKeeps(KeptServers(a.servers), i);
    }
  }

  lemma {:induction false} SomesKeeps<T>(xs: seq<Option<T>>, i: nat)
    requires i < |xs| && xs[i].Some?
    ensures xs[i].value in Somes(xs)
    decreases |xs|
  {
    var n := |xs| - 1;
    if i < n {
      SomesKeeps(xs[..n], i);
    }
  }

  // ---------- the loops ----------

  lemma {:induction false} CollectStops<T>(items: seq<Json>, read: Json -> Result<Option<T>>, i: nat)
    requires i <= |items| && Collect(items[..i], read).Err?
    ensures Collect(items, read) == Err(Collect(items[..i], read).error)
    decreases |items|
  {
    if i == |items| {
      assert items[..i] == items;
    } else {
      var n := |items| - 1;
      assert items[..n][..i] == items[..i];
      CollectStops(items[..n], read, i);
    }
  }

  method ParseStringArray(items: seq<Json>) returns (out: seq<string>)
    ensures out == StringsIn(items)
  {
    out := [];
    var i := 0;
    while i < |items|
      invariant 0 <= i <= |items|
      invariant out == StringsIn(items[..i])
    {
      assert items[..i + 1][..i] == items[..i];
      if items[i].Str? {
        out := out + [items[i].s];
      }
      i := i + 1;
    }
    assert items[..i] == items;
  }

  method ParseServers(items: seq<Json>) returns (out: Result<seq<Server>>)
    ensures out == Collect(items, ServerItem)
  {
    var servers: seq<Server> := [];
    var i := 0;
    while i < |items|
      invariant 0 <= i <= |items|
      invariant Collect(items[..i], ServerItem) == Ok(servers)
    {
      assert items[..i + 1][..i] == items[..i];
      if items[i].Object? {
        var s := ParseServer(items[i].fields);
        if s.Err? {
          CollectStops(items, ServerItem, i + 1);
          return Err(s.error);
        }
        if s.value.name != "" && s.value.command != "" {
          servers := servers + [s.value];
        }
      }
      i := i + 1;
    }
    assert items[..i] == items;
    out := Ok(servers);
  }

  method ParseAgents(items: seq<Json>) returns (out: Result<seq<AgentConfig>>)
    ensures out == Collect(items, AgentItem)
  {
    var agents: seq<AgentConfig> := [];
    var i := 0;
    while i < |items|
      invariant 0 <= i <= |items|
      invariant Collect(items[..i], AgentItem) == Ok(agents)
    {
      assert items[..i + 1][..i] == items[..i];
      if items[i].Object? {
        var a := ParseAgent(items[i].fields);
        if a.Err? {
          CollectStops(items, AgentItem, i + 1);
          return Err(a.error);
        }
        if a.value.id != "" {
          agents := agents + [a.value];
        }
      }
      i := i + 1;
    }
    assert items[..i] == items;
    out := Ok(agents);
  }

  method PrintAgents(agents: seq<AgentConfig>) returns (items: seq<Json>)
    ensures items == AgentsJson(agents)
  {
    items := [];
    for i := 0 to |agents|
      invariant items == AgentsJson(agents[..i])
    {
      assert agents[..i + 1][..i] == agents[..i];
      items := items + [Object(AgentJson(agents[i]))];
    }
    assert agents[..|agents|] == agents;
  }
}
