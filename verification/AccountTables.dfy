/** The auth database as values: three tables, the schema's constraints, and the effect of
    each account operation that succeeds. */
module AccountTables {
  import opened Options

  datatype Provider = GitHub | QQ

  datatype Identity = Identity(provider: Provider, providerUserId: string)

  datatype UserRow = UserRow(username: string, avatar: string)

  datatype OAuthRow = OAuthRow(
    userId: string, identity: Identity, providerUsername: string,
    accessToken: string, refreshToken: string, tokenExpiresAt: Option<string>, createdAt: int)

  datatype Tables = Tables(users: map<string, UserRow>, oauth: map<string, OAuthRow>, credentials: map<string, string>)

  datatype Profile = Profile(
    identity: Identity, providerUsername: string, avatarUrl: string,
    accessToken: string, refreshToken: string, tokenExpiresAt: Option<string>)

  const EMPTY := Tables(map[], map[], map[])

  // ---------- what every state keeps ----------

  ghost predicate UsernamesUnique(t: Tables) {
    forall u, v :: u in t.users && v in t.users && t.users[u].username == t.users[v].username ==> u == v
  }

  ghost predicate IdentitiesUnique(t: Tables) {
    forall a, b :: a in t.oauth && b in t.oauth && t.oauth[a].identity == t.oauth[b].identity ==> a == b
  }

  ghost predicate ForeignKeys(t: Tables) {
    && (forall a :: a in t.oauth ==> t.oauth[a].userId in t.users)
    && (forall u :: u in t.credentials ==> u in t.users)
  }

  ghost predicate HasOAuth(t: Tables, user: string) {
    exists a :: a in t.oauth && t.oauth[a].userId == user
  }

  ghost predicate EveryoneCanLogIn(t: Tables) {
    forall u :: u in t.users ==> u in t.credentials || HasOAuth(t, u)
  }

  ghost predicate Inv(t: Tables) {
    UsernamesUnique(t) && IdentitiesUnique(t) && ForeignKeys(t) && EveryoneCanLogIn(t)
  }

  ghost predicate Owns(t: Tables, x: Identity, user: string) {
    exists a :: a in t.oauth && t.oauth[a].identity == x && t.oauth[a].userId == user
  }

  function Names(t: Tables): set<string> {
    set u | u in t.users :: t.users[u].username
  }

  predicate NameTaken(t: Tables, name: string) {
    name in Names(t)
  }

  // ---------- numbered usernames ----------

  function Digit(d: nat): char
    requires d < 10
  {
    "0123456789"[d]
  }

  function Decimal(n: nat): string {
    if n < 10 then [Digit(n)] else Decimal(n / 10) + [Digit(n % 10)]
  }

  /** The number a string of decimal digits stands for. */
  function Value(s: string): int {
    if s == "" then 0 else 10 * Value(s[..|s| - 1]) + (s[|s| - 1] as int - '0' as int)
  }

  predicate Digits(s: string) {
    s != "" && (forall i :: 0 <= i < |s| ==> '0' <= s[i] <= '9') && (|s| > 1 ==> s[0] != '0')
  }

  lemma DigitIs(d: nat)
    requires d < 10
    ensures Digit(d) as int - '0' as int == d
  {
  }

  lemma ValuePush(s: string, d: nat)
    requires d < 10
    ensures Value(s + [Digit(d)]) == 10 * Value(s) + d
  {
    DigitIs(d);
    assert (s + [Digit(d)])[..|s|] == s;
  }

  /** A printed counter is a numeral without leading zeros that stands for it. */
  lemma {:induction false} DecimalReadsBack(n: nat)
    ensures Digits(Decimal(n)) && Value(Decimal(n)) == n
    ensures n > 0 ==> Decimal(n)[0] != '0'
  {
    DigitIs(n % 10);
    if n < 10 {
      ValuePush("", n);
      assert "" + [Digit(n)] == Decimal(n);
    } else {
      DecimalReadsBack(n / 10);
      ValuePush(Decimal(n / 10), n % 10);
    }
  }

  lemma DecimalInjective(m: nat, n: nat)
    requires Decimal(m) == Decimal(n)
    ensures m == n
  {
    DecimalReadsBack(m);
    DecimalReadsBack(n);
  }

  function Numbered(base: string, n: nat): string {
    base + "-" + Decimal(n)
  }

  lemma NumberedInjective(base: string, m: nat, n: nat)
    requires Numbered(base, m) == Numbered(base, n)
    ensures m == n
  {
    assert Decimal(m) == Numbered(base, m)[|base| + 1..];
    assert Decimal(n) == Numbered(base, n)[|base| + 1..];
    DecimalInjective(m, n);
  }

  /** The name a new account gets: the base if free, otherwise base-n for the least free n >= 2. */
  ghost predicate IsAssignedName(t: Tables, base: string, name: string) {
    && !NameTaken(t, name)
    && if NameTaken(t, base) then
         exists n: nat :: n >= 2 && name == Numbered(base, n) &&
           forall k :: 2 <= k < n ==> NameTaken(t, Numbered(base, k))
       else name == base
  }

  lemma NumberedIs(base: string, n: nat)
    ensures Numbered(base, n) == base + "-" + Decimal(n) && Digits(Decimal(n)) && Value(Decimal(n)) == n
    ensures Numbered(base, 2) == base + "-2"
  {
    DecimalReadsBack(n);
    assert Decimal(2) == "2" && base + "-" + "2" == base + "-2";
  }

  /** In plain terms: the base if it is free, or else base-2 if that is, */
  lemma AssignedNameIs(t: Tables, base: string, name: string)
    requires IsAssignedName(t, base, name)
    ensures !NameTaken(t, name)
    ensures !NameTaken(t, base) ==> name == base
    ensures NameTaken(t, base) && !NameTaken(t, base + "-2") ==> name == base + "-2"
  {
    if NameTaken(t, base) {
      var n := AssignedNumber(t, base, name);
      NumberedIs(base, 2);
    }
  }

  /** and in general the base, a dash, and the numeral of the least number from 2 on that is free. */
  lemma AssignedNumber(t: Tables, base: string, name: string) returns (n: nat)
    requires IsAssignedName(t, base, name) && NameTaken(t, base)
    ensures n >= 2 && name == base + "-" + Decimal(n) && Digits(Decimal(n)) && Value(Decimal(n)) == n
    ensures forall k :: 2 <= k < n ==> NameTaken(t, Numbered(base, k))
  {
    n :| n >= 2 && name == Numbered(base, n) && forall k :: 2 <= k < n ==> NameTaken(t, Numbered(base, k));
    NumberedIs(base, n);
  }

  function ProviderName(p: Provider): string {
    match p
    case GitHub => "github"
    case QQ => "qq"
  }

  function BaseName(p: Profile): string {
    if p.providerUsername != "" then p.providerUsername else ProviderName(p.identity.provider) + "_user"
  }

  lemma BaseNameIs(p: Profile)
    ensures p.providerUsername != "" ==> BaseName(p) == p.providerUsername
    ensures p.providerUsername == "" && p.identity.provider == GitHub ==> BaseName(p) == "github_user"
    ensures p.providerUsername == "" && p.identity.provider == QQ ==> BaseName(p) == "qq_user"
  {
    assert "github" + "_user" == "github_user" && "qq" + "_user" == "qq_user";
  }

  function NewRow(p: Profile, user: string, now: int): OAuthRow {
    OAuthRow(user, p.identity, p.providerUsername, p.accessToken, p.refreshToken, p.tokenExpiresAt, now)
  }

  // ---------- operations that succeed ----------

  /** One successful call, with what the environment supplied: fresh ids, the clock, and
      which row a query picked. */
  datatype Op =
    | Refresh(p: Profile, row: string)
    | SignUp(p: Profile, user: string, row: string, name: string, now: int)
    | Link(p: Profile, user: string, row: string, now: int)
    | Register(name: string, hash: string, user: string)
    | SetPassword(user: string, hash: string)
    | Unlink(user: string, row: string)
    | Merge(target: string, source: string)

  function RowsOf(t: Tables, user: string): set<string> {
    set a | a in t.oauth && t.oauth[a].userId == user
  }

  ghost predicate Unlinked(t: Tables, x: Identity) {
    forall a :: a in t.oauth ==> t.oauth[a].identity != x
  }

  /** The guards the code checks, and freshness of generated ids. */
  ghost predicate Enabled(t: Tables, op: Op) {
    match op
    case Refresh(p, row) => row in t.oauth && t.oauth[row].identity == p.identity
    case SignUp(p, user, row, name, _) =>
      Unlinked(t, p.identity) && user !in t.users && row !in t.oauth && IsAssignedName(t, BaseName(p), name)
    case Link(p, user, row, _) => Unlinked(t, p.identity) && user in t.users && row !in t.oauth
    case Register(name, _, user) => !NameTaken(t, name) && user !in t.users
    case SetPassword(user, _) => user in t.users
    case Unlink(user, row) =>
      row in t.oauth && t.oauth[row].userId == user && (|RowsOf(t, user)| != 1 || user in t.credentials)
    case Merge(target, source) => target != source && target in t.users && source in t.users
  }

  function Refreshed(row: OAuthRow, p: Profile): OAuthRow {
    row.(accessToken := p.accessToken, refreshToken := p.refreshToken,
         tokenExpiresAt := p.tokenExpiresAt, providerUsername := p.providerUsername)
  }

  function WithAvatar(users: map<string, UserRow>, user: string, avatar: string): map<string, UserRow>
    requires user in users
  {
    if avatar != "" && users[user].avatar != avatar then users[user := users[user].(avatar := avatar)] else users
  }

  function Reassigned(oauth: map<string, OAuthRow>, source: string, target: string): map<string, OAuthRow> {
    map a | a in oauth :: if oauth[a].userId == source then oauth[a].(userId := target) else oauth[a]
  }

  function Effect(t: Tables, op: Op): Tables
    requires ForeignKeys(t) && Enabled(t, op)
  {
    match op
    case Refresh(p, row) =>
      t.(oauth := t.oauth[row := Refreshed(t.oauth[row], p)],
         users := WithAvatar(t.users, t.oauth[row].userId, p.avatarUrl))
    case SignUp(p, user, row, name, now) =>
      t.(users := t.users[user := UserRow(name, p.avatarUrl)], oauth := t.oauth[row := NewRow(p, user, now)])
    case Link(p, user, row, now) => t.(oauth := t.oauth[row := NewRow(p, user, now)])
    case Register(name, hash, user) =>
      t.(users := t.users[user := UserRow(name, "")], credentials := t.credentials[user := hash])
    case SetPassword(user, hash) => t.(credentials := t.credentials[user := hash])
    case Unlink(_, row) => t.(oauth := t.oauth - {row})
    case Merge(target, source) =>
      var users :=
        if t.users[target].avatar == "" then WithAvatar(t.users, target, t.users[source].avatar) else t.users;
      Tables(users - {source}, Reassigned(t.oauth, source, target), t.credentials - {source})
  }

  // ---------- what each operation stores, field by field ----------

  /** A known identity logs in: its row takes the new tokens and name, its owner the new avatar if
      there is one, and nothing else changes. */
  lemma RefreshStores(t: Tables, p: Profile, row: string)
    requires ForeignKeys(t) && Enabled(t, Refresh(p, row))
    ensures var t', was := Effect(t, Refresh(p, row)), t.oauth[row];
            && t'.oauth == t.oauth[row := OAuthRow(
                 userId := was.userId, identity := was.identity, providerUsername := p.providerUsername,
                 accessToken := p.accessToken, refreshToken := p.refreshToken, tokenExpiresAt := p.tokenExpiresAt,
                 createdAt := was.createdAt)]
            && t'.credentials == t.credentials
            && t'.users == t.users[was.userId := UserRow(
                 username := t.users[was.userId].username,
                 avatar := if p.avatarUrl != "" then p.avatarUrl else t.users[was.userId].avatar)]
  {
  }

  lemma SignUpStores(t: Tables, p: Profile, user: string, row: string, name: string, now: int)
    requires ForeignKeys(t) && Enabled(t, SignUp(p, user, row, name, now))
    ensures var t' := Effect(t, SignUp(p, user, row, name, now));
            && t'.oauth == t.oauth[row := OAuthRow(
                 userId := user, identity := p.identity, providerUsername := p.providerUsername,
                 accessToken := p.accessToken, refreshToken := p.refreshToken, tokenExpiresAt := p.tokenExpiresAt,
                 createdAt := now)]
            && t'.users == t.users[user := UserRow(username := name, avatar := p.avatarUrl)]
            && t'.credentials == t.credentials
  {
  }

  lemma LinkStores(t: Tables, p: Profile, user: string, row: string, now: int)
    requires ForeignKeys(t) && Enabled(t, Link(p, user, row, now))
    ensures var t' := Effect(t, Link(p, user, row, now));
            && t'.oauth == t.oauth[row := OAuthRow(
                 userId := user, identity := p.identity, providerUsername := p.providerUsername,
                 accessToken := p.accessToken, refreshToken := p.refreshToken, tokenExpiresAt := p.tokenExpiresAt,
                 createdAt := now)]
            && t'.users == t.users && t'.credentials == t.credentials
  {
  }

  /** Passwords: the hash given is the one stored, for that user alone. */
  lemma PasswordStores(t: Tables, op: Op)
    requires ForeignKeys(t) && Enabled(t, op) && (op.Register? || op.SetPassword?)
    ensures Effect(t, op).credentials == t.credentials[op.user := op.hash] && Effect(t, op).oauth == t.oauth
    ensures Effect(t, op).users ==
            if op.Register? then t.users[op.user := UserRow(username := op.name, avatar := "")] else t.users
  {
  }

  lemma UnlinkStores(t: Tables, user: string, row: string)
    requires ForeignKeys(t) && Enabled(t, Unlink(user, row))
    ensures var t' := Effect(t, Unlink(user, row));
            && t'.users == t.users && t'.credentials == t.credentials && row !in t'.oauth
            && forall a :: a in t.oauth && a != row ==> a in t'.oauth && t'.oauth[a] == t.oauth[a]
    ensures Effect(t, Unlink(user, row)).oauth.Keys <= t.oauth.Keys
  {
  }

  /** A merge: the rows of the source change their owner and nothing else, the source and its
      password go, and the target keeps its name, its password, and its avatar if it has one. */
  lemma MergeStores(t: Tables, target: string, source: string)
    requires ForeignKeys(t) && Enabled(t, Merge(target, source))
    ensures var t' := Effect(t, Merge(target, source));
            && t'.oauth.Keys == t.oauth.Keys && t'.users.Keys == t.users.Keys - {source}
            && t'.credentials.Keys == t.credentials.Keys - {source}
            && (forall a :: a in t.oauth ==>
                  var was := t.oauth[a].userId;
                  t'.oauth[a] == t.oauth[a].(userId := if was == source then target else was))
            && (forall u :: u in t'.users && u != target ==> t'.users[u] == t.users[u])
            && t'.users[target].username == t.users[target].username
            && t'.users[target].avatar ==
                 (if t.users[target].avatar != "" then t.users[target].avatar else t.users[source].avatar)
            && (forall u :: u in t'.credentials ==> t'.credentials[u] == t.credentials[u])
  {
  }

  // ---------- every operation keeps the invariant ----------

  /** Users who keep a row, or have a password, can still log in. */
  lemma LoginsKept(t: Tables, t': Tables)
    requires EveryoneCanLogIn(t)
    requires forall u :: u in t'.users && u !in t'.credentials ==> u in t.users && u !in t.credentials
    requires forall a :: a in t.oauth && t.oauth[a].userId in t'.users ==>
      a in t'.oauth && t'.oauth[a].userId == t.oauth[a].userId
    ensures EveryoneCanLogIn(t')
  {
    forall u | u in t'.users && u !in t'.credentials ensures HasOAuth(t', u) {
      var a :| a in t.oauth && t.oauth[a].userId == u;
      assert a in t'.oauth && t'.oauth[a].userId == u;
    }
  }

  lemma RefreshKeepsInv(t: Tables, op: Op)
    requires Inv(t) && Enabled(t, op) && op.Refresh?
    ensures Inv(Effect(t, op))
  {
    KeysKept(t, Effect(t, op));
    LoginsKept(t, Effect(t, op));
  }

  lemma SignUpLogins(t: Tables, op: Op, u: string)
    requires Inv(t) && Enabled(t, op) && op.SignUp?
    requires u in Effect(t, op).users && u !in Effect(t, op).credentials
    ensures HasOAuth(Effect(t, op), u)
  {
    var t' := Effect(t, op);
    if u == op.user {
      assert t'.oauth[op.row].userId == u;
    } else {
      var a :| a in t.oauth && t.oauth[a].userId == u;
      assert t'.oauth[a].userId == u;
    }
  }

  lemma SignUpKeepsInv(t: Tables, op: Op)
    requires Inv(t) && Enabled(t, op) && op.SignUp?
    ensures Inv(Effect(t, op))
  {
    var t' := Effect(t, op);
    assert forall u :: u in t.users ==> t.users[u].username != op.name;
    forall u | u in t'.users && u !in t'.credentials ensures HasOAuth(t', u) {
      SignUpLogins(t, op, u);
    }
  }

  lemma LinkKeepsInv(t: Tables, op: Op)
    requires Inv(t) && Enabled(t, op) && op.Link?
    ensures Inv(Effect(t, op))
  {
    LoginsKept(t, Effect(t, op));
  }

  lemma CredentialKeepsInv(t: Tables, op: Op)
    requires Inv(t) && Enabled(t, op) && (op.Register? || op.SetPassword?)
    ensures Inv(Effect(t, op))
  {
    LoginsKept(t, Effect(t, op));
    if op.Register? {
      assert forall u :: u in t.users ==> t.users[u].username != op.name;
    }
  }

  lemma Another(s: set<string>, a: string) returns (b: string)
    requires a in s && |s| != 1
    ensures b in s && b != a
  {
    assert |s - {a}| == |s| - 1;
    b :| b in s - {a};
  }

  lemma UnlinkKeepsInv(t: Tables, op: Op)
    requires Inv(t) && Enabled(t, op) && op.Unlink?
    ensures Inv(Effect(t, op))
  {
    var t' := Effect(t, op);
    forall u | u in t'.users && u !in t'.credentials ensures HasOAuth(t', u) {
      var a :| a in t.oauth && t.oauth[a].userId == u;
      if a == op.row {
        a := Another(RowsOf(t, u), op.row);
      }
      assert a in t'.oauth && t'.oauth[a].userId == u;
    }
  }

  /** Same names for the users that remain, same identities for the rows that remain. */
  lemma KeysKept(t: Tables, t': Tables)
    requires UsernamesUnique(t) && IdentitiesUnique(t)
    requires forall u :: u in t'.users ==> u in t.users && t'.users[u].username == t.users[u].username
    requires forall a :: a in t'.oauth ==> a in t.oauth && t'.oauth[a].identity == t.oauth[a].identity
    ensures UsernamesUnique(t') && IdentitiesUnique(t')
  {
  }

  lemma MergeKeepsKeys(t: Tables, op: Op)
    requires Inv(t) && Enabled(t, op) && op.Merge?
    ensures UsernamesUnique(Effect(t, op)) && IdentitiesUnique(Effect(t, op))
  {
    KeysKept(t, Effect(t, op));
  }

  lemma MergeKeepsForeignKeys(t: Tables, op: Op)
    requires ForeignKeys(t) && Enabled(t, op) && op.Merge?
    ensures ForeignKeys(Effect(t, op))
  {
  }

  lemma MergeKeepsLogins(t: Tables, op: Op)
    requires Inv(t) && Enabled(t, op) && op.Merge?
    ensures EveryoneCanLogIn(Effect(t, op))
  {
    LoginsKept(t, Effect(t, op));
  }

  /** Usernames and identities stay unique, every row points at an existing user, and every
      user keeps a way to log in. */
  lemma OpKeepsInv(t: Tables, op: Op)
    requires Inv(t) && Enabled(t, op)
    ensures Inv(Effect(t, op))
  {
    match op
    case Refresh(_, _) => RefreshKeepsInv(t, op);
    case Unlink(_, _) => UnlinkKeepsInv(t, op);
    case Merge(_, _) => MergeKeepsKeys(t, op); MergeKeepsForeignKeys(t, op); MergeKeepsLogins(t, op);
    case SignUp(_, _, _, _, _) => SignUpKeepsInv(t, op);
    case Link(_, _, _, _) => LinkKeepsInv(t, op);
    case _ => CredentialKeepsInv(t, op);
  }

  // ---------- who owns which identity ----------

  /** Exactly how each operation moves ownership. */
  ghost predicate OwnsAfter(t: Tables, op: Op, x: Identity, u: string)
    requires ForeignKeys(t) && Enabled(t, op)
  {
    match op
    case SignUp(p, user, _, _, _) => Owns(t, x, u) || (x == p.identity && u == user)
    case Link(p, user, _, _) => Owns(t, x, u) || (x == p.identity && u == user)
    case Unlink(_, row) => Owns(t, x, u) && x != t.oauth[row].identity
    case Merge(target, source) => (Owns(t, x, u) && u != source) || (u == target && Owns(t, x, source))
    case _ => Owns(t, x, u)
  }

  lemma RowOwns(t: Tables, a: string)
    requires a in t.oauth
    ensures Owns(t, t.oauth[a].identity, t.oauth[a].userId)
  {
  }

  lemma AddedOwnership(t: Tables, op: Op, x: Identity, u: string)
    requires Inv(t) && Enabled(t, op) && (op.SignUp? || op.Link?)
    ensures Owns(Effect(t, op), x, u) <==> OwnsAfter(t, op, x, u)
  {
    var t' := Effect(t, op);
    RowOwns(t', op.row);
    if Owns(t, x, u) {
      var a :| a in t.oauth && t.oauth[a].identity == x && t.oauth[a].userId == u;
      RowOwns(t', a);
    }
  }

  lemma UnlinkedOwnership(t: Tables, op: Op, x: Identity, u: string)
    requires Inv(t) && Enabled(t, op) && op.Unlink?
    ensures Owns(Effect(t, op), x, u) <==> OwnsAfter(t, op, x, u)
  {
    var t' := Effect(t, op);
    if Owns(t, x, u) && x != t.oauth[op.row].identity {
      var a :| a in t.oauth && t.oauth[a].identity == x && t.oauth[a].userId == u;
      RowOwns(t', a);
    }
  }

  lemma MergedOwnership(t: Tables, op: Op, x: Identity, u: string)
    requires Inv(t) && Enabled(t, op) && op.Merge?
    ensures Owns(Effect(t, op), x, u) <==> OwnsAfter(t, op, x, u)
  {
    var t' := Effect(t, op);
    if Owns(t', x, u) {
      var a :| a in t'.oauth && t'.oauth[a].identity == x && t'.oauth[a].userId == u;
      RowOwns(t, a);
    }
    if Owns(t, x, u) && u != op.source {
      var a :| a in t.oauth && t.oauth[a].identity == x && t.oauth[a].userId == u;
      RowOwns(t', a);
    }
    if Owns(t, x, op.source) && u == op.target {
      var a :| a in t.oauth && t.oauth[a].identity == x && t.oauth[a].userId == op.source;
      RowOwns(t', a);
    }
  }

  lemma UnmovedOwnership(t: Tables, op: Op, x: Identity, u: string)
    requires Inv(t) && Enabled(t, op) && (op.Refresh? || op.Register? || op.SetPassword?)
    ensures Owns(Effect(t, op), x, u) <==> Owns(t, x, u)
  {
    var t' := Effect(t, op);
    if Owns(t, x, u) {
      var a :| a in t.oauth && t.oauth[a].identity == x && t.oauth[a].userId == u;
      RowOwns(t', a);
    }
  }

  lemma OwnershipMoves(t: Tables, op: Op, x: Identity, u: string)
    requires Inv(t) && Enabled(t, op)
    ensures Owns(Effect(t, op), x, u) <==> OwnsAfter(t, op, x, u)
  {
    match op
    case SignUp(_, _, _, _, _) => AddedOwnership(t, op, x, u);
    case Link(_, _, _, _) => AddedOwnership(t, op, x, u);
    case Unlink(_, _) => UnlinkedOwnership(t, op, x, u);
    case Merge(_, _) => MergedOwnership(t, op, x, u);
    case _ => UnmovedOwnership(t, op, x, u);
  }

  /** An identity has at most one owner, and that owner exists. */
  lemma OneOwner(t: Tables, x: Identity, u: string, v: string)
    requires Inv(t)
    ensures Owns(t, x, u) && Owns(t, x, v) ==> u == v && u in t.users
  {
  }

  function Run(t: Tables, ops: seq<Op>): (r: Tables)
    requires Inv(t) && Legal(t, ops)
    ensures Inv(r)
    decreases |ops|
  {
    if ops == [] then t else
      OpKeepsInv(t, ops[0]);
      Run(Effect(t, ops[0]), ops[1..])
  }

  ghost predicate Legal(t: Tables, ops: seq<Op>)
    requires Inv(t)
    decreases |ops|
  {
    ops == [] ||
    (Enabled(t, ops[0]) && (OpKeepsInv(t, ops[0]); Legal(Effect(t, ops[0]), ops[1..])))
  }

  /** Where merges take the owner u. */
  function Followed(u: string, ops: seq<Op>): string
    decreases |ops|
  {
    if ops == [] then u
    else Followed(if ops[0].Merge? && ops[0].source == u then ops[0].target else u, ops[1..])
  }

  /** No unlink along the way removes the row of x. */
  ghost predicate NeverUnlinks(t: Tables, ops: seq<Op>, x: Identity)
    requires Inv(t) && Legal(t, ops)
    decreases |ops|
  {
    ops == [] ||
    (!(ops[0].Unlink? && t.oauth[ops[0].row].identity == x)
     && (OpKeepsInv(t, ops[0]); NeverUnlinks(Effect(t, ops[0]), ops[1..], x)))
  }

  /** Over any later history, an identity stays with its owner, through merges, until that very
      identity is unlinked: in particular a merged identity resolves to the merge target. */
  lemma {:induction false} OwnerIsFollowed(t: Tables, ops: seq<Op>, x: Identity, u: string)
    requires Inv(t) && Legal(t, ops) && Owns(t, x, u) && NeverUnlinks(t, ops, x)
    ensures Owns(Run(t, ops), x, Followed(u, ops))
    decreases |ops|
  {
    if ops != [] {
      var op := ops[0];
      var v := if op.Merge? && op.source == u then op.target else u;
      OpKeepsInv(t, op);
      OwnershipMoves(t, op, x, v);
      OwnerIsFollowed(Effect(t, op), ops[1..], x, v);
    }
  }
}
