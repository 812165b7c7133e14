/** Account creation, linking, merging and password credentials over the auth database.
    Each method is synchronous, as the database driver is, so it runs as one step. */
module Accounts {
  import opened Options
  import opened AccountTables

  datatype User = User(id: string, username: string, avatar: string)
  datatype Conflict = Conflict(existingUser: User, existingRow: OAuthRow)
  datatype LoginResult = LoginResult(user: Option<User>, isNew: bool, conflict: Option<Conflict>)

  datatype Error =
    | ConstraintFailed
    | CurrentUserRequired
    | SelfMerge
    | TargetNotFound
    | SourceNotFound
    | OnlyLoginMethod
    | NotLinked
    | UsernameTaken

  datatype Result<T> = Ok(value: T) | Err(error: Error)

  datatype Mode = LoginMode | LinkMode

  function UserOf(t: Tables, id: string): Option<User> {
    if id in t.users then Some(User(id, t.users[id].username, t.users[id].avatar)) else None
  }

  /** A reported user is a row of the table. */
  predicate IsRow(users: map<string, UserRow>, u: User) {
    u.id in users && u.username == users[u.id].username && u.avatar == users[u.id].avatar
  }

  /** The string key merging uses to compare identities. */
  function IdentityKey(x: Identity): string {
    ProviderName(x.provider) + ":" + x.providerUserId
  }

  lemma IdentityKeyInjective(x: Identity, y: Identity)
    requires IdentityKey(x) == IdentityKey(y)
    ensures x == y
  {
    assert IdentityKey(x)[0] == ProviderName(x.provider)[0];
    assert IdentityKey(y)[0] == ProviderName(y.provider)[0];
    var n := |ProviderName(x.provider)| + 1;
    assert x.providerUserId == IdentityKey(x)[n..];
    assert y.providerUserId == IdentityKey(y)[n..];
  }

  class AuthDb {
    var users: map<string, UserRow>
    var oauth: map<string, OAuthRow>
    var credentials: map<string, string>

    function View(): Tables
      reads this
    {
      Tables(users, oauth, credentials)
    }

    ghost predicate Valid()
      reads this
    {
      Inv(View())
    }

    constructor ()
      ensures Valid() && View() == EMPTY
    {
      users, oauth, credentials := map[], map[], map[];
    }

    // ---------- statements, with the schema's constraints ----------

    /** INSERT INTO users: fails on a duplicate id or username. */
    method InsertUser(id: string, row: UserRow) returns (ok: bool)
      modifies this`users
      ensures ok <==> id !in old(users) && !NameTaken(old(View()), row.username)
      ensures users == if ok then old(users)[id := row] else old(users)
    {
      ok := id !in users && !NameTaken(View(), row.username);
      if ok {
        users := users[id := row];
      }
    }

    /** INSERT INTO oauth_accounts: fails on a duplicate id or identity, or a missing user. */
    method InsertOAuth(id: string, row: OAuthRow) returns (ok: bool)
      modifies this`oauth
      ensures ok <==> id !in old(oauth) && Unlinked(old(View()), row.identity) && row.userId in users
      ensures oauth == if ok then old(oauth)[id := row] else old(oauth)
    {
      ok := id !in oauth && (forall a :: a in oauth ==> oauth[a].identity != row.identity) && row.userId in users;
      if ok {
        oauth := oauth[id := row];
      }
    }

    /** DELETE FROM users: cascades to the user's identities and password. */
    method DeleteUser(id: string)
      modifies this
      ensures users == old(users) - {id}
      ensures oauth == map a | a in old(oauth) && old(oauth)[a].userId != id :: old(oauth)[a]
      ensures credentials == old(credentials) - {id}
    {
      users := users - {id};
      oauth := WithoutUser(oauth, id);
      credentials := credentials - {id};
    }

    // ---------- accounts ----------

    /** Terminates because every candidate refused so far is a different existing username. */
    method UniqueUsername(base: string) returns (name: string)
      ensures IsAssignedName(View(), base, name)
    {
      if !NameTaken(View(), base) {
        return base;
      }
      ghost var t, names := View(), Names(View());
      ghost var refused: set<string> := {};
      var counter := 2;
      name := Numbered(base, counter);
      while NameTaken(View(), name)
        invariant counter >= 2 && name == Numbered(base, counter)
        invariant RefusedAre(base, refused, counter)
        invariant refused <= names && |refused| == counter - 2
        decreases |names| - |refused|
      {
        NextIsNew(base, refused, counter);
        CardinalityOfSubset(refused + {name}, names);
        refused := refused + {name};
        counter := counter + 1;
        name := Numbered(base, counter);
      }
      assert forall k :: 2 <= k < counter ==> NameTaken(t, Numbered(base, k));
    }

    method FindRow(identity: Identity) returns (row: Option<string>)
      ensures row.Some? ==> row.value in oauth && oauth[row.value].identity == identity
      ensures row.None? ==> Unlinked(View(), identity)
    {
      if a :| a in oauth && oauth[a].identity == identity {
        row := Some(a);
      } else {
        row := None;
      }
    }

    /** The branch of a known identity. */
    method LogInKnown(p: Profile, mode: Mode, current: string, row: string) returns (r: Result<LoginResult>)
      requires Valid() && row in oauth && oauth[row].identity == p.identity
      modifies this
      ensures Valid() && View() == Effect(old(View()), Refresh(p, row))
      ensures var owner := old(oauth)[row].userId;
              r == Ok(
                if mode == LinkMode && current != "" && owner != current then
                  LoginResult(UserOf(View(), current), false,
                              Some(Conflict(UserOf(View(), owner).value, old(oauth)[row])))
                else LoginResult(UserOf(View(), owner), false, None))
      ensures oauth == old(oauth)[row := OAuthRow(
                userId := old(oauth)[row].userId, identity := old(oauth)[row].identity,
                providerUsername := p.providerUsername, accessToken := p.accessToken,
                refreshToken := p.refreshToken, tokenExpiresAt := p.tokenExpiresAt,
                createdAt := old(oauth)[row].createdAt)]
    {
      ghost var before := View();
      var owner := oauth[row].userId;
      var oldRow := oauth[row];
      OpKeepsInv(before, Refresh(p, row));
      RefreshStores(before, p, row);
      oauth := oauth[row := Refreshed(oauth[row], p)];
      if p.avatarUrl != "" && users[owner].avatar != p.avatarUrl {
        users := users[owner := users[owner].(avatar := p.avatarUrl)];
      }
      assert View() == Effect(before, Refresh(p, row));
      var user := User(owner, users[owner].username, users[owner].avatar);
      if mode == LinkMode && current != "" && owner != current {
        return Ok(LoginResult(UserOf(View(), current), false, Some(Conflict(user, oldRow))));
      }
      r := Ok(LoginResult(Some(user), false, None));
    }

    /** `newUser` and `newRow` are the generated UUIDs; `current` is "" when absent. */
    method FindOrCreateUser(p: Profile, mode: Mode, current: string, newUser: string, newRow: string, now: int)
      returns (r: Result<LoginResult>)
      requires Valid()
      requires newUser !in users && newRow !in oauth
      modifies this
      ensures Valid()
      ensures forall row :: row in old(oauth) && old(oauth)[row].identity == p.identity ==>
                var owner := old(oauth)[row].userId;
                && View() == Effect(old(View()), Refresh(p, row))
                && r == Ok(
                     if mode == LinkMode && current != "" && owner != current then
                       LoginResult(UserOf(View(), current), false,
                                   Some(Conflict(UserOf(View(), owner).value, old(oauth)[row])))
                     else LoginResult(UserOf(View(), owner), false, None))
      ensures Unlinked(old(View()), p.identity) && mode == LoginMode ==>
                exists name ::
                  && IsAssignedName(old(View()), BaseName(p), name)
                  && View() == Effect(old(View()), SignUp(p, newUser, newRow, name, now))
                  && r == Ok(LoginResult(Some(User(newUser, name, p.avatarUrl)), true, None))
      ensures Unlinked(old(View()), p.identity) && mode == LinkMode && (current == "" || current !in old(users)) ==>
                View() == old(View()) && r == Err(if current == "" then CurrentUserRequired else ConstraintFailed)
      ensures Unlinked(old(View()), p.identity) && mode == LinkMode && current != "" && current in old(users) ==>
                && View() == Effect(old(View()), Link(p, current, newRow, now))
                && r == Ok(LoginResult(UserOf(View(), current), false, None))
      // in plain terms: the row written,
      ensures forall row :: row in old(oauth) && old(oauth)[row].identity == p.identity ==>
                oauth == old(oauth)[row := OAuthRow(
                  userId := old(oauth)[row].userId, identity := old(oauth)[row].identity,
                  providerUsername := p.providerUsername, accessToken := p.accessToken,
                  refreshToken := p.refreshToken, tokenExpiresAt := p.tokenExpiresAt,
                  createdAt := old(oauth)[row].createdAt)]
      ensures Unlinked(old(View()), p.identity) && r.Ok? ==>
                oauth == old(oauth)[newRow := OAuthRow(
                  userId := if mode == LoginMode then newUser else current, identity := p.identity,
                  providerUsername := p.providerUsername, accessToken := p.accessToken,
                  refreshToken := p.refreshToken, tokenExpiresAt := p.tokenExpiresAt, createdAt := now)]
      // and the users reported, as the table has them
      ensures r.Ok? && r.value.user.Some? ==> IsRow(users, r.value.user.value)
      ensures r.Ok? && r.value.conflict.Some? ==> IsRow(users, r.value.conflict.value.existingUser)
    {
      ghost var before := View();
      var found := FindRow(p.identity);
      if found.Some? {
        r := LogInKnown(p, mode, current, found.value);
        return;
      }
      if mode == LoginMode {
        var name := UniqueUsername(BaseName(p));
        OpKeepsInv(before, SignUp(p, newUser, newRow, name, now));
        var ok := InsertUser(newUser, UserRow(name, p.avatarUrl));
        ok := InsertOAuth(newRow, NewRow(p, newUser, now));
        assert View() == Effect(before, SignUp(p, newUser, newRow, name, now));
        SignUpStores(before, p, newUser, newRow, name, now);
        return Ok(LoginResult(Some(User(newUser, name, p.avatarUrl)), true, None));
      }
      if current == "" {
        return Err(CurrentUserRequired);
      }
      var ok := InsertOAuth(newRow, NewRow(p, current, now));
      if !ok {
        return Err(ConstraintFailed);
      }
      OpKeepsInv(before, Link(p, current, newRow, now));
      assert View() == Effect(before, Link(p, current, newRow, now));
      LinkStores(before, p, current, newRow, now);
      r := Ok(LoginResult(UserOf(View(), current), false, None));
    }

    /** Moves every identity of `source` to `target`; `moved` counts them, so a result equal
        to the number of source identities means the duplicate branch never ran. */
    method MergeAccounts(target: string, source: string) returns (r: Result<User>, moved: nat)
      requires Valid()
      modifies this
      ensures Valid()
      ensures r.Err? ==> View() == old(View())
      ensures r.Ok? <==> target != source && target in old(users) && source in old(users)
      ensures r == Err(SelfMerge) <==> target == source
      ensures r == Err(TargetNotFound) <==> target != source && target !in old(users)
      ensures r == Err(SourceNotFound) <==> target != source && target in old(users) && source !in old(users)
      ensures r.Ok? ==> View() == Effect(old(View()), Merge(target, source))
      ensures r.Ok? ==> r.value.id == target && IsRow(users, r.value)
      ensures r.Ok? ==> moved == |RowsOf(old(View()), source)|
    {
      moved := 0;
      if target == source {
        return Err(SelfMerge), moved;
      }
      if target !in users {
        return Err(TargetNotFound), moved;
      }
      if source !in users {
        return Err(SourceNotFound), moved;
      }
      ghost var before := View();
      OpKeepsInv(before, Merge(target, source));
      ghost var removed;
      moved, removed := MoveIdentities(target, source);
      NothingRemoved(before, removed);
      MovedMeansReassigned(before.oauth, source, target);
      if users[source].avatar != "" && users[target].avatar == "" {
        users := users[target := users[target].(avatar := users[source].avatar)];
      }
      DeleteUser(source);
      r := Ok(User(target, users[target].username, users[target].avatar));
    }

    /** The merge loop: rows are visited in any order; a row whose identity the target
        already has is deleted, any other is moved. */
    method MoveIdentities(target: string, source: string) returns (moved: nat, ghost removed: set<string>)
      requires target != source
      modifies this`oauth
      ensures removed <= RowsOf(old(View()), source)
      ensures oauth == MovedRows(old(oauth), source, target, removed)
      ensures AllDuplicates(old(oauth), removed)
      ensures moved == |RowsOf(old(View()), source)| - |removed|
    {
      var pending := RowsOf(View(), source);
      ghost var start, all := oauth, pending;
      var targetKeys := set a | a in oauth && oauth[a].userId == target :: IdentityKey(oauth[a].identity);
      moved, removed := 0, {};
      KeysOfTarget(start, target, source, targetKeys, pending);
      while pending != {}
        invariant pending <= all && removed <= all - pending
        invariant moved + |removed| + |pending| == |all|
        invariant oauth == PartlyMoved(start, target, all - pending, removed)
        invariant KeysOfVisited(start, targetKeys, pending)
        invariant AllDuplicates(start, removed)
        decreases pending
      {
        var a :| a in pending;
        PartlyMovedStep(start, target, all - pending, removed, a);
        KeyVisited(start, targetKeys, pending, a);
        assert all - (pending - {a}) == all - pending + {a};
        var key := IdentityKey(oauth[a].identity);
        if key in targetKeys {
          DuplicateFound(start, targetKeys, pending, a);
          removed := removed + {a};
          oauth := oauth - {a};
        } else {
          oauth := oauth[a := oauth[a].(userId := target)];
          targetKeys := targetKeys + {key};
          moved := moved + 1;
        }
        pending := pending - {a};
      }
      assert all - {} == all;
      PartlyMovedEnd(start, target, source, all, removed);
    }

    /** Refuses to remove the only login method. */
    method UnlinkAccount(user: string, provider: Provider) returns (r: Result<string>)
      requires Valid()
      modifies this
      ensures Valid()
      ensures r.Err? ==> View() == old(View())
      ensures r == Err(OnlyLoginMethod) <==> |RowsOf(old(View()), user)| == 1 && user !in old(credentials)
      ensures r.Ok? <==> HasProvider(old(View()), user, provider)
                         && !(|RowsOf(old(View()), user)| == 1 && user !in old(credentials))
      ensures r == Err(NotLinked) <==> !HasProvider(old(View()), user, provider)
                                       && !(|RowsOf(old(View()), user)| == 1 && user !in old(credentials))
      ensures r.Ok? ==>
                && r.value in old(oauth) && old(oauth)[r.value].userId == user
                && old(oauth)[r.value].identity.provider == provider
                && forall a :: a in old(oauth) && old(oauth)[a].userId == user
                               && old(oauth)[a].identity.provider == provider ==>
                     old(oauth)[r.value].createdAt <= old(oauth)[a].createdAt
      ensures r.Ok? ==> View() == Effect(old(View()), Unlink(user, r.value))
    {
      var linked := RowsOf(View(), user);
      var remaining := |linked| - 1;
      if remaining == 0 && user !in credentials {
        return Err(OnlyLoginMethod);
      }
      var row := FindOldest(user, provider);
      if row.None? {
        return Err(NotLinked);
      }
      ghost var before := View();
      OpKeepsInv(before, Unlink(user, row.value));
      oauth := oauth - {row.value};
      assert View() == Effect(before, Unlink(user, row.value));
      r := Ok(row.value);
    }

    method FindOldest(user: string, provider: Provider) returns (row: Option<string>)
      ensures row.None? ==> !HasProvider(View(), user, provider)
      ensures row.Some? ==> IsOldest(View(), user, provider, row.value)
    {
      var pending := RowsOf(View(), user);
      row := None;
      while pending != {}
        invariant pending <= RowsOf(View(), user)
        invariant row.Some? ==>
                    row.value in RowsOf(View(), user) - pending && oauth[row.value].identity.provider == provider
        invariant forall a :: a in RowsOf(View(), user) - pending && oauth[a].identity.provider == provider ==>
                    row.Some? && oauth[row.value].createdAt <= oauth[a].createdAt
        decreases pending
      {
        var a :| a in pending;
        if oauth[a].identity.provider == provider && (row.None? || oauth[a].createdAt < oauth[row.value].createdAt) {
          row := Some(a);
        }
        pending := pending - {a};
      }
    }

    // ---------- passwords ----------

    /** `name` is already trimmed; `newUser` is the generated UUID. */
    method RegisterWithPassword(name: string, hash: string, newUser: string) returns (r: Result<User>)
      requires Valid() && newUser !in users
      modifies this
      ensures Valid()
      ensures r == Err(UsernameTaken) <==> NameTaken(old(View()), name)
      ensures r.Err? ==> View() == old(View())
      ensures !NameTaken(old(View()), name) ==>
                View() == Effect(old(View()), Register(name, hash, newUser)) && r == Ok(User(newUser, name, ""))
      ensures r.Ok? ==> credentials == old(credentials)[newUser := hash]
    {
      if NameTaken(View(), name) {
        return Err(UsernameTaken);
      }
      ghost var before := View();
      OpKeepsInv(before, Register(name, hash, newUser));
      var ok := InsertUser(newUser, UserRow(name, ""));
      credentials := credentials[newUser := hash];
      assert View() == Effect(before, Register(name, hash, newUser));
      r := Ok(User(newUser, name, ""));
    }

    /** Upsert; a missing user violates the foreign key. */
    method StorePassword(user: string, hash: string) returns (r: Result<()>)
      requires Valid()
      modifies this
      ensures Valid()
      ensures r.Ok? <==> user in old(users)
      ensures r.Err? ==> r.error == ConstraintFailed
      ensures View() == if r.Ok? then Effect(old(View()), SetPassword(user, hash)) else old(View())
      ensures r.Ok? ==> credentials == old(credentials)[user := hash]
    {
      if user !in users {
        return Err(ConstraintFailed);
      }
      OpKeepsInv(View(), SetPassword(user, hash));
      credentials := credentials[user := hash];
      r := Ok(());
    }
  }

  /** The linked row a provider lookup picks: the oldest one of that provider. */
  ghost predicate IsOldest(t: Tables, user: string, provider: Provider, row: string) {
    && row in RowsOf(t, user) && t.oauth[row].identity.provider == provider
    && forall a :: a in RowsOf(t, user) && t.oauth[a].identity.provider == provider ==>
         t.oauth[row].createdAt <= t.oauth[a].createdAt
  }

  ghost predicate HasProvider(t: Tables, user: string, provider: Provider) {
    exists a :: a in RowsOf(t, user) && t.oauth[a].identity.provider == provider
  }

  /** After a reported link conflict, merging the other account into the current one gives
      the identity to the current user, so linking it again meets no conflict. */
  lemma MergeResolvesConflict(t: Tables, p: Profile, row: string, current: string)
    requires Inv(t) && Enabled(t, Refresh(p, row)) && current in t.users && t.oauth[row].userId != current
    ensures var t1 := Effect(t, Refresh(p, row));
            var merge := Merge(current, t.oauth[row].userId);
            Inv(t1) && Enabled(t1, merge)
            && forall a :: a in Effect(t1, merge).oauth && Effect(t1, merge).oauth[a].identity == p.identity ==>
                 Effect(t1, merge).oauth[a].userId == current
  {
    var t1 := Effect(t, Refresh(p, row));
    var merge := Merge(current, t.oauth[row].userId);
    OpKeepsInv(t, Refresh(p, row));
    OpKeepsInv(t1, merge);
    RowOwns(t1, row);
    OwnershipMoves(t1, merge, p.identity, current);
    var t2 := Effect(t1, merge);
    forall a | a in t2.oauth && t2.oauth[a].identity == p.identity ensures t2.oauth[a].userId == current {
      RowOwns(t2, a);
      OneOwner(t2, p.identity, t2.oauth[a].userId, current);
    }
  }

  function MovedRows(oauth: map<string, OAuthRow>, source: string, target: string, removed: set<string>)
    : map<string, OAuthRow>
  {
    map a | a in oauth && a !in removed :: if oauth[a].userId == source then oauth[a].(userId := target) else oauth[a]
  }

  function WithoutUser(oauth: map<string, OAuthRow>, user: string): map<string, OAuthRow> {
    map a | a in oauth && oauth[a].userId != user :: oauth[a]
  }

  lemma MovedMeansReassigned(oauth: map<string, OAuthRow>, source: string, target: string)
    requires target != source
    ensures MovedRows(oauth, source, target, {}) == Reassigned(oauth, source, target)
    ensures WithoutUser(Reassigned(oauth, source, target), source) == Reassigned(oauth, source, target)
  {
  }

  /** The table part-way through the merge loop. */
  function PartlyMoved(oauth: map<string, OAuthRow>, target: string, done: set<string>, removed: set<string>)
    : map<string, OAuthRow>
  {
    map a | a in oauth && a !in removed :: if a in done then oauth[a].(userId := target) else oauth[a]
  }

  lemma PartlyMovedStep(
    oauth: map<string, OAuthRow>, target: string, done: set<string>, removed: set<string>, a: string)
    requires a in oauth && a !in done && a !in removed
    ensures var now := PartlyMoved(oauth, target, done, removed);
            && a in now && now[a] == oauth[a]
            && now - {a} == PartlyMoved(oauth, target, done + {a}, removed + {a})
            && now[a := oauth[a].(userId := target)] == PartlyMoved(oauth, target, done + {a}, removed)
  {
  }

  ghost predicate HasTwin(oauth: map<string, OAuthRow>, a: string) {
    a in oauth && exists b :: b in oauth && b != a && oauth[b].identity == oauth[a].identity
  }

  ghost predicate AllDuplicates(oauth: map<string, OAuthRow>, removed: set<string>) {
    forall a :: a in removed ==> HasTwin(oauth, a)
  }

  /** Every tracked key is the key of a row no longer pending. */
  ghost predicate KeysOfVisited(oauth: map<string, OAuthRow>, keys: set<string>, pending: set<string>) {
    forall k :: k in keys ==> exists b :: b in oauth && b !in pending && IdentityKey(oauth[b].identity) == k
  }

  lemma KeysOfTarget(
    oauth: map<string, OAuthRow>, target: string, source: string, keys: set<string>, pending: set<string>)
    requires target != source
    requires keys == set a | a in oauth && oauth[a].userId == target :: IdentityKey(oauth[a].identity)
    requires pending == set a | a in oauth && oauth[a].userId == source
    ensures KeysOfVisited(oauth, keys, pending)
    ensures PartlyMoved(oauth, target, {}, {}) == oauth
  {
  }

  lemma KeyVisited(oauth: map<string, OAuthRow>, keys: set<string>, pending: set<string>, a: string)
    requires KeysOfVisited(oauth, keys, pending) && a in oauth
    ensures KeysOfVisited(oauth, keys, pending - {a})
    ensures KeysOfVisited(oauth, keys + {IdentityKey(oauth[a].identity)}, pending - {a})
  {
    assert a !in pending - {a};
  }

  lemma PartlyMovedEnd(
    oauth: map<string, OAuthRow>, target: string, source: string, all: set<string>, removed: set<string>)
    requires all == set a | a in oauth && oauth[a].userId == source
    ensures PartlyMoved(oauth, target, all, removed) == MovedRows(oauth, source, target, removed)
  {
  }

  lemma DuplicateFound(oauth: map<string, OAuthRow>, keys: set<string>, pending: set<string>, a: string)
    requires KeysOfVisited(oauth, keys, pending) && a in pending && a in oauth
    requires IdentityKey(oauth[a].identity) in keys
    ensures HasTwin(oauth, a)
  {
    var b :| b in oauth && b !in pending && IdentityKey(oauth[b].identity) == IdentityKey(oauth[a].identity);
    IdentityKeyInjective(oauth[a].identity, oauth[b].identity);
  }

  /** Under UNIQUE(provider, provider_user_id) no row has a twin, so merging deletes none. */
  lemma NothingRemoved(t: Tables, removed: set<string>)
    requires IdentitiesUnique(t) && AllDuplicates(t.oauth, removed)
    ensures removed == {}
  {
    forall a ensures a !in removed {
      assert !HasTwin(t.oauth, a);
    }
  }

  ghost predicate RefusedAre(base: string, refused: set<string>, counter: int) {
    && (forall k :: 2 <= k < counter ==> Numbered(base, k) in refused)
    && (forall s :: s in refused ==> exists k :: 2 <= k < counter && s == Numbered(base, k))
  }

  lemma NextIsNew(base: string, refused: set<string>, counter: nat)
    requires RefusedAre(base, refused, counter) && counter >= 2
    ensures Numbered(base, counter) !in refused
    ensures RefusedAre(base, refused + {Numbered(base, counter)}, counter + 1)
  {
    var name := Numbered(base, counter);
    forall k | 2 <= k < counter ensures Numbered(base, k) != name {
      if Numbered(base, k) == name {
        NumberedInjective(base, k, counter);
      }
    }
    forall s | s in refused + {name} ensures exists k :: 2 <= k < counter + 1 && s == Numbered(base, k) {
      if s in refused {
        var k :| 2 <= k < counter && s == Numbered(base, k);
        assert 2 <= k < counter + 1;
      }
    }
  }

  lemma CardinalityOfSubset(a: set<string>, b: set<string>)
    requires a <= b
    ensures |a| <= |b|
  {
    assert |b - a| == |b| - |a|;
  }
}
