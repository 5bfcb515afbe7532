/** The account routes of the Flask application, each as a transition of the
    database and the client's session. Every route is specified over a valid
    state (the invariant of `Store.Valid`, which every reachable state
    satisfies, see `Trace.ReachableValid`) and keeps it valid. */
module Routes {
  import opened Store
  import opened Text

  /** What a route answers. `ServerError` is an exception Flask turns into an
      HTTP 500, after which the database session is rolled back. */
  datatype Response =
    | Redirect(endpoint: string)
    | Render(template: string, error: Option<string>)
    | Json(status: string, message: string)
    | UsersPage(users: map<nat, User>)
    | KeysPage(keys: map<string, ApiKey>)
    | NewKeysPage(newKeys: seq<string>)
    | ServerError

  /** A route's response and the state it leaves behind. */
  datatype Step = Step(response: Response, next: State)

  const LoginEndpoint: string := "login"
  const DashboardEndpoint: string := "dashboard"
  const LoginTemplate: string := "login.html"
  const RegisterTemplate: string := "register.html"

  const InvalidKeyError: string := "无效的卡密"
  const UsernameExistsError: string := "用户名已存在"
  const BadCredentialsError: string := "用户名或密码错误"
  const NotLoggedInMessage: string := "请先登录"
  const LiveStartedMessage: string := "直播间已启动"
  const LiveStoppedMessage: string := "直播间已停止"
  const SettingsSavedMessage: string := "设置已更新"

  // ---------------------------------------------------------------- register

  /** What a successful registration with `key` did to `st`, giving `st'`: the
      new user got the id the database hands out next, exactly one user row and
      one setting row were added, exactly the redeemed key changed, and the
      session is logged in as the new user. */
  ghost predicate NewAccount(st: State, st': State, username: string, password: string, key: string)
  {
    var id, sid := st.db.nextUserId, st.db.nextSettingId;
    && id !in st.db.users
    && st'.db.users.Keys == st.db.users.Keys + {id}
    && st'.db.users[id] == User(username, password, false)
    && (forall u :: u in st.db.users ==> st'.db.users[u] == st.db.users[u])
    && key in st.db.keys
    && st'.db.keys.Keys == st.db.keys.Keys
    && st'.db.keys[key] == ApiKey(true, Some(id))
    && (forall k :: k in st.db.keys && k != key ==> st'.db.keys[k] == st.db.keys[k])
    && sid !in st.db.settings
    && st'.db.settings.Keys == st.db.settings.Keys + {sid}
    && st'.db.settings[sid] == DefaultSetting(id)
    && (forall s :: s in st.db.settings ==> st'.db.settings[s] == st.db.settings[s])
    && (forall s :: s in st'.db.settings && st'.db.settings[s].userId == id ==> s == sid)
    && st'.session.userId == Some(id)
    && st'.session.username == Some(username)
    && st'.session.isAdmin == Some(false)
    && st'.session.liveActive == st.session.liveActive
    && st'.session.room == st.session.room
  }

  /** `POST /register`: checks the invitation key, then the username, then
      creates the user, redeems the key, adds the default setting and logs the
      new user in. */
  ghost function Register(st: State, username: string, password: string, key: string): (r: Step)
    requires Valid(st)
    ensures Valid(r.next)
    ensures r.response == Render(RegisterTemplate, Some(InvalidKeyError)) <==> !KeyRedeemable(st.db.keys, key)
    ensures r.response == Render(RegisterTemplate, Some(UsernameExistsError)) <==>
              KeyRedeemable(st.db.keys, key) && UsernameTaken(st.db.users, username)
    ensures r.response == Redirect(DashboardEndpoint) <==>
              KeyRedeemable(st.db.keys, key) && !UsernameTaken(st.db.users, username)
    ensures r.response != Redirect(DashboardEndpoint) ==> r.next == st
    ensures r.response == Redirect(DashboardEndpoint) ==> NewAccount(st, r.next, username, password, key)
  {
    if !KeyRedeemable(st.db.keys, key) then
      Step(Render(RegisterTemplate, Some(InvalidKeyError)), st)
    else if UsernameTaken(st.db.users, username) then
      Step(Render(RegisterTemplate, Some(UsernameExistsError)), st)
    else
      RegisteredValid(st, username, password, key);
      Step(Redirect(DashboardEndpoint), Registered(st, username, password, key))
  }

  /** The state after the inserts and updates of a registration that passed
      both checks: the new user row (flushed to get its id), the redeemed key,
      the default setting, and the session entries. */
  function Registered(st: State, username: string, password: string, key: string): (st': State)
    requires IdsBelowCounters(st.db) && key in st.db.keys
    ensures IdsBelowCounters(st'.db)
  {
    assert st.db.nextUserId !in st.db.users && st.db.nextSettingId !in st.db.settings;
    var id, sid := st.db.nextUserId, st.db.nextSettingId;
    var db' := Db(
      st.db.users[id := User(username, password, false)],
      st.db.keys[key := st.db.keys[key].(isUsed := true, userId := Some(id))],
      st.db.settings[sid := DefaultSetting(id)],
      id + 1, sid + 1);
    State(db', st.session.(userId := Some(id), username := Some(username), isAdmin := Some(false)))
  }

  /** A registration adds one user row and one setting row and no key. */
  lemma RegisteredGrowsTables(st: State, username: string, password: string, key: string)
    requires IdsBelowCounters(st.db) && key in st.db.keys
    ensures |Registered(st, username, password, key).db.users| == |st.db.users| + 1
    ensures |Registered(st, username, password, key).db.settings| == |st.db.settings| + 1
    ensures |Registered(st, username, password, key).db.keys| == |st.db.keys|
  {
    assert st.db.nextUserId !in st.db.users;
    assert st.db.nextSettingId !in st.db.settings;
  }

  lemma RegisteredUsersValid(st: State, username: string, password: string, key: string)
    requires Valid(st) && KeyRedeemable(st.db.keys, key) && !UsernameTaken(st.db.users, username)
    ensures IdsBelowCounters(Registered(st, username, password, key).db)
    ensures UniqueUsernames(Registered(st, username, password, key).db.users)
  {
    var users' := Registered(st, username, password, key).db.users;
    var id := st.db.nextUserId;
    forall b | b in st.db.users
      ensures st.db.users[b].username != username
    {
    }
    forall a, b | a in users' && b in users' && users'[a].username == users'[b].username
      ensures a == b
    {
      if a != id && b != id {
        assert st.db.users[a].username == st.db.users[b].username;
      }
    }
  }

  lemma RegisteredKeysValid(st: State, username: string, password: string, key: string)
    requires Valid(st) && KeyRedeemable(st.db.keys, key) && !UsernameTaken(st.db.users, username)
    ensures KeysConsistent(Registered(st, username, password, key).db)
  {
    var db' := Registered(st, username, password, key).db;
    var id := st.db.nextUserId;
    assert id !in st.db.users;
    forall k | k in db'.keys && k != key && db'.keys[k].userId.Some?
      ensures db'.keys[k].userId.value != id
    {
      assert db'.keys[k] == st.db.keys[k];
    }
    forall k1, k2 | k1 in db'.keys && k2 in db'.keys && db'.keys[k1].userId.Some? &&
                    db'.keys[k1].userId == db'.keys[k2].userId
      ensures k1 == k2
    {
      if k1 != key && k2 != key {
        assert db'.keys[k1] == st.db.keys[k1] && db'.keys[k2] == st.db.keys[k2];
      }
    }
  }

  lemma RegisteredSettingsValid(st: State, username: string, password: string, key: string)
    requires Valid(st) && KeyRedeemable(st.db.keys, key) && !UsernameTaken(st.db.users, username)
    ensures SettingsConsistent(Registered(st, username, password, key).db)
    ensures forall s ::
              (s in Registered(st, username, password, key).db.settings &&
               Registered(st, username, password, key).db.settings[s].userId == st.db.nextUserId) ==>
              s == st.db.nextSettingId
  {
    var db' := Registered(st, username, password, key).db;
    var id, sid := st.db.nextUserId, st.db.nextSettingId;
    assert id !in st.db.users;
    assert sid !in st.db.settings;
    forall s | s in db'.settings && s != sid
      ensures db'.settings[s].userId != id
    {
      assert db'.settings[s] == st.db.settings[s];
    }
    forall u | u in db'.users
      ensures HasSetting(db'.settings, u)
    {
      if u == id {
        assert db'.settings[sid].userId == u;
      } else {
        var s := SettingIdOf(st.db.settings, u);
        assert db'.settings[s].userId == u;
      }
    }
  }

  lemma RegisteredValid(st: State, username: string, password: string, key: string)
    requires Valid(st) && KeyRedeemable(st.db.keys, key) && !UsernameTaken(st.db.users, username)
    ensures Valid(Registered(st, username, password, key))
    ensures NewAccount(st, Registered(st, username, password, key), username, password, key)
  {
    var st' := Registered(st, username, password, key);
    RegisteredUsersValid(st, username, password, key);
    RegisteredKeysValid(st, username, password, key);
    RegisteredSettingsValid(st, username, password, key);
    assert DbValid(st'.db);
    assert SessionValid(st'.session, st'.db.users);
    RegisteredIsNewAccount(st, username, password, key);
  }

  /** The fresh ids are not in use, so the registration adds rows rather than
      overwriting them. */
  lemma RegisteredIsNewAccount(st: State, username: string, password: string, key: string)
    requires IdsBelowCounters(st.db) && key in st.db.keys
    requires forall s ::
               (s in Registered(st, username, password, key).db.settings &&
                Registered(st, username, password, key).db.settings[s].userId == st.db.nextUserId) ==>
               s == st.db.nextSettingId
    ensures NewAccount(st, Registered(st, username, password, key), username, password, key)
  {
    assert st.db.nextUserId !in st.db.users;
    assert st.db.nextSettingId !in st.db.settings;
  }

  // ------------------------------------------------------------------- login

  /** The session after logging in as user `id`: `user_id`, `username` and
      `is_admin` are that user's, the live-session entries are untouched. */
  ghost predicate LoggedInAs(s': Session, s: Session, users: map<nat, User>, id: nat)
    requires id in users
  {
    && s'.userId == Some(id)
    && s'.username == Some(users[id].username)
    && s'.isAdmin == Some(users[id].isAdmin)
    && s'.liveActive == s.liveActive
    && s'.room == s.room
  }

  /** `POST /login`: looks up the user with this username and password. */
  ghost function Login(st: State, username: string, password: string): (r: Step)
    requires Valid(st)
    ensures Valid(r.next)
    ensures r.next.db == st.db
    ensures r.response == Redirect(DashboardEndpoint) <==>
              exists id :: id in st.db.users && Matches(st.db.users[id], username, password)
    ensures r.response != Redirect(DashboardEndpoint) ==>
              r.response == Render(LoginTemplate, Some(BadCredentialsError)) && r.next == st
    ensures r.response == Redirect(DashboardEndpoint) ==>
              && r.next.session.userId.Some?
              && r.next.session.userId.value in st.db.users
              && Matches(st.db.users[r.next.session.userId.value], username, password)
              && LoggedInAs(r.next.session, st.session, st.db.users, r.next.session.userId.value)
  {
    if exists id :: id in st.db.users && Matches(st.db.users[id], username, password) then
      var id :| id in st.db.users && Matches(st.db.users[id], username, password);
      var u := st.db.users[id];
      Step(Redirect(DashboardEndpoint),
           st.(session := st.session.(userId := Some(id), username := Some(u.username), isAdmin := Some(u.isAdmin))))
    else
      Step(Render(LoginTemplate, Some(BadCredentialsError)), st)
  }

  /** With unique usernames at most one user matches, so the login query has
      only one possible answer. */
  lemma LoginMatchUnique(st: State, username: string, password: string, a: nat, b: nat)
    requires Valid(st)
    requires a in st.db.users && Matches(st.db.users[a], username, password)
    requires b in st.db.users && Matches(st.db.users[b], username, password)
    ensures a == b
  {
    assert st.db.users[a].username == st.db.users[b].username;
  }

  // -------------------------------------------------------------- live flags

  /** `GET /start_live`. */
  ghost function StartLive(st: State): (r: Step)
    requires Valid(st)
    ensures Valid(r.next)
    ensures r.next.db == st.db
    ensures r.response == Json("error", NotLoggedInMessage) <==> st.session.userId.None?
    ensures st.session.userId.None? ==> r.next == st
    ensures st.session.userId.Some? ==>
              && r.response == Json("success", LiveStartedMessage)
              && r.next.session.liveActive == Some(true)
              && r.next.session.room == Some(RoomName(st.session.userId.value))
              && r.next.session.userId == st.session.userId
              && r.next.session.username == st.session.username
              && r.next.session.isAdmin == st.session.isAdmin
  {
    if st.session.userId.None? then
      Step(Json("error", NotLoggedInMessage), st)
    else
      var room := RoomName(st.session.userId.value);
      Step(Json("success", LiveStartedMessage),
           st.(session := st.session.(liveActive := Some(true), room := Some(room))))
  }

  /** `GET /stop_live`: always reports success. */
  ghost function StopLive(st: State): (r: Step)
    requires Valid(st)
    ensures Valid(r.next)
    ensures r.next.db == st.db
    ensures r.response == Json("success", LiveStoppedMessage)
    ensures st.session.userId.None? ==> r.next == st
    ensures st.session.userId.Some? ==>
              && r.next.session.liveActive.None?
              && r.next.session.room.None?
              && r.next.session.userId == st.session.userId
              && r.next.session.username == st.session.username
              && r.next.session.isAdmin == st.session.isAdmin
  {
    if st.session.userId.Some? then
      Step(Json("success", LiveStoppedMessage),
           st.(session := st.session.(liveActive := None, room := None)))
    else
      Step(Json("success", LiveStoppedMessage), st)
  }

  /** Stopping twice is stopping once. */
  lemma StopLiveIdempotent(st: State)
    requires Valid(st)
    ensures StopLive(StopLive(st).next) == StopLive(st)
  {
  }

  /** `GET /logout`: clears the whole session. */
  ghost function Logout(st: State): (r: Step)
    requires Valid(st)
    ensures Valid(r.next)
    ensures r.next.db == st.db
    ensures r.response == Redirect(LoginEndpoint)
    ensures r.next.session == EmptySession
  {
    Step(Redirect(LoginEndpoint), st.(session := EmptySession))
  }

  // ------------------------------------------------------------ admin pages

  /** The guard `'user_id' not in session or not session['is_admin']`:
      `Some(true)` lets the request through, `Some(false)` redirects, `None` is
      the `KeyError` of a session with `user_id` but no `is_admin`. */
  function AdminGuard(s: Session): (pass: Option<bool>)
    ensures pass == Some(true) <==> IsAdminSession(s)
    ensures pass.None? <==> s.userId.Some? && s.isAdmin.None?
  {
    if s.userId.None? then Some(false)
    else if s.isAdmin.None? then None
    else Some(s.isAdmin.value)
  }

  /** `GET /users`: lists every user, for an admin only. */
  ghost function Users(st: State): (r: Step)
    requires Valid(st)
    ensures r.next == st
    ensures IsAdminSession(st.session) ==> r.response == UsersPage(st.db.users)
    ensures !IsAdminSession(st.session) ==> r.response == Redirect(DashboardEndpoint)
  {
    match AdminGuard(st.session)
    case None => Step(ServerError, st)
    case Some(pass) =>
      if pass then Step(UsersPage(st.db.users), st) else Step(Redirect(DashboardEndpoint), st)
  }

  /** `GET /keys`: lists every invitation key, for an admin only. */
  ghost function Keys(st: State): (r: Step)
    requires Valid(st)
    ensures r.next == st
    ensures IsAdminSession(st.session) ==> r.response == KeysPage(st.db.keys)
    ensures !IsAdminSession(st.session) ==> r.response == Redirect(DashboardEndpoint)
  {
    match AdminGuard(st.session)
    case None => Step(ServerError, st)
    case Some(pass) =>
      if pass then Step(KeysPage(st.db.keys), st) else Step(Redirect(DashboardEndpoint), st)
  }

  /** `int(request.form.get('count', 1))` and `range` of it: an absent field
      means one key, a negative count means none. */
  function KeyCount(countField: Option<int>): nat
  {
    match countField
    case None => 1
    case Some(c) => if c < 0 then 0 else c
  }

  /** The keys the loop of `POST /keys` makes from the first `n` UUIDs. */
  function GeneratedKeys(uuids: seq<string>, n: nat): (ks: seq<string>)
    requires n <= |uuids|
    ensures |ks| == n
    ensures forall i :: 0 <= i < n ==> ks[i] == KeyFromUuid(uuids[i])
  {
    if n == 0 then [] else GeneratedKeys(uuids, n - 1) + [KeyFromUuid(uuids[n - 1])]
  }

  predicate Distinct(ks: seq<string>)
  {
    forall i, j :: 0 <= i < j < |ks| ==> ks[i] != ks[j]
  }

  /** The keys occurring in `ks`. */
  function KeySet(ks: seq<string>): set<string>
  {
    set i | 0 <= i < |ks| :: ks[i]
  }

  /** The commit violates the unique constraint on `APIKey.key`: two new keys
      are equal, or a new key is already in the table. Equivalently, the
      table would not grow by one row per new key. */
  predicate Collides(keys: map<string, ApiKey>, ks: seq<string>): (c: bool)
    ensures !c <==> |keys.Keys + KeySet(ks)| == |keys| + |ks|
  {
    CommitCardinality(keys, ks);
    !Distinct(ks) || exists i :: 0 <= i < |ks| && ks[i] in keys
  }

  lemma CommitCardinality(keys: map<string, ApiKey>, ks: seq<string>)
    ensures (!Distinct(ks) || exists i :: 0 <= i < |ks| && ks[i] in keys) <==>
            |keys.Keys + KeySet(ks)| != |keys| + |ks|
  {
    var a, b := keys.Keys, KeySet(ks);
    KeySetCardinality(ks);
    assert |a + b| + |a * b| == |a| + |b|;
    if i :| 0 <= i < |ks| && ks[i] in keys {
      assert ks[i] in a * b;
    } else {
      assert a * b == {};
    }
  }

  /** A sequence has at most as many distinct elements as entries, and
      exactly as many when it has no repetitions. */
  lemma {:induction false} KeySetCardinality(ks: seq<string>)
    ensures |KeySet(ks)| <= |ks|
    ensures |KeySet(ks)| == |ks| <==> Distinct(ks)
  {
    if ks != [] {
      var init, x := ks[..|ks| - 1], ks[|ks| - 1];
      KeySetCardinality(init);
      assert KeySet(ks) == KeySet(init) + {x};
      if x in KeySet(init) {
        var j :| 0 <= j < |init| && init[j] == x;
        assert ks[j] == ks[|ks| - 1];
      } else {
        if Distinct(init) {
          forall i, j | 0 <= i < j < |ks|
            ensures ks[i] != ks[j]
          {
            if j < |ks| - 1 {
              assert ks[i] == init[i] && ks[j] == init[j];
            } else {
              assert init[i] in KeySet(init);
            }
          }
        }
        if Distinct(ks) {
          forall i, j | 0 <= i < j < |init|
            ensures init[i] != init[j]
          {
            assert init[i] == ks[i] && init[j] == ks[j];
          }
        }
      }
    }
  }

  /** The key table after committing new, unused keys `ks`. */
  function AddUnusedKeys(keys: map<string, ApiKey>, ks: seq<string>): map<string, ApiKey>
  {
    keys + map k | k in ks :: ApiKey(false, None)
  }

  /** What issuing the new keys `ks` did to the key table: added exactly
      them, each unused and linked to nobody, and left every old key alone. */
  ghost predicate KeysIssued(keys: map<string, ApiKey>, keys': map<string, ApiKey>, ks: seq<string>)
  {
    && keys'.Keys == keys.Keys + KeySet(ks)
    && (forall i :: 0 <= i < |ks| ==> ks[i] !in keys && keys'[ks[i]] == ApiKey(false, None))
    && (forall k :: k in keys ==> keys'[k] == keys[k])
    && |keys'| == |keys| + |ks|
  }

  /** `POST /keys`: an admin issues `count` new keys, one per UUID of `uuids`
      (the values `uuid.uuid4()` returns, in order). */
  ghost function IssueKeys(st: State, countField: Option<int>, uuids: seq<string>): (r: Step)
    requires Valid(st)
    requires KeyCount(countField) <= |uuids|
    requires forall i :: 0 <= i < |uuids| ==> IsUuidText(uuids[i])
    ensures Valid(r.next)
    ensures !IsAdminSession(st.session) ==> r.response == Redirect(DashboardEndpoint) && r.next == st
    ensures r.response == ServerError <==>
              IsAdminSession(st.session) && Collides(st.db.keys, GeneratedKeys(uuids, KeyCount(countField)))
    ensures r.response == ServerError ==> r.next == st
    ensures IsAdminSession(st.session) && r.response != ServerError ==>
              && r.response.NewKeysPage?
              && r.response.newKeys == GeneratedKeys(uuids, KeyCount(countField))
              && |r.response.newKeys| == KeyCount(countField)
              && Distinct(r.response.newKeys)
              && (forall i :: 0 <= i < |r.response.newKeys| ==>
                    |r.response.newKeys[i]| == 16 && IsHex(r.response.newKeys[i]))
              && KeysIssued(st.db.keys, r.next.db.keys, r.response.newKeys)
              && r.next.db.users == st.db.users
              && r.next.db.settings == st.db.settings
              && r.next.session == st.session
  {
    match AdminGuard(st.session)
    case None => Step(ServerError, st)
    case Some(pass) =>
      if !pass then Step(Redirect(DashboardEndpoint), st)
      else
        var ks := GeneratedKeys(uuids, KeyCount(countField));
        if Collides(st.db.keys, ks) then Step(ServerError, st)
        else
          var r := Step(NewKeysPage(ks), st.(db := st.db.(keys := AddUnusedKeys(st.db.keys, ks))));
          IssuedKeysShape(uuids, KeyCount(countField));
          AddUnusedKeysIssues(st.db.keys, ks);
          AddUnusedKeysKeepsValid(st, ks);
          r
  }

  lemma IssuedKeysShape(uuids: seq<string>, n: nat)
    requires n <= |uuids|
    requires forall i :: 0 <= i < |uuids| ==> IsUuidText(uuids[i])
    ensures forall i :: 0 <= i < n ==>
              |GeneratedKeys(uuids, n)[i]| == 16 && IsHex(GeneratedKeys(uuids, n)[i])
  {
    forall i | 0 <= i < n
      ensures |GeneratedKeys(uuids, n)[i]| == 16 && IsHex(GeneratedKeys(uuids, n)[i])
    {
      KeyFromUuidShape(uuids[i]);
    }
  }

  /** New rows are unused and linked to nobody, so they break no invariant. */
  lemma AddUnusedKeysKeepsValid(st: State, ks: seq<string>)
    requires Valid(st)
    ensures Valid(st.(db := st.db.(keys := AddUnusedKeys(st.db.keys, ks))))
  {
    var keys' := AddUnusedKeys(st.db.keys, ks);
    forall k | k in keys' && k !in st.db.keys
      ensures keys'[k] == ApiKey(false, None)
    {
    }
  }

  lemma AddUnusedKeysIssues(keys: map<string, ApiKey>, ks: seq<string>)
    requires !Collides(keys, ks)
    ensures KeysIssued(keys, AddUnusedKeys(keys, ks), ks)
  {
    var added := map k | k in ks :: ApiKey(false, None);
    var ksSet := KeySet(ks);
    assert added.Keys == ksSet;
    assert keys.Keys !! ksSet;
    KeySetCardinality(ks);
    var keys' := AddUnusedKeys(keys, ks);
    assert keys'.Keys == keys.Keys + ksSet;
    assert |keys'.Keys| == |keys.Keys| + |ksSet|;
  }

  // --------------------------------------------------------------- settings

  /** The setting table after saving the form for user `uid`: that user's row
      carries the three submitted values, every other row is as it was. */
  ghost predicate SavedFor(settings: map<nat, Setting>, settings': map<nat, Setting>, uid: nat,
                           liveUrl: string, prompt: string, voiceStyle: string)
  {
    && settings'.Keys == settings.Keys
    && forall s :: s in settings ==>
         settings'[s] == if settings[s].userId == uid
                         then Setting(uid, Some(liveUrl), prompt, voiceStyle)
                         else settings[s]
  }

  /** `POST /settings`: overwrites the logged-in user's `live_url`, `prompt`
      and `voice_style`. A logged-in user without a setting row would make the
      handler fail on `None`; under the invariant every user has one. */
  ghost function UpdateSettings(st: State, liveUrl: string, prompt: string, voiceStyle: string): (r: Step)
    requires Valid(st)
    ensures Valid(r.next)
    ensures st.session.userId.None? ==> r.response == Redirect(LoginEndpoint) && r.next == st
    ensures st.session.userId.Some? ==>
              && r.response == Json("success", SettingsSavedMessage)
              && SavedFor(st.db.settings, r.next.db.settings, st.session.userId.value, liveUrl, prompt, voiceStyle)
              && r.next.db.users == st.db.users
              && r.next.db.keys == st.db.keys
              && r.next.session == st.session
  {
    if st.session.userId.None? then
      Step(Redirect(LoginEndpoint), st)
    else
      var uid := st.session.userId.value;
      if !HasSetting(st.db.settings, uid) then Step(ServerError, st)
      else
        var s := SettingIdOf(st.db.settings, uid);
        UpdateSettingsEffect(st, s, liveUrl, prompt, voiceStyle);
        Step(Json("success", SettingsSavedMessage), SettingSaved(st, s, liveUrl, prompt, voiceStyle))
  }

  /** The state after assigning the three columns of setting row `s`. */
  function SettingSaved(st: State, s: nat, liveUrl: string, prompt: string, voiceStyle: string): State
    requires s in st.db.settings
  {
    var updated := st.db.settings[s].(liveUrl := Some(liveUrl), prompt := prompt, voiceStyle := voiceStyle);
    st.(db := st.db.(settings := st.db.settings[s := updated]))
  }

  lemma UpdateSettingsEffect(st: State, s: nat, liveUrl: string, prompt: string, voiceStyle: string)
    requires Valid(st)
    requires s in st.db.settings
    ensures Valid(SettingSaved(st, s, liveUrl, prompt, voiceStyle))
    ensures SavedFor(st.db.settings, SettingSaved(st, s, liveUrl, prompt, voiceStyle).db.settings,
                     st.db.settings[s].userId, liveUrl, prompt, voiceStyle)
  {
    SettingSavedValid(st, s, liveUrl, prompt, voiceStyle);
    SettingSavedForOwner(st, s, liveUrl, prompt, voiceStyle);
  }

  lemma SettingSavedValid(st: State, s: nat, liveUrl: string, prompt: string, voiceStyle: string)
    requires Valid(st)
    requires s in st.db.settings
    ensures Valid(SettingSaved(st, s, liveUrl, prompt, voiceStyle))
  {
    SettingSavedConsistent(st, s, liveUrl, prompt, voiceStyle);
    SettingsOnlyChanged(st, SettingSaved(st, s, liveUrl, prompt, voiceStyle));
  }

  /** Only the row of the owner of `s` changes, because no other row belongs
      to that user. */
  lemma SettingSavedForOwner(st: State, s: nat, liveUrl: string, prompt: string, voiceStyle: string)
    requires Valid(st)
    requires s in st.db.settings
    ensures SavedFor(st.db.settings, SettingSaved(st, s, liveUrl, prompt, voiceStyle).db.settings,
                     st.db.settings[s].userId, liveUrl, prompt, voiceStyle)
  {
    var st' := SettingSaved(st, s, liveUrl, prompt, voiceStyle);
    var uid := st.db.settings[s].userId;
    forall t | t in st.db.settings
      ensures st'.db.settings[t] == if st.db.settings[t].userId == uid
                                    then Setting(uid, Some(liveUrl), prompt, voiceStyle)
                                    else st.db.settings[t]
    {
      if t != s {
        assert st.db.settings[t].userId != uid;
      }
    }
  }

  lemma SettingSavedConsistent(st: State, s: nat, liveUrl: string, prompt: string, voiceStyle: string)
    requires Valid(st)
    requires s in st.db.settings
    ensures SettingsConsistent(SettingSaved(st, s, liveUrl, prompt, voiceStyle).db)
  {
    var db' := SettingSaved(st, s, liveUrl, prompt, voiceStyle).db;
    forall u | u in db'.users
      ensures HasSetting(db'.settings, u)
    {
      var t := SettingIdOf(st.db.settings, u);
      assert db'.settings[t].userId == u;
    }
  }

  /** A change confined to the contents of setting rows keeps the state valid
      as long as the setting table stays consistent. */
  lemma SettingsOnlyChanged(st: State, st': State)
    requires Valid(st)
    requires st'.db.users == st.db.users && st'.db.keys == st.db.keys && st'.session == st.session
    requires st'.db.nextUserId == st.db.nextUserId && st'.db.nextSettingId == st.db.nextSettingId
    requires st'.db.settings.Keys == st.db.settings.Keys
    requires SettingsConsistent(st'.db)
    ensures Valid(st')
  {
  }

  // -------------------------------------------------------------- bootstrap

  const AdminUser: User := User("admin", "admin", true)
  const BootstrapKeyCount: nat := 5

  /** The database after the start-up block seeded an empty user table with
      the admin user, its default setting and the unused keys `ks`. */
  function Seeded(st: State, ks: seq<string>): State
  {
    var id, sid := st.db.nextUserId, st.db.nextSettingId;
    var db' := Db(
      st.db.users[id := AdminUser],
      AddUnusedKeys(st.db.keys, ks),
      st.db.settings[sid := DefaultSetting(id)],
      id + 1, sid + 1);
    st.(db := db')
  }

  /** The `__main__` block: when the user table is empty it commits the admin
      user, then adds its default setting and five keys, one per UUID of
      `uuids`, and commits again. `None` is a failure of that second commit,
      which stops the process. */
  ghost function Bootstrap(st: State, uuids: seq<string>): (r: Option<State>)
    requires Valid(st)
    requires BootstrapKeyCount <= |uuids|
    ensures st.db.users != map[] ==> r == Some(st)
    ensures st.db.users == map[] ==>
              (r.None? <==> Collides(st.db.keys, GeneratedKeys(uuids, BootstrapKeyCount)))
    ensures r.Some? ==> Valid(r.value)
    ensures st.db.users == map[] && r.Some? ==>
              && r.value.db.users == map[st.db.nextUserId := AdminUser]
              && r.value.db.settings == map[st.db.nextSettingId := DefaultSetting(st.db.nextUserId)]
              && KeysIssued(st.db.keys, r.value.db.keys, GeneratedKeys(uuids, BootstrapKeyCount))
              && r.value.session == st.session
  {
    if st.db.users != map[] then Some(st)
    else
      var ks := GeneratedKeys(uuids, BootstrapKeyCount);
      if Collides(st.db.keys, ks) then None
      else
        SeededValid(st, ks);
        AddUnusedKeysIssues(st.db.keys, ks);
        Some(Seeded(st, ks))
  }

  lemma SeededValid(st: State, ks: seq<string>)
    requires Valid(st) && st.db.users == map[]
    ensures Valid(Seeded(st, ks))
    ensures Seeded(st, ks).db.settings == map[st.db.nextSettingId := DefaultSetting(st.db.nextUserId)]
  {
    var st' := Seeded(st, ks);
    var id, sid := st.db.nextUserId, st.db.nextSettingId;
    assert st.db.settings == map[];
    forall k | k in st.db.keys
      ensures st.db.keys[k] == ApiKey(false, None)
    {
      assert st.db.keys[k].userId.None?;
    }
    assert st.session.userId.None?;
    assert st'.db.settings[sid].userId == id;
  }

  /** The seeded admin can log in with the start-up password and reaches the
      admin pages. */
  lemma SeededAdminLogsIn(st: State, ks: seq<string>)
    requires Valid(st) && st.db.users == map[]
    ensures Valid(Seeded(st, ks))
    ensures Login(Seeded(st, ks), "admin", "admin").response == Redirect(DashboardEndpoint)
    ensures IsAdminSession(Login(Seeded(st, ks), "admin", "admin").next.session)
  {
    SeededValid(st, ks);
    var st' := Seeded(st, ks);
    assert st.db.nextUserId in st'.db.users && Matches(st'.db.users[st.db.nextUserId], "admin", "admin");
  }
}
