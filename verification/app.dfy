/** The Flask application's account routes as methods of one object that owns
    the three tables and the client's session and updates them in place, the
    way the handlers add rows, assign columns and write into `session`. Each
    method is proved to do exactly what its route function in `Routes` says. */
module WebApp {
  import opened Store
  import opened Text
  import opened Routes

  class App {
    var users: map<nat, User>
    var keys: map<string, ApiKey>
    var settings: map<nat, Setting>
    var nextUserId: nat
    var nextSettingId: nat
    var session: Session

    /** The database and session as a value. */
    function Snapshot(): State
      reads this
    {
      State(Db(users, keys, settings, nextUserId, nextSettingId), session)
    }

    ghost predicate Valid()
      reads this
    {
      Store.Valid(Snapshot())
    }

    /** A freshly created database and an empty session. */
    constructor ()
      ensures Valid() && Snapshot() == Initial
    {
      users, keys, settings := map[], map[], map[];
      nextUserId, nextSettingId := 1, 1;
      session := EmptySession;
      InitialValid();
    }

    method Register(username: string, password: string, key: string) returns (resp: Response)
      requires Valid()
      modifies this
      ensures Step(resp, Snapshot()) == Routes.Register(old(Snapshot()), username, password, key)
      ensures Valid()
    {
      ghost var st := Snapshot();
      if !KeyRedeemable(keys, key) {
        return Render(RegisterTemplate, Some(InvalidKeyError));
      }
      if UsernameTaken(users, username) {
        return Render(RegisterTemplate, Some(UsernameExistsError));
      }
      // add the user and flush, which assigns its id
      var id := nextUserId;
      users := users[id := User(username, password, false)];
      nextUserId := nextUserId + 1;
      // mark the key used and link it to the new user
      var row := keys[key];
      row := row.(isUsed := true);
      row := row.(userId := Some(id));
      keys := keys[key := row];
      // the default setting
      settings := settings[nextSettingId := DefaultSetting(id)];
      nextSettingId := nextSettingId + 1;
      session := session.(userId := Some(id));
      session := session.(username := Some(users[id].username));
      session := session.(isAdmin := Some(users[id].isAdmin));
      resp := Redirect(DashboardEndpoint);
      assert Snapshot() == Registered(st, username, password, key);
    }

    method Login(username: string, password: string) returns (resp: Response)
      requires Valid()
      modifies this
      ensures Step(resp, Snapshot()) == Routes.Login(old(Snapshot()), username, password)
      ensures Valid()
    {
      ghost var st := Snapshot();
      ghost var spec := Routes.Login(st, username, password);
      if exists id :: id in users && Matches(users[id], username, password) {
        var id :| id in users && Matches(users[id], username, password);
        var user := users[id];
        session := session.(userId := Some(id));
        session := session.(username := Some(user.username));
        session := session.(isAdmin := Some(user.isAdmin));
        resp := Redirect(DashboardEndpoint);
        LoginMatchUnique(st, username, password, id, spec.next.session.userId.value);
        assert spec.next.session == session;
      } else {
        resp := Render(LoginTemplate, Some(BadCredentialsError));
      }
    }

    method StartLive() returns (resp: Response)
      requires Valid()
      modifies this
      ensures Step(resp, Snapshot()) == Routes.StartLive(old(Snapshot()))
      ensures Valid()
    {
      if session.userId.None? {
        return Json("error", NotLoggedInMessage);
      }
      session := session.(liveActive := Some(true));
      session := session.(room := Some(RoomName(session.userId.value)));
      resp := Json("success", LiveStartedMessage);
    }

    method StopLive() returns (resp: Response)
      requires Valid()
      modifies this
      ensures Step(resp, Snapshot()) == Routes.StopLive(old(Snapshot()))
      ensures Valid()
    {
      if session.userId.Some? {
        session := session.(liveActive := None);
        session := session.(room := None);
      }
      resp := Json("success", LiveStoppedMessage);
    }

    method Logout() returns (resp: Response)
      requires Valid()
      modifies this
      ensures Step(resp, Snapshot()) == Routes.Logout(old(Snapshot()))
      ensures Valid()
    {
      session := EmptySession;
      resp := Redirect(LoginEndpoint);
    }

    /** `GET /users`. */
    method ListUsers() returns (resp: Response)
      requires Valid()
      ensures resp == Routes.Users(Snapshot()).response
    {
      var pass := AdminGuard(session);
      if pass.None? {
        resp := ServerError;
      } else if pass.value {
        resp := UsersPage(users);
      } else {
        resp := Redirect(DashboardEndpoint);
      }
    }

    /** `GET /keys`. */
    method ListKeys() returns (resp: Response)
      requires Valid()
      ensures resp == Routes.Keys(Snapshot()).response
    {
      var pass := AdminGuard(session);
      if pass.None? {
        resp := ServerError;
      } else if pass.value {
        resp := KeysPage(keys);
      } else {
        resp := Redirect(DashboardEndpoint);
      }
    }

    /** `POST /keys`: the loop of `DrawKeys` stages one new row per UUID; the
        commit then either inserts all of them or, on a duplicate key, fails
        and inserts none. */
    method IssueKeys(countField: Option<int>, uuids: seq<string>) returns (resp: Response)
      requires Valid()
      requires KeyCount(countField) <= |uuids|
      requires forall i :: 0 <= i < |uuids| ==> IsUuidText(uuids[i])
      modifies this
      ensures Step(resp, Snapshot()) == Routes.IssueKeys(old(Snapshot()), countField, uuids)
      ensures Valid()
    {
      ghost var st := Snapshot();
      var pass := AdminGuard(session);
      if pass.None? {
        return ServerError;
      }
      if !pass.value {
        return Redirect(DashboardEndpoint);
      }
      var count := if countField.Some? then countField.value else 1;
      var newKeys := DrawKeys(count, uuids);
      if Collides(keys, newKeys) {
        return ServerError;
      }
      keys := AddUnusedKeys(keys, newKeys);
      resp := NewKeysPage(newKeys);
      assert Snapshot() == st.(db := st.db.(keys := AddUnusedKeys(st.db.keys, newKeys)));
    }

    /** The `for _ in range(count)` loop of `POST /keys`: one key per UUID drawn,
        appended to `new_keys` in order; a negative `count` runs no round. */
    static method DrawKeys(count: int, uuids: seq<string>) returns (newKeys: seq<string>)
      requires count <= |uuids|
      ensures count >= 0 ==> newKeys == GeneratedKeys(uuids, count)
      ensures count < 0 ==> newKeys == []
    {
      newKeys := [];
      var i: nat := 0;
      while i < count
        invariant count >= 0 ==> i <= count
        invariant count < 0 ==> i == 0
        invariant newKeys == GeneratedKeys(uuids, i)
      {
        var key := KeyFromUuid(uuids[i]);
        newKeys := newKeys + [key];
        i := i + 1;
      }
    }

    /** `POST /settings`. */
    method UpdateSettings(liveUrl: string, prompt: string, voiceStyle: string) returns (resp: Response)
      requires Valid()
      modifies this
      ensures Step(resp, Snapshot()) == Routes.UpdateSettings(old(Snapshot()), liveUrl, prompt, voiceStyle)
      ensures Valid()
    {
      ghost var st := Snapshot();
      if session.userId.None? {
        return Redirect(LoginEndpoint);
      }
      var uid := session.userId.value;
      if !HasSetting(settings, uid) {
        return ServerError;
      }
      var s :| s in settings && settings[s].userId == uid;
      assert s == SettingIdOf(settings, uid);
      var row := settings[s];
      row := row.(liveUrl := Some(liveUrl));
      row := row.(prompt := prompt);
      row := row.(voiceStyle := voiceStyle);
      settings := settings[s := row];
      resp := Json("success", SettingsSavedMessage);
      assert Snapshot() == SettingSaved(st, s, liveUrl, prompt, voiceStyle);
    }
  }
}
