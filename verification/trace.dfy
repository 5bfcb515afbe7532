/** Sequences of requests from one client against the database: every state
    reachable from the start-up database is valid, users are never lost or
    altered, and an invitation key is redeemed at most once. */
module Trace {
  import opened Store
  import opened Text
  import opened Routes

  /** One request to a modelled route, with its form fields. `IssueKeysReq`
      also carries the UUIDs the handler draws. */
  datatype Request =
    | RegisterReq(username: string, password: string, key: string)
    | LoginReq(username: string, password: string)
    | StartLiveReq
    | StopLiveReq
    | LogoutReq
    | UsersReq
    | KeysReq
    | IssueKeysReq(countField: Option<int>, uuids: seq<string>)
    | SettingsReq(liveUrl: string, prompt: string, voiceStyle: string)

  /** The UUIDs of a key request are what `uuid.uuid4()` can return, and there
      are enough of them for the loop. */
  predicate Admissible(req: Request)
  {
    req.IssueKeysReq? ==>
      && KeyCount(req.countField) <= |req.uuids|
      && forall i :: 0 <= i < |req.uuids| ==> IsUuidText(req.uuids[i])
  }

  /** How `st'` can follow `st`: every user row survives unchanged, every key
      survives, a used key never changes again, and a key that becomes used
      names a user who did not exist in `st`. */
  ghost predicate Extends(st: State, st': State)
  {
    && (forall u :: u in st.db.users ==> u in st'.db.users && st'.db.users[u] == st.db.users[u])
    && (forall k :: k in st.db.keys ==> k in st'.db.keys)
    && (forall k :: k in st.db.keys && st.db.keys[k].isUsed ==> st'.db.keys[k] == st.db.keys[k])
    && (forall k :: k in st.db.keys && !st.db.keys[k].isUsed && st'.db.keys[k].isUsed ==>
          st'.db.keys[k].userId.Some? && st'.db.keys[k].userId.value !in st.db.users)
  }

  lemma {:induction false} ExtendsTransitive(a: State, b: State, c: State)
    requires Extends(a, b) && Extends(b, c)
    ensures Extends(a, c)
  {
    forall k | k in a.db.keys && !a.db.keys[k].isUsed && c.db.keys[k].isUsed
      ensures c.db.keys[k].userId.Some? && c.db.keys[k].userId.value !in a.db.users
    {
      if b.db.keys[k].isUsed {
        assert c.db.keys[k] == b.db.keys[k];
      } else {
        assert c.db.keys[k].userId.value !in b.db.users;
      }
    }
  }

  /** Dispatches one request to its route. */
  ghost function Handle(st: State, req: Request): (r: Step)
    requires Valid(st) && Admissible(req)
    ensures Valid(r.next)
    ensures Extends(st, r.next)
  {
    match req
    case RegisterReq(username, password, key) =>
      RegisterExtends(st, username, password, key);
      Register(st, username, password, key)
    case LoginReq(username, password) =>
      var r := Login(st, username, password);
      SameAccountsExtends(st, r.next);
      r
    case StartLiveReq =>
      var r := StartLive(st);
      SameAccountsExtends(st, r.next);
      r
    case StopLiveReq =>
      var r := StopLive(st);
      SameAccountsExtends(st, r.next);
      r
    case LogoutReq =>
      var r := Logout(st);
      SameAccountsExtends(st, r.next);
      r
    case UsersReq =>
      var r := Users(st);
      SameAccountsExtends(st, r.next);
      r
    case KeysReq =>
      var r := Keys(st);
      SameAccountsExtends(st, r.next);
      r
    case IssueKeysReq(countField, uuids) =>
      IssueKeysExtends(st, countField, uuids);
      IssueKeys(st, countField, uuids)
    case SettingsReq(liveUrl, prompt, voiceStyle) =>
      var r := UpdateSettings(st, liveUrl, prompt, voiceStyle);
      SameAccountsExtends(st, r.next);
      r
  }

  /** A route that leaves the user and key tables alone. */
  lemma SameAccountsExtends(st: State, st': State)
    requires st'.db.users == st.db.users && st'.db.keys == st.db.keys
    ensures Extends(st, st')
  {
  }

  /** A registration redeems only its own key, for the user it creates. */
  lemma RegisterExtends(st: State, username: string, password: string, key: string)
    requires Valid(st)
    ensures Extends(st, Register(st, username, password, key).next)
  {
    var r := Register(st, username, password, key);
    if r.response == Redirect(DashboardEndpoint) {
      assert NewAccount(st, r.next, username, password, key);
      assert st.db.nextUserId !in st.db.users;
    } else {
      SameAccountsExtends(st, r.next);
    }
  }

  /** Issuing keys only adds unused ones. */
  lemma IssueKeysExtends(st: State, countField: Option<int>, uuids: seq<string>)
    requires Valid(st)
    requires KeyCount(countField) <= |uuids|
    requires forall i :: 0 <= i < |uuids| ==> IsUuidText(uuids[i])
    ensures Extends(st, IssueKeys(st, countField, uuids).next)
  {
    var r := IssueKeys(st, countField, uuids);
    if !IsAdminSession(st.session) || r.response == ServerError {
      SameAccountsExtends(st, r.next);
    } else {
      assert KeysIssued(st.db.keys, r.next.db.keys, r.response.newKeys);
    }
  }

  /** The state after serving `reqs` in order, starting from `st`. */
  ghost function Run(st: State, reqs: seq<Request>): (st': State)
    requires Valid(st)
    requires forall i :: 0 <= i < |reqs| ==> Admissible(reqs[i])
    ensures Valid(st')
    ensures Extends(st, st')
    decreases |reqs|
  {
    if reqs == [] then st
    else
      var next := Handle(st, reqs[0]).next;
      var st' := Run(next, reqs[1..]);
      ExtendsTransitive(st, next, st');
      st'
  }

  /** The database the server starts with: `db.create_all()` on an empty
      file, then the start-up block with the UUIDs it draws. `None` when
      the five keys clash and the process stops. */
  ghost function Started(uuids: seq<string>): (r: Option<State>)
    requires BootstrapKeyCount <= |uuids|
    ensures r.Some? <==> Distinct(GeneratedKeys(uuids, BootstrapKeyCount))
    ensures r.Some? ==> Valid(r.value)
    ensures r.Some? ==>
              && r.value.db.users == map[1 := AdminUser]
              && r.value.db.settings == map[1 := DefaultSetting(1)]
              && |r.value.db.keys| == BootstrapKeyCount
              && (forall k :: k in r.value.db.keys ==> r.value.db.keys[k] == ApiKey(false, None))
              && r.value.session == EmptySession
  {
    InitialValid();
    var r := Bootstrap(Initial, uuids);
    assert Collides(Initial.db.keys, GeneratedKeys(uuids, BootstrapKeyCount)) <==>
           !Distinct(GeneratedKeys(uuids, BootstrapKeyCount));
    r
  }

  /** Every state the server can reach from its start-up database is valid:
      usernames are unique, each used key names one existing user and each
      user has exactly one setting. */
  lemma ReachableValid(uuids: seq<string>, reqs: seq<Request>)
    requires BootstrapKeyCount <= |uuids|
    requires forall i :: 0 <= i < |reqs| ==> Admissible(reqs[i])
    ensures Started(uuids).Some? ==> Valid(Run(Started(uuids).value, reqs))
    ensures Started(uuids).Some? ==> Extends(Started(uuids).value, Run(Started(uuids).value, reqs))
  {
  }

  /** A key that has been redeemed keeps its owner forever, and any later
      registration with it is refused as an invalid key. */
  lemma RedeemedKeyStaysRedeemed(st: State, reqs: seq<Request>, key: string,
                                 username: string, password: string)
    requires Valid(st)
    requires forall i :: 0 <= i < |reqs| ==> Admissible(reqs[i])
    requires key in st.db.keys && st.db.keys[key].isUsed
    ensures key in Run(st, reqs).db.keys && Run(st, reqs).db.keys[key] == st.db.keys[key]
    ensures Register(Run(st, reqs), username, password, key).response ==
              Render(RegisterTemplate, Some(InvalidKeyError))
  {
    var st' := Run(st, reqs);
    assert st'.db.keys[key] == st.db.keys[key];
  }
}
