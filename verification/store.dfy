/** The three database tables (`User`, `APIKey`, `Setting`), the per-client
    Flask session, and the invariants the account routes keep. */
module Store {

  datatype Option<T> = None | Some(value: T)

  /** A row of `User`; its integer primary key is the key of `Db.users`. */
  datatype User = User(username: string, password: string, isAdmin: bool)

  /** A row of `APIKey`, found by its unique `key` column (the key of `Db.keys`).
      `userId` is the `user_id` column, NULL until the key is redeemed. */
  datatype ApiKey = ApiKey(isUsed: bool, userId: Option<nat>)

  /** A row of `Setting`; its own primary key is the key of `Db.settings`. */
  datatype Setting = Setting(userId: nat, liveUrl: Option<string>, prompt: string, voiceStyle: string)

  /** The entries the routes read from and write into Flask's `session`
      dictionary; `None` is a missing entry. */
  datatype Session = Session(
    userId: Option<nat>,
    username: Option<string>,
    isAdmin: Option<bool>,
    liveActive: Option<bool>,
    room: Option<string>)

  /** The database: the three tables and the next primary key SQLite hands out
      for a new `User` and a new `Setting` row. */
  datatype Db = Db(
    users: map<nat, User>,
    keys: map<string, ApiKey>,
    settings: map<nat, Setting>,
    nextUserId: nat,
    nextSettingId: nat)

  /** What a request sees and changes: the database and the client's session. */
  datatype State = State(db: Db, session: Session)

  /** `session.clear()`. */
  const EmptySession: Session := Session(None, None, None, None, None)

  /** The column defaults of `Setting.prompt` and `Setting.voice_style`. */
  const DefaultPrompt: string := "你是一个专业的直播助手，请用简洁的语言回复观众的问题"
  const DefaultVoiceStyle: string := "知性女声"

  /** A fresh database, as `db.create_all()` leaves it, and a fresh session. */
  const Initial: State := State(Db(map[], map[], map[], 1, 1), EmptySession)

  /** `Setting(user_id=uid)`: the other columns take their defaults. */
  function DefaultSetting(uid: nat): Setting
  {
    Setting(uid, None, DefaultPrompt, DefaultVoiceStyle)
  }

  /** `filter_by(key=key, is_used=False).first()` finds a row. */
  predicate KeyRedeemable(keys: map<string, ApiKey>, key: string)
  {
    key in keys && !keys[key].isUsed
  }

  /** `User.query.filter_by(username=username).first()` finds a row. */
  predicate UsernameTaken(users: map<nat, User>, username: string)
  {
    exists id :: id in users && users[id].username == username
  }

  /** The user row matches both columns of the login query. */
  predicate Matches(u: User, username: string, password: string)
  {
    u.username == username && u.password == password
  }

  /** `Setting.query.filter_by(user_id=uid).first()` finds a row. */
  predicate HasSetting(settings: map<nat, Setting>, uid: nat)
  {
    exists s :: s in settings && settings[s].userId == uid
  }

  /** The guard of the admin pages lets the session through. */
  predicate IsAdminSession(s: Session)
  {
    s.userId.Some? && s.isAdmin == Some(true)
  }

  /** Every row id lies below the counter the next insert will use; user ids
      start at 1. */
  ghost predicate IdsBelowCounters(db: Db)
  {
    && 1 <= db.nextUserId
    && (forall id :: id in db.users ==> 1 <= id < db.nextUserId)
    && (forall s :: s in db.settings ==> s < db.nextSettingId)
  }

  /** No two users share a username. */
  ghost predicate UniqueUsernames(users: map<nat, User>)
  {
    forall a, b :: a in users && b in users && users[a].username == users[b].username ==> a == b
  }

  /** A key is used exactly when it names a user, that user exists, and no
      other key names the same user. */
  ghost predicate KeysConsistent(db: Db)
  {
    && (forall k :: k in db.keys ==> (db.keys[k].isUsed <==> db.keys[k].userId.Some?))
    && (forall k :: k in db.keys && db.keys[k].userId.Some? ==> db.keys[k].userId.value in db.users)
    && (forall k1, k2 ::
          (k1 in db.keys && k2 in db.keys && db.keys[k1].userId.Some? &&
           db.keys[k1].userId == db.keys[k2].userId) ==> k1 == k2)
  }

  /** Every setting belongs to an existing user, and every user has exactly
      one setting. */
  ghost predicate SettingsConsistent(db: Db)
  {
    && (forall s :: s in db.settings ==> db.settings[s].userId in db.users)
    && (forall s1, s2 ::
          (s1 in db.settings && s2 in db.settings &&
           db.settings[s1].userId == db.settings[s2].userId) ==> s1 == s2)
    && (forall u :: u in db.users ==> HasSetting(db.settings, u))
  }

  ghost predicate DbValid(db: Db)
  {
    IdsBelowCounters(db) && UniqueUsernames(db.users) && KeysConsistent(db) && SettingsConsistent(db)
  }

  /** The session holds `user_id`, `username` and `is_admin` together and they
      describe an existing user; `live_active` and `room` come and go together,
      only while someone is logged in, and `live_active` is only ever True. */
  ghost predicate SessionValid(s: Session, users: map<nat, User>)
  {
    && (s.userId.Some? <==> s.username.Some?)
    && (s.userId.Some? <==> s.isAdmin.Some?)
    && (s.liveActive.Some? <==> s.room.Some?)
    && (s.room.Some? ==> s.userId.Some?)
    && (s.liveActive.Some? ==> s.liveActive.value)
    && (s.userId.Some? ==>
          && s.userId.value in users
          && users[s.userId.value].username == s.username.value
          && users[s.userId.value].isAdmin == s.isAdmin.value)
  }

  ghost predicate Valid(st: State)
  {
    DbValid(st.db) && SessionValid(st.session, st.db.users)
  }

  lemma InitialValid()
    ensures Valid(Initial)
  {
  }

  /** The setting of a user, as `first()` returns it. */
  ghost function SettingIdOf(settings: map<nat, Setting>, uid: nat): (s: nat)
    requires HasSetting(settings, uid)
    ensures s in settings && settings[s].userId == uid
  {
    var s :| s in settings && settings[s].userId == uid; s
  }
}
