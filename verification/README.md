# Accounts, invitation keys and live-session flags of the Douyin AI assistant

This project models the account side of the Flask dashboard in `app.py`: the
`User`, `APIKey` and `Setting` tables, the Flask `session` of one client, and
the routes that read and change them — registration with an invitation key
("卡密"), login, logout, starting and stopping the live session, the admin-only
user and key pages, issuing new keys, and saving a user's settings.

Layout:

- `store.dfy` (module `Store`): the rows, the database (`Db`: the three tables
  plus the next primary key SQLite assigns to a new user and setting row), the
  session (each entry `None` when missing from the dictionary), and the
  invariant `Valid`. It says that usernames are unique. A key is used exactly
  when it names a user; that user exists, and no other key names them. Every
  setting belongs to an existing user, and every user has exactly one setting.
  The session's `user_id`, `username` and `is_admin` are present together and
  describe an existing user.
- `routes.dfy` (module `Routes`): each route as a function from a state to a
  `Step` (the response and the next state). Its `ensures` state what the
  route promises: which error for which input, what changes, and that nothing
  else does.
- `app.dfy` (module `WebApp`): class `App` holds the tables and the session
  as fields. Its methods update them step by step, as the handlers do. Each
  method is proved to end in exactly the state and response of its route
  function. `DrawKeys` keeps the `for` loop of `POST /keys`.
- `trace.dfy` (module `Trace`): any sequence of requests. The server starts
  from the database the `__main__` block seeds: the `admin` user, its
  setting and five unused keys. Every state reachable from there is valid. User rows are never lost or
  changed. A used key never changes again. A key becomes used only by a user
  who did not exist before.
- `text.dfy` (module `Text`): `str(user_id)` for the room name `room_<id>`,
  proved injective through a round trip. It also covers
  `str(uuid4()).replace('-', '')[:16]`, proved to give 16 lower-case hex
  digits.

Responses: `Render(template, error)` is `render_template` with its `error`
argument. `Redirect(endpoint)` is `redirect(url_for(endpoint))`. `Json` is a
`jsonify` status/message pair. `ServerError` is an uncaught exception: Flask
answers HTTP 500, and the uncommitted database session is discarded.

`live_active` and `room` are two entries of the client's Flask session; a
single daemon thread (not modelled) reads them.

## Model

| member | source | states |
|---|---|---|
| `Routes.Register` | app.py:114-149 | An absent or used key gives "无效的卡密" and changes nothing. A valid key with a taken username gives "用户名已存在" and changes nothing. The key is checked first. Otherwise the response is the dashboard redirect and `NewAccount` holds: exactly one new user (given username and password, not admin) under a fresh id. Exactly the redeemed key changes, to used and linked to that id. Exactly one new setting, with the default prompt and voice style, is that user's only setting. The session holds the new user. The state stays valid. |
| `Routes.Registered` | app.py:130-146 | The state after the inserts and updates of a registration. The new user and setting ids stay below the advanced counters. |
| `Routes.RegisteredGrowsTables` | app.py:130-140 | A registration adds exactly one user row and one setting row and leaves the number of keys as it was. |
| `Routes.Login` | app.py:100-112 | The dashboard redirect happens iff some user matches both username and password. The session then holds that user's id, username and `is_admin`, and the live entries are untouched. Otherwise the response is "用户名或密码错误" and nothing changes. The database never changes. |
| `Routes.LoginMatchUnique` | app.py:105 | In a valid database at most one user matches a username and password, so the login query has one answer. |
| `Routes.StartLive` | app.py:202-209 | Without `user_id` the response is the "请先登录" error and nothing changes. Otherwise `live_active` is True and `room` is `room_<user_id>`; the identity entries and the database are unchanged. |
| `Routes.StopLive` | app.py:211-216 | Always answers "直播间已停止". With `user_id` present it removes only `live_active` and `room`; without it nothing changes. |
| `Routes.StopLiveIdempotent` | app.py:213-216 | Stopping a stopped session changes nothing. |
| `Routes.Logout` | app.py:218-221 | The session is emptied, the database unchanged, the response is the login redirect. |
| `Routes.AdminGuard` | app.py:185-186 | The admin guard passes iff the session has `user_id` and `is_admin` is True. It fails with a `KeyError` iff `user_id` is present without `is_admin`. |
| `Routes.Users` | app.py:175-181 | An admin gets the list of all users. Anyone else is redirected to the dashboard. Nothing changes. |
| `Routes.Keys` | app.py:183-200 | A GET by an admin gets the list of all keys. Anyone else is redirected. Nothing changes. |
| `Routes.GeneratedKeys` | app.py:191-195 | The loop yields exactly `count` keys, the i-th made from the i-th UUID. |
| `Routes.IssueKeys` | app.py:188-197 | A non-admin is redirected and nothing changes. For an admin: if the new keys repeat or clash with an existing key, the commit fails and nothing changes. Otherwise exactly `count` (default 1, none if negative) distinct new keys, namely `GeneratedKeys` of the UUIDs, of 16 hex characters are added, each unused and linked to nobody. No existing key, user, setting or session entry changes. The key table grows by exactly `count`. |
| `Routes.Collides` | app.py:196 | The commit breaks the unique constraint on `APIKey.key` (app.py:29) exactly when the key table would not grow by one row per new key. That happens when two new keys are equal or one is already in the table. |
| `Routes.KeySetCardinality` | app.py:191-195 | The keys drawn form a set no larger than their number. The two sizes are equal exactly when no key repeats. |
| `Routes.AddUnusedKeysIssues` | app.py:193-196 | Committing non-colliding keys adds exactly them, each unused, and leaves old keys alone. The table size grows by their number. |
| `Routes.UpdateSettings` | app.py:159-171 | Without `user_id`: login redirect, nothing changes. Otherwise: "设置已更新". Exactly the logged-in user's setting gets the three submitted values, and every other setting, user, key and session entry is unchanged. The state stays valid. |
| `Text.Decimal` | app.py:208 | `str(n)`: at least one character, all decimal digits, no leading zero. |
| `Text.DecimalRoundTrip` | app.py:208 | Reading `str(n)` back gives `n`. |
| `Text.RoomNameInjective` | app.py:208 | Two users with different ids never get the same room name. |
| `Text.RemoveDashes` | app.py:192 | `replace('-', '')` leaves no dash and never lengthens the string. |
| `Text.KeyFromUuid` | app.py:192 | `str(uuid).replace('-', '')[:16]` is a prefix of the dash-free text. It holds 16 characters, or all of them when there are fewer, and contains no dash. |
| `Text.KeyFromUuidShape` | app.py:192 | A key cut from a UUID's text is its first 16 hex digits: 16 characters long, all lower-case hex. |
| `Routes.Bootstrap` | app.py:236-254 | With users present the start-up block changes nothing. With an empty user table it fails exactly when the five new keys collide. Otherwise it adds the admin user under the next id, its default setting as the only setting, and the five keys as `KeysIssued` describes. The session is untouched and the state stays valid. |
| `Routes.SeededValid` | app.py:239-252 | Seeding a valid database that has no users keeps it valid. The admin's setting is then its only setting. |
| `Routes.SeededAdminLogsIn` | app.py:241 | The seeded `admin`/`admin` account can log in, and its session passes the admin guard. |
| `Trace.Started` | app.py:237-254 | The server's first database exists exactly when the five start-up keys are distinct. It is valid, holds user 1 `admin` with setting 1, and has five unused keys and an empty session. |
| `Trace.Handle` | app.py:100-221 | Every modelled route keeps the state valid. Users survive unchanged, keys survive, used keys are frozen. A newly used key names a user who did not exist before. |
| `Trace.RegisterExtends` | app.py:122-136 | A registration keeps every user row and key. It changes a key only when that key was unused, and then links it to the newly created user. |
| `Trace.IssueKeysExtends` | app.py:193-196 | Issuing keys keeps every user row and every existing key unchanged. |
| `Trace.Run` | app.py:100-221 | The same holds after any sequence of requests. |
| `Trace.ExtendsTransitive` | app.py:122-136 | The "redeemed at most once, by a new user" relation composes across requests. |
| `Trace.ReachableValid` | app.py:100-254 | When start-up succeeds, every state reachable from its database satisfies the invariant: unique usernames, used keys pointing at existing users, exactly one setting per user. Users and used keys of the start-up database survive. |
| `Trace.RedeemedKeyStaysRedeemed` | app.py:122-136 | Once a key is used it keeps its owner through any later requests. Every later registration with it is refused as "无效的卡密". |
| `WebApp.App.constructor` | app.py:237 | A new application starts with empty tables and an empty session, which is valid. |
| `WebApp.App.Register` | app.py:114-149 | The in-place registration (insert, flush, key update, setting insert, session writes) ends exactly as `Routes.Register` says and keeps the invariant. |
| `WebApp.App.Login` | app.py:100-112 | The in-place login ends exactly as `Routes.Login` says. |
| `WebApp.App.StartLive` | app.py:202-209 | The session writes end exactly as `Routes.StartLive` says. |
| `WebApp.App.StopLive` | app.py:211-216 | The session pops end exactly as `Routes.StopLive` says. |
| `WebApp.App.Logout` | app.py:218-221 | `session.clear()` ends exactly as `Routes.Logout` says. |
| `WebApp.App.ListUsers` | app.py:175-181 | Answers as `Routes.Users` does, changing nothing. |
| `WebApp.App.ListKeys` | app.py:183-200 | Answers as `Routes.Keys` does, changing nothing. |
| `WebApp.App.IssueKeys` | app.py:185-197 | The guard, the loop and the commit end exactly as `Routes.IssueKeys` says. |
| `WebApp.App.DrawKeys` | app.py:189-195 | The `for _ in range(count)` loop, given the parsed `count` as is, returns exactly `GeneratedKeys(uuids, count)` when `count` is not negative: `count` keys, the i-th cut from the i-th UUID. It returns no key when `count` is negative. Its invariant is that the keys so far are those of the UUIDs drawn so far. |
| `WebApp.App.UpdateSettings` | app.py:159-171 | The three column assignments end exactly as `Routes.UpdateSettings` says. |

## Left out

- `simulate_douyin_comments` and its thread (app.py:41-68): an endless loop driven by the clock and `sleep`. It reads the request-bound `session` outside any request. This is concurrency and timing.
- The Socket.IO `connect`/`disconnect` handlers and every `socketio.emit`: real-time transport.
- `analyze_with_deepseek` (app.py:71-85): a canned reply picked by Python's per-process randomized `hash`, so the choice is not deterministic.
- `text_to_speech` (app.py:88-91): a constant data URL.
- `index`, `dashboard` and the GET branches of `login`, `register` and `settings`: they only redirect or render a template and change nothing.
- Template rendering and the content of pages: a response records only the template, the error text or the listed rows.
- Randomness of `uuid.uuid4()`: the UUIDs are a parameter of `IssueKeys`, required to be UUID text and at least `count` many.
- The integer primary key of `APIKey`: nothing reads it, so keys are indexed by their unique `key` column.
- Parsing of the `count` form field: a value that is not an integer raises `ValueError` before any change; the model takes the field already parsed, or absent (default 1).
- A missing form field (`request.form[...]` raising a 400 error): the form values are parameters.
- Transactions: `flush`/`commit` are not modelled separately. Every modelled route either commits all its changes or, on an exception, none. The only commit that can fail is `IssueKeys` on a duplicate key, modelled as `ServerError` with nothing changed.
- Primary keys: SQLite hands out each new id as a counter above every existing id. Rows are never deleted, so this is the same as SQLite's max-plus-one rule.
- Route functions: they are specified over states satisfying `Store.Valid`. `Trace.ReachableValid` proves that every state reached from the start-up database satisfies it. The `KeyError` branch of the admin guard and the `None` setting branch of `settings` are kept as `ServerError` but cannot occur in such states.
- The `__main__` block (app.py:235-256) is modelled by the state it leaves (`Routes.Bootstrap`), not as a method with its own loop. `socketio.run` starts the server and is not modelled.
- Routes.Bootstrap: when the five new keys collide, the second commit raises and the process stops. The admin row committed just before survives without a setting, and a later start skips seeding. The model answers `None` and does not describe that database.
- Concurrency: every request is modelled as one atomic transition, and requests are served one at a time. In the source, `register` looks the key up (app.py:122) and later marks it used (app.py:135-136) without checking again. So two `POST /register` requests with the same unused key that interleave could both redeem it. "A key is redeemed at most once" (`Store.KeysConsistent`, `Trace.Extends`, `Trace.RedeemedKeyStaysRedeemed`) holds only for serialized requests.
- Session integrity: the model assumes only the routes write the session. The session is a cookie signed with the constant `SECRET_KEY` of app.py:12. Anyone who knows that key can forge a cookie that breaks `Store.SessionValid` and passes the admin guard.
- `config.py`: environment lookups and configuration classes.
- `static/js/script.js`: browser code. It calls `/users` POST/DELETE and `/keys` DELETE, which `app.py` does not define.
