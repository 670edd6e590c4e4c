/**
 * The server actions on users (src/database/actions/users-actions.ts):
 * reading the signed-in user, updating a user (allowed to the user and to
 * admins), and logging out through the CMS's logout endpoint.
 *
 * The request's headers are parameters: the authentication answer `auth`
 * and the `host` and `x-forwarded-proto` header values. The logout request
 * is the parameter `respond`, which maps the requested URL to what `fetch`
 * came back with.
 */
module UsersActions {
  import opened Wrappers
  import opened Json
  import opened Store

  /** The fallback text for a thrown value that is not an `Error`. */
  const UnknownError := "An unknown error occurred"

  // ---------------------------------------------------------------------------
  // getCurrentUser, isAuthenticated
  // ---------------------------------------------------------------------------

  /** `getCurrentUser`: the signed-in user's document; None when there is none or authentication throws. */
  function GetCurrentUser(auth: Auth): (u: Option<Record>)
    ensures u.Some? <==> auth.SignedIn?
    ensures u.Some? ==> u.value == AsDoc(auth.id, auth.user) && Get(u.value, "id") == JStr(auth.id)
  {
    match auth
    case SignedIn(id, user) => Some(AsDoc(id, user))
    case _ => None
  }

  /** `isAuthenticated`: `!!user` on the answer of `getCurrentUser`. */
  function IsAuthenticated(auth: Auth): (b: bool)
    ensures b <==> auth.SignedIn?
  {
    var u := GetCurrentUser(auth);
    u.Some? && Truthy(JObj(u.value))
  }

  // ---------------------------------------------------------------------------
  // updateUser, updateUserSettings
  // ---------------------------------------------------------------------------

  /** Who may update user `userId`: that user, or an admin. */
  predicate Authorized(auth: Auth, userId: string) {
    auth.SignedIn? && (auth.id == userId || Get(auth.user, "role") == JStr("admin"))
  }

  /** `updateUser` as a function of the database: None, and nothing written, unless an authorised update succeeds. */
  function UpdateUserIn(db: Db, faults: set<Call>, env: Env, auth: Auth, userId: string, data: Record): (Db, Option<Record>) {
    if !Authorized(auth, userId) then (db, None)
    else
      match UpdateIn(db, faults, env, Users, userId, data)
      case Ok(res) => (res.0, Some(res.1))
      case Fail(_) => (db, None)
  }

  /**
   * Nobody but the user and an admin can update a user. An update that
   * answers a document changes only that user: the fields the data gives
   * take its values, the others keep theirs, and the answer is the stored
   * document.
   */
  lemma UpdateUserEffect(db: Db, faults: set<Call>, env: Env, auth: Auth, userId: string, data: Record)
    ensures !Authorized(auth, userId) ==> UpdateUserIn(db, faults, env, auth, userId, data) == (db, None)
    ensures var res := UpdateUserIn(db, faults, env, auth, userId, data);
      res.1.Some? ==>
        && Authorized(auth, userId) && userId in db.users
        && res.0 == db.(users := res.0.users)
        && res.0.users.Keys == db.users.Keys
        && (forall k :: k in db.users && k != userId ==> res.0.users[k] == db.users[k])
        && (forall f :: f != "id" ==> Get(res.0.users[userId], f) == (if f in data then data[f] else Get(db.users[userId], f)))
        && res.1.value == AsDoc(userId, res.0.users[userId])
    ensures var res := UpdateUserIn(db, faults, env, auth, userId, data);
      res.1.None? ==> res.0 == db
  {
    var r := UpdateIn(db, faults, env, Users, userId, data);
    if Authorized(auth, userId) && r.Ok? {
      var merged := db.users[userId] + (data - {"id"});
      assert r.value == (db.With(Users, db.users[userId := merged]), AsDoc(userId, merged));
    }
  }

  /** What `updateUserSettings` answers. */
  datatype SettingsResult = SettingsResult(success: bool, message: Option<string>, error: Option<string>)

  const NotAuthorizedMessage := "Not authorized to update this user"
  const SettingsUpdatedMessage := "User settings updated successfully"

  /**
   * `updateUserSettings` as a function of the database. A thrown value is
   * caught and its message reported; `describe` is the message of the
   * `Error` the CMS throws for a failed update.
   */
  function UpdateUserSettingsIn(db: Db, faults: set<Call>, env: Env, auth: Auth, userId: string, data: Record, describe: StoreError -> string): (Db, SettingsResult) {
    if auth.AuthThrew? then (db, SettingsResult(false, None, Some(ErrorText(auth.thrown, UnknownError))))
    else if !Authorized(auth, userId) then (db, SettingsResult(false, None, Some(NotAuthorizedMessage)))
    else
      match UpdateIn(db, faults, env, Users, userId, data)
      case Fail(e) => (db, SettingsResult(false, None, Some(describe(e))))
      case Ok(res) => (res.0, SettingsResult(true, Some(SettingsUpdatedMessage), None))
  }

  /**
   * The settings action writes what `updateUser` writes and succeeds
   * exactly when `updateUser` answers a document. A success carries the
   * confirmation and no error; a failure carries an error and no message,
   * the refusal text when the caller is signed in but not authorised.
   */
  lemma SettingsAgreeWithUpdateUser(db: Db, faults: set<Call>, env: Env, auth: Auth, userId: string, data: Record, describe: StoreError -> string)
    ensures var s := UpdateUserSettingsIn(db, faults, env, auth, userId, data, describe);
      var u := UpdateUserIn(db, faults, env, auth, userId, data);
      && s.0 == u.0
      && (s.1.success <==> u.1.Some?)
      && (s.1.success ==> s.1.message == Some(SettingsUpdatedMessage) && s.1.error.None?)
      && (!s.1.success ==> s.1.message.None? && s.1.error.Some?)
      && (!auth.AuthThrew? && !Authorized(auth, userId) ==> s.1.error == Some(NotAuthorizedMessage))
      && (auth.AuthThrew? ==> s.1.error == Some(ErrorText(auth.thrown, UnknownError)))
  {
  }

  /** `updateUser`. */
  method UpdateUser(cms: Cms, auth: Auth, userId: string, data: Record) returns (r: Option<Record>)
    modifies cms`db
    ensures (cms.db, r) == UpdateUserIn(old(cms.db), cms.faults, cms.env, auth, userId, data)
  {
    if !Authorized(auth, userId) {
      return None;
    }
    var updated := cms.Update(Users, userId, data);
    r := if updated.Ok? then Some(updated.value) else None;
  }

  /** `updateUserSettings`. */
  method UpdateUserSettings(cms: Cms, auth: Auth, userId: string, data: Record, describe: StoreError -> string) returns (r: SettingsResult)
    modifies cms`db
    ensures (cms.db, r) == UpdateUserSettingsIn(old(cms.db), cms.faults, cms.env, auth, userId, data, describe)
  {
    if auth.AuthThrew? {
      return SettingsResult(false, None, Some(ErrorText(auth.thrown, UnknownError)));
    }
    if !Authorized(auth, userId) {
      return SettingsResult(false, None, Some(NotAuthorizedMessage));
    }
    var updated := cms.Update(Users, userId, data);
    if updated.Fail? {
      return SettingsResult(false, None, Some(describe(updated.error)));
    }
    r := SettingsResult(true, Some(SettingsUpdatedMessage), None);
  }

  // ---------------------------------------------------------------------------
  // logoutUser
  // ---------------------------------------------------------------------------

  /** What the logout request came back with: a response with its `ok` flag, or the value `fetch` threw. */
  datatype LogoutResponse = Responded(ok: bool) | RequestThrew(thrown: Thrown)

  /** What `logoutUser` answers. */
  datatype LogoutResult = LogoutResult(success: bool, error: Option<string>)

  const LogoutFailedMessage := "Failed to logout"
  const LogoutPath := "/api/users/logout"

  /** `headersList.get(name) || fallback`: a missing or empty header gives the fallback. */
  function HeaderOr(h: Option<string>, fallback: string): (s: string)
    ensures h.Some? && h.value != "" ==> s == h.value
    ensures !(h.Some? && h.value != "") ==> s == fallback
  {
    var v := if h.Some? then JStr(h.value) else JNull;
    var picked := Or(v, JStr(fallback));
    if picked.JStr? then picked.s else fallback
  }

  /** The origin of the request: protocol, `://`, host. */
  function BaseUrl(host: Option<string>, proto: Option<string>): string {
    HeaderOr(proto, "http") + "://" + HeaderOr(host, "localhost:3000")
  }

  /** Without the headers the origin is the development server's. */
  lemma BaseUrlDefaults(host: Option<string>, proto: Option<string>)
    ensures (host.None? || host == Some("")) && (proto.None? || proto == Some("")) ==> BaseUrl(host, proto) == "http://localhost:3000"
    ensures host.Some? && host.value != "" && proto.Some? && proto.value != "" ==> BaseUrl(host, proto) == proto.value + "://" + host.value
  {
    if (host.None? || host == Some("")) && (proto.None? || proto == Some("")) {
      assert HeaderOr(proto, "http") == "http";
      assert HeaderOr(host, "localhost:3000") == "localhost:3000";
      assert "http" + "://" + "localhost:3000" == "http://localhost:3000";
    }
  }

  /**
   * `logoutUser`, with the URL it posted to (None when it made no
   * request). With nobody signed in it succeeds without a request;
   * otherwise it posts once, to the logout endpoint at the request's
   * origin, turns a response that is not ok into an `Error` and reports
   * the message of whatever was thrown.
   */
  function LogoutUser(auth: Auth, host: Option<string>, proto: Option<string>, respond: string -> LogoutResponse): (r: (LogoutResult, Option<string>))
    ensures r.1.Some? <==> auth.SignedIn?
    ensures r.1.Some? ==> r.1.value == BaseUrl(host, proto) + LogoutPath
    ensures r.0.success <==> !auth.SignedIn? || respond(BaseUrl(host, proto) + LogoutPath) == Responded(true)
    ensures r.0.success <==> r.0.error.None?
    ensures auth.SignedIn? && respond(r.1.value) == Responded(false) ==> r.0.error == Some(LogoutFailedMessage)
    ensures auth.SignedIn? && respond(r.1.value).RequestThrew? ==> r.0.error == Some(ErrorText(respond(r.1.value).thrown, UnknownError))
  {
    var user := GetCurrentUser(auth);
    if user.None? || !Truthy(JObj(user.value)) then (LogoutResult(true, None), None)
    else
      var url := BaseUrl(host, proto) + LogoutPath;
      var thrown: Option<Thrown> :=
        match respond(url)
        case Responded(ok) => if ok then None else Some(ErrorObject(LogoutFailedMessage))
        case RequestThrew(t) => Some(t);
      if thrown.None? then (LogoutResult(true, None), Some(url))
      else (LogoutResult(false, Some(ErrorText(thrown.value, UnknownError))), Some(url))
  }
}
