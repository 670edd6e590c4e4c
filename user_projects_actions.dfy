/**
 * The server actions on projects (src/database/actions/user-projects-actions.ts).
 * `createUserProject` needs a signed-in user, adds the new project to the
 * user's list and rethrows every error; the other actions answer None
 * (`null`) or false when the store throws.
 */
module UserProjectsActions {
  import opened Wrappers
  import opened Json
  import opened Store

  /** Why `createUserProject` threw. */
  datatype ProjectError =
    | NotLoggedIn
    | AuthFailed(thrown: Thrown)
    | StoreFailed(error: StoreError)

  /** The message of the error thrown without a signed-in user. */
  const NotLoggedInMessage := "You must be logged in to create a project"

  function ProjectErrorMessage(e: ProjectError): Option<string> {
    match e
    case NotLoggedIn => Some(NotLoggedInMessage)
    case AuthFailed(ErrorObject(m)) => Some(m)
    case AuthFailed(NonError) => None
    case StoreFailed(_) => None
  }

  /** What `createUserProject` came to: the new project, or the error it threw. */
  datatype ProjectCreation = ProjectCreated(project: Record) | ProjectThrew(error: ProjectError)

  /** An entry that survives `id !== undefined && id !== null`. */
  predicate Present(v: Json) {
    !Nullish(v)
  }

  /**
   * The user's project list as ids: a populated entry gives its `id`,
   * `null` and `undefined` are dropped, and anything but an array (after
   * `|| []`) counts as no projects.
   */
  function UserProjectIds(user: Record): (ids: seq<Json>)
    ensures forall i :: 0 <= i < |ids| ==> !Nullish(ids[i])
  {
    var list := Or(Get(user, "projects"), JArr([]));
    if list.JArr? then RelationIds(list.items, Present) else []
  }

  /**
   * The second half of `createUserProject`: read the user back and write
   * the list with the project's id appended unless it is there already.
   * The second component is the error that was thrown, if any.
   */
  function LinkProject(db: Db, faults: set<Call>, env: Env, uid: string, pid: Json): (Db, Option<StoreError>) {
    match FindByIdIn(db, faults, Users, uid)
    case Fail(e) => (db, Some(e))
    case Ok(current) =>
      var ids := UserProjectIds(current);
      if pid in ids then (db, None)
      else
        match UpdateIn(db, faults, env, Users, uid, map["projects" := JArr(ids + [pid])])
        case Fail(e) => (db, Some(e))
        case Ok(updated) => (updated.0, None)
  }

  /** `createUserProject` as a function of the database: check the user, create the project, link it. */
  function CreateUserProjectIn(db: Db, faults: set<Call>, env: Env, auth: Auth, data: Record, newId: string, now: string): (Db, ProjectCreation) {
    match auth
    case AuthThrew(t) => (db, ProjectThrew(AuthFailed(t)))
    case Anonymous => (db, ProjectThrew(NotLoggedIn))
    case SignedIn(uid, _) =>
      match CreateIn(db, faults, env, UserProjects, data, newId, now)
      case Fail(e) => (db, ProjectThrew(StoreFailed(e)))
      case Ok(created) =>
        var linked := LinkProject(created.0, faults, env, uid, Get(created.1, "id"));
        if linked.1.Some? then (linked.0, ProjectThrew(StoreFailed(linked.1.value)))
        else (linked.0, ProjectCreated(created.1))
  }

  /** Without a signed-in user the call throws and nothing is written. */
  lemma CreateUserProjectNeedsUser(db: Db, faults: set<Call>, env: Env, auth: Auth, data: Record, newId: string, now: string)
    requires !auth.SignedIn?
    ensures var res := CreateUserProjectIn(db, faults, env, auth, data, newId, now);
      && res.0 == db && res.1.ProjectThrew?
      && (auth.Anonymous? ==> ProjectErrorMessage(res.1.error) == Some(NotLoggedInMessage))
  {
  }

  /**
   * A successful link changes at most the user's own document: when the
   * list already held the id nothing is written at all, and otherwise
   * only that user is rewritten.
   */
  lemma LinkProjectScope(db: Db, faults: set<Call>, env: Env, uid: string, pid: Json)
    requires LinkProject(db, faults, env, uid, pid).1.None?
    ensures uid in db.users
    ensures var res := LinkProject(db, faults, env, uid, pid).0;
      && (pid in UserProjectIds(AsDoc(uid, db.users[uid])) ==> res == db)
      && res == db.(users := res.users)
      && res.users.Keys == db.users.Keys
      && (forall k :: k in db.users && k != uid ==> res.users[k] == db.users[k])
  {
    var ids := UserProjectIds(AsDoc(uid, db.users[uid]));
    if pid !in ids {
      UpdateEffect(db, faults, env, Users, uid, map["projects" := JArr(ids + [pid])]);
    }
  }

  /**
   * A successful link leaves the id in the user's list; when the list
   * lacked it, the list is rewritten as the old ids followed by the new
   * one, so a list without repeats stays without repeats.
   */
  lemma LinkProjectAppends(db: Db, faults: set<Call>, env: Env, uid: string, pid: Json)
    requires pid.JStr? && LinkProject(db, faults, env, uid, pid).1.None?
    ensures uid in db.users
    ensures var res := LinkProject(db, faults, env, uid, pid).0;
      var before := UserProjectIds(AsDoc(uid, db.users[uid]));
      && uid in res.users
      && pid in UserProjectIds(AsDoc(uid, res.users[uid]))
      && (pid !in before ==>
            && Get(res.users[uid], "projects") == JArr(before + [pid])
            && (Distinct(before) ==> Distinct(before + [pid])))
  {
    var found := FindByIdIn(db, faults, Users, uid);
    assert found.Ok?;
    var ids := UserProjectIds(found.value);
    if pid !in ids {
      var r := UpdateIn(db, faults, env, Users, uid, map["projects" := JArr(ids + [pid])]);
      assert r.Ok?;
      WrittenProjectList(db, faults, env, uid, ids + [pid]);
      RelationIdsAppend(ids, [pid], Present);
      assert RelationIds([pid], Present) == [pid];
      AppendFreshKeepsDistinct(ids, pid);
    }
  }

  /** Writing a list of projects to a user stores exactly that list, which then reads back normalised. */
  lemma WrittenProjectList(db: Db, faults: set<Call>, env: Env, uid: string, list: seq<Json>)
    requires UpdateIn(db, faults, env, Users, uid, map["projects" := JArr(list)]).Ok?
    ensures var after := UpdateIn(db, faults, env, Users, uid, map["projects" := JArr(list)]).value.0;
      && uid in after.users
      && Get(after.users[uid], "projects") == JArr(list)
      && UserProjectIds(AsDoc(uid, after.users[uid])) == RelationIds(list, Present)
  {
    var d := map["projects" := JArr(list)];
    UpdatePlainEffect(db, faults, env, Users, uid, d);
    var after := UpdateIn(db, faults, env, Users, uid, d).value.0.users[uid];
    assert Get(after, "projects") == JArr(list);
    assert Get(AsDoc(uid, after), "projects") == JArr(list);
  }

  /** Appending a value the list lacks keeps the list free of repeats. */
  lemma AppendFreshKeepsDistinct(xs: seq<Json>, x: Json)
    requires x !in xs
    ensures Distinct(xs) ==> Distinct(xs + [x])
  {
    var ys := xs + [x];
    if Distinct(xs) {
      forall i, j | 0 <= i < j < |ys| ensures ys[i] != ys[j] {
        assert ys[i] == xs[i];
        if j < |xs| {
          assert ys[j] == xs[j];
        }
      }
    }
  }

  /**
   * A created project is new and stored under the generated id, the
   * signed-in user exists, and the user's list then holds the project's
   * id; sessions and messages do not change.
   */
  lemma CreateUserProjectEffect(db: Db, faults: set<Call>, env: Env, auth: Auth, data: Record, newId: string, now: string)
    requires CreateUserProjectIn(db, faults, env, auth, data, newId, now).1.ProjectCreated?
    ensures auth.SignedIn? && auth.id in db.users && newId !in db.projects
    ensures var res := CreateUserProjectIn(db, faults, env, auth, data, newId, now);
      var db1 := db.(projects := db.projects[newId := data - {"id"}]);
      && res.1.project == AsDoc(newId, data - {"id"})
      && res.0 == LinkProject(db1, faults, env, auth.id, JStr(newId)).0
      && LinkProject(db1, faults, env, auth.id, JStr(newId)).1.None?
      && res.0.projects == db1.projects && res.0.sessions == db.sessions && res.0.messages == db.messages
  {
    CreateEffect(db, faults, env, UserProjects, data, newId, now);
    var c := CreateIn(db, faults, env, UserProjects, data, newId, now);
    var db1 := db.(projects := db.projects[newId := data - {"id"}]);
    assert c.value.0 == db1;
    assert Get(c.value.1, "id") == JStr(newId);
    LinkProjectScope(db1, faults, env, auth.id, JStr(newId));
  }

  /**
   * After a created project the user's list holds its id; a list that
   * lacked it becomes the old normalised ids followed by the new one, and
   * gains no repeat.
   */
  lemma CreateUserProjectLinks(db: Db, faults: set<Call>, env: Env, auth: Auth, data: Record, newId: string, now: string)
    requires CreateUserProjectIn(db, faults, env, auth, data, newId, now).1.ProjectCreated?
    ensures auth.SignedIn? && auth.id in db.users
    ensures var res := CreateUserProjectIn(db, faults, env, auth, data, newId, now).0;
      var before := UserProjectIds(AsDoc(auth.id, db.users[auth.id]));
      && auth.id in res.users
      && JStr(newId) in UserProjectIds(AsDoc(auth.id, res.users[auth.id]))
      && (JStr(newId) in before ==> res.users == db.users)
      && (JStr(newId) !in before ==>
            && Get(res.users[auth.id], "projects") == JArr(before + [JStr(newId)])
            && (Distinct(before) ==> Distinct(before + [JStr(newId)])))
  {
    CreateUserProjectEffect(db, faults, env, auth, data, newId, now);
    var db1 := db.(projects := db.projects[newId := data - {"id"}]);
    LinkProjectScope(db1, faults, env, auth.id, JStr(newId));
    LinkProjectAppends(db1, faults, env, auth.id, JStr(newId));
  }

  /** `createUserProject`. */
  method CreateUserProject(cms: Cms, auth: Auth, data: Record, newId: string, now: string) returns (r: ProjectCreation)
    modifies cms`db
    ensures (cms.db, r) == CreateUserProjectIn(old(cms.db), cms.faults, cms.env, auth, data, newId, now)
  {
    if auth.AuthThrew? {
      return ProjectThrew(AuthFailed(auth.thrown));
    }
    if auth.Anonymous? {
      return ProjectThrew(NotLoggedIn);
    }
    var created := cms.Create(UserProjects, data, newId, now);
    if created.Fail? {
      return ProjectThrew(StoreFailed(created.error));
    }
    var current := cms.FindById(Users, auth.id);
    if current.Fail? {
      return ProjectThrew(StoreFailed(current.error));
    }
    var ids := UserProjectIds(current.value);
    var pid := Get(created.value, "id");
    if pid !in ids {
      var updated := cms.Update(Users, auth.id, map["projects" := JArr(ids + [pid])]);
      if updated.Fail? {
        return ProjectThrew(StoreFailed(updated.error));
      }
    }
    r := ProjectCreated(created.value);
  }

  /** `getUserProjectById`: the project, or None when the lookup throws. */
  method GetUserProjectById(cms: Cms, id: string) returns (r: Option<Record>)
    ensures r.Some? <==> FindByIdCall(UserProjects, id) !in cms.faults && id in cms.db.projects
    ensures r.Some? ==> r.value == AsDoc(id, cms.db.projects[id])
  {
    var found := cms.FindById(UserProjects, id);
    r := if found.Ok? then Some(found.value) else None;
  }

  /** `updateUserProject`: the updated project, or None (and nothing written) when the update throws. */
  method UpdateUserProject(cms: Cms, id: string, data: Record) returns (r: Option<Record>)
    modifies cms`db
    ensures match UpdateIn(old(cms.db), cms.faults, cms.env, UserProjects, id, data)
            case Ok(res) => cms.db == res.0 && r == Some(res.1)
            case Fail(_) => cms.db == old(cms.db) && r.None?
  {
    var updated := cms.Update(UserProjects, id, data);
    r := if updated.Ok? then Some(updated.value) else None;
  }

  /** `deleteUserProject`: true when the project was deleted, false (and nothing deleted) when the call threw. */
  method DeleteUserProject(cms: Cms, id: string) returns (ok: bool)
    modifies cms`db
    ensures ok <==> DeleteCall(UserProjects, id) !in cms.faults && id in old(cms.db.projects)
    ensures ok ==> cms.db == old(cms.db).(projects := old(cms.db.projects) - {id})
    ensures !ok ==> cms.db == old(cms.db)
  {
    var r := cms.Delete(UserProjects, id);
    ok := r.Ok?;
  }

  /** `findUserProjects`: the matching ids, None when the call throws. */
  method FindUserProjects(cms: Cms, where: Where, sort: Option<string>) returns (r: Option<seq<string>>)
    ensures r.None? <==> FindCall(UserProjects, where) in cms.faults
    ensures r.Some? ==> IsListing(cms.db.projects, where, EffectiveOrder(UserProjects, sort), r.value)
  {
    var found := cms.Find(UserProjects, where, sort);
    r := if found.Ok? then Some(found.value) else None;
  }
}
