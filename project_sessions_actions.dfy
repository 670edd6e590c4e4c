/**
 * The server actions on sessions (src/database/actions/project-sessions-actions.ts):
 * creating a session inside a project, reading a session's messages back
 * in chat form, saving a chat's messages into a session, and deleting a
 * session.
 */
module ProjectSessionsActions {
  import opened Wrappers
  import opened Json
  import opened UiMessageSchema
  import opened SessionMessagesCollection
  import opened Store
  import opened ProjectSessionsCollection

  // ---------------------------------------------------------------------------
  // createSessionForProject
  // ---------------------------------------------------------------------------

  /** A new session's name: the one supplied when truthy, else `Session <now>`. */
  function SessionName(sessionData: Record, now: string): (n: Json)
    ensures Truthy(n)
    ensures Truthy(Get(sessionData, "name")) ==> n == Get(sessionData, "name")
    ensures !Truthy(Get(sessionData, "name")) ==> n == JStr("Session " + now)
  {
    var fallback := JStr("Session " + now);
    assert |fallback.s| >= 8;
    Or(Get(sessionData, "name"), fallback)
  }

  /**
   * The project's session list reduced to ids: a populated entry gives its
   * `id`, falsy entries are dropped, and anything but an array counts as
   * no sessions.
   */
  function ExistingSessions(project: Record): (ids: seq<Json>)
    ensures forall i :: 0 <= i < |ids| ==> Truthy(ids[i])
  {
    var list := Get(project, "project_sessions");
    if list.JArr? then RelationIds(list.items, Truthy) else []
  }

  /**
   * `createSessionForProject` as a function of the database: create the
   * session, look the project up, then write the project's list with the
   * new id at the end. Every failure answers None; one after the create
   * leaves the new session in place.
   */
  function CreateSessionForProjectIn(db: Db, faults: set<Call>, env: Env, projectId: string, sessionData: Record, newId: string, now: string): (Db, Option<Record>) {
    var data := sessionData["name" := SessionName(sessionData, now)];
    match CreateIn(db, faults, env, ProjectSessions, data, newId, now)
    case Fail(_) => (db, None)
    case Ok(created) =>
      match FindByIdIn(created.0, faults, UserProjects, projectId)
      case Fail(_) => (created.0, None)
      case Ok(project) =>
        var list := ExistingSessions(project) + [Get(created.1, "id")];
        match UpdateIn(created.0, faults, env, UserProjects, projectId, map["project_sessions" := JArr(list)])
        case Fail(_) => (created.0, None)
        case Ok(updated) => (updated.0, Some(created.1))
  }

  /**
   * A session created for a project is stored under a fresh id with its
   * name, and the project's list becomes its old entries as ids, falsy
   * ones dropped, followed by the new id; users and messages do not
   * change, nor any other project or session.
   */
  lemma CreateSessionForProjectEffect(db: Db, faults: set<Call>, env: Env, projectId: string, sessionData: Record, newId: string, now: string)
    ensures var res := CreateSessionForProjectIn(db, faults, env, projectId, sessionData, newId, now);
      var after := res.0;
      res.1.Some? ==>
        && newId !in db.sessions && after.sessions == db.sessions[newId := after.sessions[newId]]
        && res.1.value == AsDoc(newId, after.sessions[newId])
        && Get(res.1.value, "name") == SessionName(sessionData, now)
        && projectId in db.projects && after.projects.Keys == db.projects.Keys
        && Get(after.projects[projectId], "project_sessions") ==
             JArr(ExistingSessions(AsDoc(projectId, db.projects[projectId])) + [JStr(newId)])
        && (forall k :: k in db.projects && k != projectId ==> after.projects[k] == db.projects[k])
        && after.users == db.users && after.messages == db.messages
  {
    var data := sessionData["name" := SessionName(sessionData, now)];
    var c := CreateIn(db, faults, env, ProjectSessions, data, newId, now);
    if c.Ok? {
      CreatedSession(db, faults, env, data, newId, now);
      var db1 := c.value.0;
      assert db1.projects == db.projects && db1.users == db.users && db1.messages == db.messages;
      AppendSessionEffect(db1, faults, env, projectId, newId);
      var p := FindByIdIn(db1, faults, UserProjects, projectId);
      if p.Ok? {
        var d := map["project_sessions" := JArr(ExistingSessions(p.value) + [JStr(newId)])];
        var u := UpdateIn(db1, faults, env, UserProjects, projectId, d);
        assert CreateSessionForProjectIn(db, faults, env, projectId, sessionData, newId, now) ==
          if u.Ok? then (u.value.0, Some(c.value.1)) else (db1, None);
      }
    }
  }

  /** Appending a session id to a project's list rewrites that list only. */
  lemma AppendSessionEffect(db: Db, faults: set<Call>, env: Env, projectId: string, sid: string)
    ensures var p := FindByIdIn(db, faults, UserProjects, projectId);
      p.Ok? ==>
        var d := map["project_sessions" := JArr(ExistingSessions(p.value) + [JStr(sid)])];
        var u := UpdateIn(db, faults, env, UserProjects, projectId, d);
        u.Ok? ==>
          && projectId in db.projects && u.value.0.projects.Keys == db.projects.Keys
          && Get(u.value.0.projects[projectId], "project_sessions") ==
               JArr(ExistingSessions(AsDoc(projectId, db.projects[projectId])) + [JStr(sid)])
          && (forall k :: k in db.projects && k != projectId ==> u.value.0.projects[k] == db.projects[k])
          && u.value.0.users == db.users && u.value.0.messages == db.messages && u.value.0.sessions == db.sessions
  {
    var p := FindByIdIn(db, faults, UserProjects, projectId);
    if p.Ok? {
      var d := map["project_sessions" := JArr(ExistingSessions(p.value) + [JStr(sid)])];
      UpdateEffect(db, faults, env, UserProjects, projectId, d);
    }
  }

  /** Creating a session stores it under the new id with the resolved name and touches nothing else. */
  lemma CreatedSession(db: Db, faults: set<Call>, env: Env, data: Record, newId: string, now: string)
    ensures var c := CreateIn(db, faults, env, ProjectSessions, data, newId, now);
      c.Ok? ==>
        && newId !in db.sessions
        && c.value.0 == db.(sessions := db.sessions[newId := data - {"id"}])
        && c.value.1 == AsDoc(newId, data - {"id"})
        && Get(c.value.1, "id") == JStr(newId)
        && (forall f :: f != "id" ==> Get(c.value.1, f) == Get(data, f))
  {
  }

  /** Without the project the call answers None, though the session it created stays behind. */
  lemma CreateSessionWithoutProject(db: Db, faults: set<Call>, env: Env, projectId: string, sessionData: Record, newId: string, now: string)
    requires projectId !in db.projects
    ensures var res := CreateSessionForProjectIn(db, faults, env, projectId, sessionData, newId, now);
      && res.1.None?
      && (CreateIn(db, faults, env, ProjectSessions, sessionData["name" := SessionName(sessionData, now)], newId, now).Ok? ==>
            newId in res.0.sessions && newId !in db.sessions)
  {
    CreatedSession(db, faults, env, sessionData["name" := SessionName(sessionData, now)], newId, now);
  }

  /** `createSessionForProject`: the three store calls in order, stopping at the first that throws. */
  method CreateSessionForProject(cms: Cms, projectId: string, sessionData: Record, newId: string, now: string) returns (r: Option<Record>)
    modifies cms`db
    ensures (cms.db, r) == CreateSessionForProjectIn(old(cms.db), cms.faults, cms.env, projectId, sessionData, newId, now)
  {
    var data := sessionData["name" := SessionName(sessionData, now)];
    var created := cms.Create(ProjectSessions, data, newId, now);
    if created.Fail? {
      return None;
    }
    var project := cms.FindById(UserProjects, projectId);
    if project.Fail? {
      return None;
    }
    var list := ExistingSessions(project.value) + [Get(created.value, "id")];
    var updated := cms.Update(UserProjects, projectId, map["project_sessions" := JArr(list)]);
    if updated.Fail? {
      return None;
    }
    r := Some(created.value);
  }

  // ---------------------------------------------------------------------------
  // getSessionMessages
  // ---------------------------------------------------------------------------

  /** The sort `getSessionMessages` asks for. */
  const ByCreation: Option<string> := Some("createdAt")

  /**
   * The chat form rebuilt from a message's stored fields, with the
   * defaults for falsy ones. `createdAt` becomes a `Date`, which the
   * schema then strips, so it is not carried here.
   */
  function FormattedRecord(id: string, body: Record): Record {
    map[
      "id" := JStr(id),
      "content" := Or(Get(body, "content"), JStr("")),
      "role" := Or(Get(body, "role"), JStr("assistant")),
      "parts" := Or(Get(body, "parts"), JArr([])),
      "annotations" := Or(Get(body, "annotations"), JArr([])),
      "plan" := Or(Get(body, "plan"), JUndef),
      "metadata" := Or(Get(body, "metadata"), JUndef)]
  }

  /** The stored `rawData` if it is truthy and passes the schema. */
  predicate RawDataUsable(body: Record, isUrl: UrlCheck) {
    Truthy(Get(body, "rawData")) && ValidMessage(Get(body, "rawData"), isUrl)
  }

  /**
   * One stored message in chat form: the parse of its `rawData` when that
   * passes the schema, else the parse of the rebuilt record, else None
   * and the message is dropped.
   */
  function FormatMessage(id: string, body: Record, isUrl: UrlCheck): Option<Json> {
    if RawDataUsable(body, isUrl) then ParseMessage(Get(body, "rawData"), isUrl)
    else ParseMessage(JObj(FormattedRecord(id, body)), isUrl)
  }

  /** What comes out of `FormatMessage` passes the schema again. */
  lemma FormatMessageValid(id: string, body: Record, isUrl: UrlCheck)
    ensures FormatMessage(id, body, isUrl).Some? ==> ValidMessage(FormatMessage(id, body, isUrl).value, isUrl)
  {
    if RawDataUsable(body, isUrl) {
      ParseMessageIdempotent(Get(body, "rawData"), isUrl);
    } else if ValidMessage(JObj(FormattedRecord(id, body)), isUrl) {
      ParseMessageIdempotent(JObj(FormattedRecord(id, body)), isUrl);
    }
  }

  /**
   * The choice `getSessionMessages` makes: a usable `rawData` wins;
   * otherwise the rebuilt record, keeping the stored id, is dropped
   * exactly when a truthy `role`, `parts` or `metadata` is malformed.
   */
  lemma FormatMessageChoice(id: string, body: Record, isUrl: UrlCheck)
    ensures RawDataUsable(body, isUrl) ==> FormatMessage(id, body, isUrl) == ParseMessage(Get(body, "rawData"), isUrl)
    ensures !RawDataUsable(body, isUrl) ==>
      (FormatMessage(id, body, isUrl).None? <==>
        || (Truthy(Get(body, "role")) && Get(body, "role") !in Roles)
        || (Truthy(Get(body, "parts")) && !(Get(body, "parts").JArr? && ParseParts(Get(body, "parts").items, isUrl).Some?))
        || (Truthy(Get(body, "metadata")) && !Get(body, "metadata").JObj?))
    ensures !RawDataUsable(body, isUrl) && FormatMessage(id, body, isUrl).Some? ==>
      Get(FormatMessage(id, body, isUrl).value.fields, "id") == JStr(id)
  {
    if !RawDataUsable(body, isUrl) {
      var f := FormattedRecord(id, body);
      MessageAcceptance(JObj(f), isUrl);
      if ValidMessage(JObj(f), isUrl) {
        ParsedMessageShape(JObj(f), isUrl);
      }
    }
  }

  /** A message the collection's field rules accept is never dropped. */
  lemma StoredMessageSurvives(id: string, body: Record, isUrl: UrlCheck)
    requires DocErrors(AsDoc(id, body), isUrl) == []
    ensures FormatMessage(id, body, isUrl).Some?
  {
    if !RawDataUsable(body, isUrl) {
      RuleValidFields(id, body, isUrl);
      FormatMessageChoice(id, body, isUrl);
    }
  }

  /** The fields of a message the collection's rules accept are the ones the rebuilt record needs. */
  lemma RuleValidFields(id: string, body: Record, isUrl: UrlCheck)
    requires DocErrors(AsDoc(id, body), isUrl) == []
    ensures Get(body, "role") in Roles
    ensures !Truthy(Get(body, "parts")) || (Get(body, "parts").JArr? && ParseParts(Get(body, "parts").items, isUrl).Some?)
    ensures !Truthy(Get(body, "metadata")) || Get(body, "metadata").JObj?
  {
    var doc := AsDoc(id, body);
    DocErrorsEmpty(doc, isUrl);
    var role, parts, meta := Get(body, "role"), Get(body, "parts"), Get(body, "metadata");
    assert role == Get(doc, "role") && parts == Get(doc, "parts") && meta == Get(doc, "metadata");
    assert role.s == "system" || role.s == "user" || role.s == "assistant";
  }

  /** Turns one stored message into its chat form, or None to drop it. */
  type Formatter = (string, Record) -> Option<Json>

  /** `FormatMessage` under the environment's URL check. */
  function ChatForm(isUrl: UrlCheck): Formatter {
    (id: string, body: Record) => FormatMessage(id, body, isUrl)
  }

  /** The documents a listing stands for, each as its id and its stored fields. */
  function Docs(t: Table, ids: seq<string>): (docs: seq<(string, Record)>)
    requires AllIn(t, ids)
    ensures |docs| == |ids|
    ensures forall i :: 0 <= i < |ids| ==> docs[i] == (ids[i], t[ids[i]])
  {
    seq(|ids|, i requires 0 <= i < |ids| => (ids[i], t[ids[i]]))
  }

  /** The documents formatted by `fmt`, the dropped ones left out. */
  function FormatMessages(docs: seq<(string, Record)>, fmt: Formatter): (r: seq<Json>)
    ensures |r| <= |docs|
  {
    if |docs| == 0 then []
    else
      var head := fmt(docs[0].0, docs[0].1);
      (if head.Some? then [head.value] else []) + FormatMessages(docs[1..], fmt)
  }

  /** The output keeps the listing's order: formatting a split listing is formatting its halves. */
  lemma {:induction false} FormatMessagesAppend(a: seq<(string, Record)>, b: seq<(string, Record)>, fmt: Formatter)
    ensures FormatMessages(a + b, fmt) == FormatMessages(a, fmt) + FormatMessages(b, fmt)
    decreases |a|
  {
    if |a| == 0 {
      assert a + b == b;
    } else {
      var x := fmt(a[0].0, a[0].1);
      var head := if x.Some? then [x.value] else [];
      assert (a + b)[0] == a[0];
      assert (a + b)[1..] == a[1..] + b;
      FormatMessagesAppend(a[1..], b, fmt);
      var rest, tail := FormatMessages(a[1..], fmt), FormatMessages(b, fmt);
      assert FormatMessages(a + b, fmt) == head + (rest + tail);
      assert FormatMessages(a, fmt) == head + rest;
      assert head + (rest + tail) == (head + rest) + tail;
    }
  }

  /** Nothing is dropped when every document formats. */
  lemma {:induction false} FormatMessagesKeepAll(docs: seq<(string, Record)>, fmt: Formatter)
    requires forall i :: 0 <= i < |docs| ==> fmt(docs[i].0, docs[i].1).Some?
    ensures |FormatMessages(docs, fmt)| == |docs|
  {
    if |docs| > 0 {
      FormatMessagesKeepAll(docs[1..], fmt);
    }
  }

  /** Whatever holds of every formatted message holds of every message in the output. */
  lemma {:induction false} FormatMessagesEach(docs: seq<(string, Record)>, fmt: Formatter, ok: Json -> bool)
    requires forall id, body :: fmt(id, body).Some? ==> ok(fmt(id, body).value)
    ensures forall i :: 0 <= i < |FormatMessages(docs, fmt)| ==> ok(FormatMessages(docs, fmt)[i])
  {
    if |docs| > 0 {
      var x := fmt(docs[0].0, docs[0].1);
      var head := if x.Some? then [x.value] else [];
      var rest := FormatMessages(docs[1..], fmt);
      FormatMessagesEach(docs[1..], fmt, ok);
      assert FormatMessages(docs, fmt) == head + rest;
      forall i | 0 <= i < |head + rest|
        ensures ok((head + rest)[i])
      {
        if i >= |head| {
          assert (head + rest)[i] == rest[i - |head|];
        }
      }
    }
  }

  /** Every message `getSessionMessages` hands out passes the schema. */
  lemma ChatFormValid(docs: seq<(string, Record)>, isUrl: UrlCheck)
    ensures forall i :: 0 <= i < |FormatMessages(docs, ChatForm(isUrl))| ==>
      ValidMessage(FormatMessages(docs, ChatForm(isUrl))[i], isUrl)
  {
    var ok := (j: Json) => ValidMessage(j, isUrl);
    forall id, body
      ensures ChatForm(isUrl)(id, body).Some? ==> ok(ChatForm(isUrl)(id, body).value)
    {
      FormatMessageValid(id, body, isUrl);
    }
    FormatMessagesEach(docs, ChatForm(isUrl), ok);
  }

  /** When every listed message passes the collection's rules, none is dropped. */
  lemma FormatMessagesKeepsValid(t: Table, ids: seq<string>, isUrl: UrlCheck)
    requires AllIn(t, ids)
    requires forall i :: 0 <= i < |ids| ==> DocErrors(AsDoc(ids[i], t[ids[i]]), isUrl) == []
    ensures |FormatMessages(Docs(t, ids), ChatForm(isUrl))| == |ids|
  {
    var docs := Docs(t, ids);
    forall i | 0 <= i < |docs|
      ensures ChatForm(isUrl)(docs[i].0, docs[i].1).Some?
    {
      StoredMessageSurvives(ids[i], t[ids[i]], isUrl);
    }
    FormatMessagesKeepAll(docs, ChatForm(isUrl));
  }

  /**
   * `getSessionMessages`: the session's messages by creation time, in
   * chat form; `[]` when there are none, None when the lookup throws.
   */
  method GetSessionMessages(cms: Cms, sessionId: string) returns (r: Option<seq<Json>>)
    ensures r.None? <==> FindCall(SessionMessages, MessagesOf(sessionId)) in cms.faults
    ensures r.Some? ==> exists ids ::
      && IsListing(cms.db.messages, MessagesOf(sessionId), EffectiveOrder(SessionMessages, ByCreation), ids)
      && r.value == FormatMessages(Docs(cms.db.messages, ids), ChatForm(cms.env.isUrl))
    ensures r.Some? && SessionMessageIds(cms.db, sessionId) == {} ==> r.value == []
  {
    var found := cms.Find(SessionMessages, MessagesOf(sessionId), ByCreation);
    if found.Fail? {
      return None;
    }
    var ids := found.value;
    ListingIsSession(cms.db, sessionId, EffectiveOrder(SessionMessages, ByCreation), ids);
    if |ids| == 0 {
      return Some([]);
    }
    assert ids[0] in SessionMessageIds(cms.db, sessionId);
    r := Some(FormatMessages(Docs(cms.db.messages, ids), ChatForm(cms.env.isUrl)));
  }

  // ---------------------------------------------------------------------------
  // saveSessionMessages
  // ---------------------------------------------------------------------------

  /** The filter that looks a message up inside its session. */
  function MessageInSession(messageId: string, sessionId: string): Where {
    [("id", JStr(messageId)), ("project_session", JStr(sessionId))]
  }

  /** The lookup answers the message exactly when it is stored in this session. */
  lemma MessageInSessionListing(t: Table, messageId: string, sessionId: string, order: Option<SortSpec>, ids: seq<string>)
    requires IsListing(t, MessageInSession(messageId, sessionId), order, ids)
    ensures |ids| > 0 <==> messageId in t && Get(t[messageId], "project_session") == JStr(sessionId)
    ensures |ids| > 0 ==> ids[0] == messageId
  {
    var w := MessageInSession(messageId, sessionId);
    assert w == [("id", JStr(messageId))] + [("project_session", JStr(sessionId))];
    ListingById(t, messageId, [("project_session", JStr(sessionId))], order, ids);
    if messageId in t {
      var doc := AsDoc(messageId, t[messageId]);
      assert Get(doc, w[0].0) == w[0].1;
      assert Get(doc, w[1].0) == Get(t[messageId], "project_session");
      assert Matches(messageId, t[messageId], w) <==> Get(t[messageId], "project_session") == JStr(sessionId);
      if Get(t[messageId], "project_session") == JStr(sessionId) {
        assert messageId in ids;
      }
    }
    if |ids| > 0 {
      assert ids[0] == messageId && ids[0] in t;
      assert Matches(ids[0], t[ids[0]], w);
    }
  }

  /** The input's `createdAt` in ISO form, when it is a truthy string holding a valid date. */
  function InputCreatedAt(msg: Json, toIso: IsoNormaliser): Option<string> {
    var c := if msg.JObj? then Get(msg.fields, "createdAt") else JUndef;
    if Truthy(c) && c.JStr? then toIso(c.s) else None
  }

  /**
   * The record saved for a validated message: its `id`, `role` and
   * `parts`, the session, `metadata` only when it is defined, and
   * `createdAt` only when the input carried a valid date.
   */
  function MessageRecord(msg: Json, valid: Record, sessionId: string, toIso: IsoNormaliser): (rec: Record)
    ensures rec.Keys == {"id", "role", "parts", "project_session"}
      + (if Get(valid, "metadata") != JUndef then {"metadata"} else {})
      + (if InputCreatedAt(msg, toIso).Some? then {"createdAt"} else {})
    ensures rec["id"] == Get(valid, "id") && rec["role"] == Get(valid, "role") && rec["parts"] == Get(valid, "parts")
    ensures rec["project_session"] == JStr(sessionId)
    ensures "metadata" in rec ==> rec["metadata"] == Get(valid, "metadata")
    ensures "createdAt" in rec ==> rec["createdAt"] == JStr(InputCreatedAt(msg, toIso).value)
  {
    var base := map["id" := Get(valid, "id"), "role" := Get(valid, "role"), "parts" := Get(valid, "parts"), "project_session" := JStr(sessionId)];
    var withMeta := if Get(valid, "metadata") != JUndef then base["metadata" := Get(valid, "metadata")] else base;
    var date := InputCreatedAt(msg, toIso);
    if date.Some? then withMeta["createdAt" := JStr(date.value)] else withMeta
  }

  /**
   * What saving one message came to. `Threw` is a `null` or `undefined`
   * message: spreading it into a record throws outside the inner `try`,
   * so the loop stops and the outer `catch` answers false.
   */
  datatype Saved = Skipped | Stored(id: Json) | WriteFailed | Threw

  /**
   * Writing one record: looked up in the session and updated when found,
   * created otherwise; a lookup or write that throws counts as a failed
   * write.
   */
  function Upsert(db: Db, faults: set<Call>, env: Env, sessionId: string, mid: string, rec: Record, now: string): (Db, Saved) {
    if FindCall(SessionMessages, MessageInSession(mid, sessionId)) in faults then (db, WriteFailed)
    else if mid in db.messages && Get(db.messages[mid], "project_session") == JStr(sessionId) then
      match UpdateIn(db, faults, env, SessionMessages, mid, rec)
      case Ok(res) => (res.0, Stored(JStr(mid)))
      case Fail(_) => (db, WriteFailed)
    else
      match CreateIn(db, faults, env, SessionMessages, rec, "", now)
      case Ok(res) => (res.0, Stored(JStr(mid)))
      case Fail(_) => (db, WriteFailed)
  }

  /** Saving one message: a nullish one throws, an invalid one is skipped, a valid one upserted as its record. */
  function SaveOne(db: Db, faults: set<Call>, env: Env, sessionId: string, msg: Json, now: string): (Db, Saved) {
    var parsed := ParseMessage(msg, env.isUrl);
    if Nullish(msg) then (db, Threw)
    else if parsed.None? then (db, Skipped)
    else Upsert(db, faults, env, sessionId, Get(msg.fields, "id").s, MessageRecord(msg, parsed.value.fields, sessionId, env.toIso), now)
  }

  /**
   * An upsert of a record of this session touches only this session's
   * messages: no message is removed, a message of another session keeps
   * its fields, one of this session stays in it, and the stored message
   * belongs to the session afterwards.
   */
  lemma UpsertEffect(db: Db, faults: set<Call>, env: Env, sessionId: string, mid: string, rec: Record, now: string)
    requires Get(rec, "id") == JStr(mid) && Get(rec, "project_session") == JStr(sessionId)
    ensures var (d, saved) := Upsert(db, faults, env, sessionId, mid, rec, now);
      && d.users == db.users && d.projects == db.projects && d.sessions == db.sessions
      && db.messages.Keys <= d.messages.Keys
      && (forall k :: k in db.messages && Get(db.messages[k], "project_session") != JStr(sessionId) ==> d.messages[k] == db.messages[k])
      && (forall k :: k in db.messages && Get(db.messages[k], "project_session") == JStr(sessionId) ==>
            Get(d.messages[k], "project_session") == JStr(sessionId))
      && !saved.Skipped?
      && (saved.WriteFailed? ==> d == db)
      && (saved.Stored? ==> saved.id == JStr(mid) && mid in d.messages && Get(d.messages[mid], "project_session") == JStr(sessionId))
  {
    if FindCall(SessionMessages, MessageInSession(mid, sessionId)) !in faults {
      if mid in db.messages && Get(db.messages[mid], "project_session") == JStr(sessionId) {
        UpsertUpdateEffect(db, faults, env, sessionId, mid, rec);
      } else {
        UpsertCreateEffect(db, faults, env, sessionId, mid, rec, now);
      }
    }
  }

  /** An updated message of the session stays in it, and the others are as they were. */
  lemma UpsertUpdateEffect(db: Db, faults: set<Call>, env: Env, sessionId: string, mid: string, rec: Record)
    requires Get(rec, "project_session") == JStr(sessionId)
    requires mid in db.messages && Get(db.messages[mid], "project_session") == JStr(sessionId)
    ensures var u := UpdateIn(db, faults, env, SessionMessages, mid, rec);
      u.Ok? ==>
        && u.value.0.messages.Keys == db.messages.Keys
        && (forall k :: k in db.messages && k != mid ==> u.value.0.messages[k] == db.messages[k])
        && Get(u.value.0.messages[mid], "project_session") == JStr(sessionId)
        && u.value.0.users == db.users && u.value.0.projects == db.projects && u.value.0.sessions == db.sessions
  {
    UpdateEffect(db, faults, env, SessionMessages, mid, rec);
  }

  /** A created message is new, is stored in the session, and leaves the others as they were. */
  lemma UpsertCreateEffect(db: Db, faults: set<Call>, env: Env, sessionId: string, mid: string, rec: Record, now: string)
    requires Get(rec, "id") == JStr(mid) && Get(rec, "project_session") == JStr(sessionId)
    ensures var c := CreateIn(db, faults, env, SessionMessages, rec, "", now);
      c.Ok? ==>
        && mid !in db.messages
        && c.value.0.messages.Keys == db.messages.Keys + {mid}
        && (forall k :: k in db.messages ==> c.value.0.messages[k] == db.messages[k])
        && Get(c.value.0.messages[mid], "project_session") == JStr(sessionId)
        && c.value.0.users == db.users && c.value.0.projects == db.projects && c.value.0.sessions == db.sessions
        && Get(c.value.1, "id") == JStr(mid)
  {
    var c := CreateIn(db, faults, env, SessionMessages, rec, "", now);
    if c.Ok? {
      var h := BeforeChange(SessionMessages, CreateOperation, rec, now, env);
      CreatedAtHookEffect(CreateOperation, rec, now, env.toIso);
      var hooked := h.value;
      assert Get(hooked, "id") == JStr(mid);
      assert Get(hooked, "project_session") == JStr(sessionId);
      assert c.value == (db.With(SessionMessages, db.messages[mid := hooked - {"id"}]), AsDoc(mid, hooked - {"id"}));
    }
  }

  /**
   * Saving one message: it throws exactly when it is nullish, is skipped
   * exactly when it is any other value that fails the schema, and is
   * upserted under its own id otherwise.
   */
  lemma SaveOneEffect(db: Db, faults: set<Call>, env: Env, sessionId: string, msg: Json, now: string)
    ensures var (d, saved) := SaveOne(db, faults, env, sessionId, msg, now);
      && d.users == db.users && d.projects == db.projects && d.sessions == db.sessions
      && db.messages.Keys <= d.messages.Keys
      && (forall k :: k in db.messages && Get(db.messages[k], "project_session") != JStr(sessionId) ==> d.messages[k] == db.messages[k])
      && (forall k :: k in db.messages && Get(db.messages[k], "project_session") == JStr(sessionId) ==>
            Get(d.messages[k], "project_session") == JStr(sessionId))
      && (saved.Threw? <==> Nullish(msg))
      && (saved.Skipped? <==> !Nullish(msg) && !ValidMessage(msg, env.isUrl))
      && (!saved.Stored? ==> d == db)
      && (saved.Stored? ==>
            && saved.id == Get(msg.fields, "id") && saved.id.JStr?
            && saved.id.s in d.messages && Get(d.messages[saved.id.s], "project_session") == JStr(sessionId))
  {
    var parsed := ParseMessage(msg, env.isUrl);
    if !Nullish(msg) && parsed.Some? {
      ParsedMessageShape(msg, env.isUrl);
      var mid := Get(msg.fields, "id").s;
      var rec := MessageRecord(msg, parsed.value.fields, sessionId, env.toIso);
      UpsertEffect(db, faults, env, sessionId, mid, rec, now);
    }
  }

  /** Adding to a JavaScript `Set`: a value already there stays where it is, a new one goes last. */
  function AddOnce(xs: seq<Json>, x: Json): (r: seq<Json>)
    ensures x in r
    ensures forall y :: y in r <==> y in xs || y == x
    ensures Distinct(xs) ==> Distinct(r)
  {
    if x in xs then xs else xs + [x]
  }

  /** Adding every value of `ys` in turn. */
  function AddAll(acc: seq<Json>, ys: seq<Json>): (r: seq<Json>)
    ensures forall y :: y in r <==> y in acc || y in ys
    ensures Distinct(acc) ==> Distinct(r)
    decreases |ys|
  {
    if |ys| == 0 then acc else AddOnce(AddAll(acc, ys[..|ys| - 1]), ys[|ys| - 1])
  }

  /** The values of `ys` that are not in `acc`, in their order. */
  function Missing(ys: seq<Json>, acc: seq<Json>): (r: seq<Json>)
    ensures forall y :: y in r <==> y in ys && y !in acc
    decreases |ys|
  {
    if |ys| == 0 then []
    else Missing(ys[..|ys| - 1], acc) + (if ys[|ys| - 1] in acc then [] else [ys[|ys| - 1]])
  }

  /** Adding distinct values to a set keeps its old order and appends those it lacked, in order. */
  lemma {:induction false} AddAllAppends(acc: seq<Json>, ys: seq<Json>)
    requires Distinct(ys)
    ensures AddAll(acc, ys) == acc + Missing(ys, acc)
    decreases |ys|
  {
    if |ys| > 0 {
      var init := ys[..|ys| - 1];
      var last := ys[|ys| - 1];
      assert Distinct(init);
      AddAllAppends(acc, init);
      assert last !in init;
      assert last in acc + Missing(init, acc) <==> last in acc;
    }
  }

  /**
   * The state the loop carries: the database, the success flag, the ids
   * saved so far as a set in insertion order, and whether a throw has
   * ended the loop.
   */
  datatype SaveState = SaveState(db: Db, success: bool, processed: seq<Json>, aborted: bool)

  /** Saving one message against a database. */
  type Step = (Db, Json) -> (Db, Saved)

  /** The step `saveSessionMessages` takes for each message. */
  function SaveStep(faults: set<Call>, env: Env, sessionId: string, now: string): Step {
    (db: Db, m: Json) => SaveOne(db, faults, env, sessionId, m, now)
  }

  /** The loop over the messages, as a function of the messages saved so far. */
  function SaveLoop(start: Db, step: Step, msgs: seq<Json>): SaveState
    decreases |msgs|
  {
    if |msgs| == 0 then SaveState(start, true, [], false)
    else
      var s := SaveLoop(start, step, msgs[..|msgs| - 1]);
      var next := step(s.db, msgs[|msgs| - 1]);
      Advance(s, next.0, next.1)
  }

  /**
   * One turn of the loop: a skipped message leaves the state, a stored id
   * joins the set, a failure clears the flag, and a throw clears it and
   * ends the loop; once ended, no turn changes anything.
   */
  function Advance(s: SaveState, db: Db, saved: Saved): SaveState {
    if s.aborted then s
    else
      match saved
      case Skipped => s
      case Stored(id) => s.(db := db, processed := AddOnce(s.processed, id))
      case WriteFailed => s.(success := false)
      case Threw => s.(success := false, aborted := true)
  }

  /** The loop over one more message is one more turn. */
  lemma SaveLoopSnoc(start: Db, step: Step, msgs: seq<Json>, i: nat)
    requires i < |msgs|
    ensures var s := SaveLoop(start, step, msgs[..i]);
      var next := step(s.db, msgs[i]);
      SaveLoop(start, step, msgs[..i + 1]) == Advance(s, next.0, next.1)
  {
    assert msgs[..i + 1][..i] == msgs[..i];
  }

  /** A turn taken from the state after `i` messages, with the step's outcome, is the state after `i + 1`. */
  lemma SaveLoopTurn(start: Db, step: Step, msgs: seq<Json>, i: nat, s: SaveState, db: Db, saved: Saved)
    requires i < |msgs| && s == SaveLoop(start, step, msgs[..i]) && (db, saved) == step(s.db, msgs[i])
    ensures SaveLoop(start, step, msgs[..i + 1]) == Advance(s, db, saved)
  {
    SaveLoopSnoc(start, step, msgs, i);
  }

  /** An invalid message that is not nullish changes nothing: it is skipped without clearing the flag. */
  lemma SkipInvalid(start: Db, faults: set<Call>, env: Env, sessionId: string, msgs: seq<Json>, m: Json, now: string)
    requires !Nullish(m) && !ValidMessage(m, env.isUrl)
    ensures var step := SaveStep(faults, env, sessionId, now);
      SaveLoop(start, step, msgs + [m]) == SaveLoop(start, step, msgs)
  {
    assert (msgs + [m])[..|msgs|] == msgs;
  }

  /** Once a throw has ended the loop, the later messages change nothing. */
  lemma {:induction false} AbortedStays(start: Db, step: Step, msgs: seq<Json>, i: nat)
    requires i <= |msgs| && SaveLoop(start, step, msgs[..i]).aborted
    ensures SaveLoop(start, step, msgs) == SaveLoop(start, step, msgs[..i])
    decreases |msgs|
  {
    if i < |msgs| {
      var prev := msgs[..|msgs| - 1];
      assert prev[..i] == msgs[..i];
      AbortedStays(start, step, prev, i);
    } else {
      assert msgs[..i] == msgs;
    }
  }

  /**
   * A nullish message ends the loop: the flag is cleared and the database
   * is what the messages before it left.
   */
  lemma NullishEndsLoop(start: Db, faults: set<Call>, env: Env, sessionId: string, msgs: seq<Json>, i: nat, now: string)
    requires i < |msgs| && Nullish(msgs[i])
    ensures var step := SaveStep(faults, env, sessionId, now);
      var s := SaveLoop(start, step, msgs);
      s.aborted && !s.success && s.db == SaveLoop(start, step, msgs[..i]).db
  {
    var step := SaveStep(faults, env, sessionId, now);
    var before := SaveLoop(start, step, msgs[..i]);
    SaveLoopSnoc(start, step, msgs, i);
    assert step(before.db, msgs[i]) == (before.db, Threw);
    AbortedStays(start, step, msgs, i + 1);
    SaveLoopSuccess(start, step, msgs);
  }

  /**
   * What one step may do to the database: leave the other collections
   * and the other sessions' messages alone, remove no message, keep this
   * session's messages in it, and change nothing unless it stored a
   * message id of this session.
   */
  predicate KeepsToSession(db: Db, next: (Db, Saved), sessionId: string) {
    var (d, saved) := next;
    && d.users == db.users && d.projects == db.projects && d.sessions == db.sessions
    && db.messages.Keys <= d.messages.Keys
    && (forall k :: k in db.messages && Get(db.messages[k], "project_session") != JStr(sessionId) ==> d.messages[k] == db.messages[k])
    && (forall k :: k in db.messages && Get(db.messages[k], "project_session") == JStr(sessionId) ==>
          Get(d.messages[k], "project_session") == JStr(sessionId))
    && (!saved.Stored? ==> d == db)
    && (saved.Stored? ==> saved.id.JStr? && saved.id.s in d.messages && Get(d.messages[saved.id.s], "project_session") == JStr(sessionId))
  }

  /** Saving a message keeps to its session. */
  lemma SaveStepKeepsToSession(faults: set<Call>, env: Env, sessionId: string, now: string)
    ensures forall db, m :: KeepsToSession(db, SaveStep(faults, env, sessionId, now)(db, m), sessionId)
  {
    forall db, m
      ensures KeepsToSession(db, SaveStep(faults, env, sessionId, now)(db, m), sessionId)
    {
      SaveOneEffect(db, faults, env, sessionId, m, now);
    }
  }

  /**
   * What the loop keeps, for any step that keeps to the session: the
   * saved ids are distinct message ids stored in this session; no message
   * is removed; messages of other sessions and the other collections are
   * as they were.
   */
  lemma {:induction false} SaveLoopInvariant(start: Db, step: Step, sessionId: string, msgs: seq<Json>)
    requires forall db, m :: KeepsToSession(db, step(db, m), sessionId)
    ensures var s := SaveLoop(start, step, msgs);
      && Distinct(s.processed)
      && (forall i :: 0 <= i < |s.processed| ==>
            s.processed[i].JStr? && s.processed[i].s in s.db.messages
            && Get(s.db.messages[s.processed[i].s], "project_session") == JStr(sessionId))
      && s.db.users == start.users && s.db.projects == start.projects && s.db.sessions == start.sessions
      && start.messages.Keys <= s.db.messages.Keys
      && (forall k :: k in start.messages && Get(start.messages[k], "project_session") != JStr(sessionId) ==>
            s.db.messages[k] == start.messages[k])
    decreases |msgs|
  {
    if |msgs| > 0 {
      var prev := msgs[..|msgs| - 1];
      SaveLoopInvariant(start, step, sessionId, prev);
      var s := SaveLoop(start, step, prev);
      var next := step(s.db, msgs[|msgs| - 1]);
      assert KeepsToSession(s.db, next, sessionId);
      assert SaveLoop(start, step, msgs) == Advance(s, next.0, next.1);
    }
  }

  /** What saving each message comes to from the state the loop has reached before it, in order. */
  function Outcomes(start: Db, step: Step, msgs: seq<Json>): (r: seq<Saved>)
    ensures |r| == |msgs|
    decreases |msgs|
  {
    if |msgs| == 0 then []
    else
      var prev := msgs[..|msgs| - 1];
      Outcomes(start, step, prev) + [step(SaveLoop(start, step, prev).db, msgs[|msgs| - 1]).1]
  }

  /**
   * The loop has ended early exactly when some message threw, and the
   * flag survives exactly when no message threw and no lookup or write
   * failed; a skipped message does not clear it.
   */
  lemma {:induction false} SaveLoopSuccess(start: Db, step: Step, msgs: seq<Json>)
    ensures SaveLoop(start, step, msgs).aborted <==> Threw in Outcomes(start, step, msgs)
    ensures SaveLoop(start, step, msgs).success <==> WriteFailed !in Outcomes(start, step, msgs) && Threw !in Outcomes(start, step, msgs)
    decreases |msgs|
  {
    if |msgs| > 0 {
      var prev := msgs[..|msgs| - 1];
      SaveLoopSuccess(start, step, prev);
      var next := step(SaveLoop(start, step, prev).db, msgs[|msgs| - 1]);
      assert Outcomes(start, step, msgs) == Outcomes(start, step, prev) + [next.1];
    }
  }

  /** Keeps every entry: the session's list is not filtered. */
  predicate AnyValue(v: Json) {
    true
  }

  /**
   * The session's stored message ids, as a set in insertion order: a
   * populated entry gives its `id`; a falsy list counts as empty; reading
   * a list that is not an array, or that holds a `null`, throws (None).
   */
  function CurrentMessageIds(session: Record): (r: Option<seq<Json>>)
    ensures r.Some? ==> Distinct(r.value)
  {
    var raw := Or(Get(session, "session_messages"), JArr([]));
    if !raw.JArr? || JNull in raw.items then None
    else Some(AddAll([], RelationIds(raw.items, AnyValue)))
  }

  /**
   * The last step: when some message was saved, the session's list
   * becomes the stored ids followed by the saved ones; a list that cannot
   * be read, or a write that throws, clears the flag.
   */
  function UpdateSessionList(st: SaveState, faults: set<Call>, env: Env, sessionId: string, session: Record): SaveState {
    match CurrentMessageIds(session)
    case None => st.(success := false)
    case Some(current) =>
      if |st.processed| == 0 then st
      else
        match UpdateIn(st.db, faults, env, ProjectSessions, sessionId, map["session_messages" := JArr(AddAll(current, st.processed))])
        case Ok(res) => st.(db := res.0)
        case Fail(_) => st.(success := false)
  }

  /** `saveSessionMessages` as a function of the database: the new database and the answer. */
  function SaveSessionMessagesIn(db: Db, faults: set<Call>, env: Env, sessionId: string, msgs: seq<Json>, now: string): (Db, bool) {
    match FindByIdIn(db, faults, ProjectSessions, sessionId)
    case Fail(_) => (db, false)
    case Ok(session) =>
      var st := SaveLoop(db, SaveStep(faults, env, sessionId, now), msgs);
      if st.aborted then (st.db, false)
      else
        var fin := UpdateSessionList(st, faults, env, sessionId, session);
        (fin.db, fin.success)
  }

  /**
   * What saving promises about the rest of the database: nothing is
   * written when the session cannot be looked up; messages of other
   * sessions, users, projects and other sessions stay as they were.
   */
  lemma SaveSessionMessagesEffect(db: Db, faults: set<Call>, env: Env, sessionId: string, msgs: seq<Json>, now: string)
    ensures FindByIdIn(db, faults, ProjectSessions, sessionId).Fail? ==>
      SaveSessionMessagesIn(db, faults, env, sessionId, msgs, now) == (db, false)
    ensures var (after, ok) := SaveSessionMessagesIn(db, faults, env, sessionId, msgs, now);
      && after.users == db.users && after.projects == db.projects
      && (forall k :: k in db.sessions && k != sessionId ==> k in after.sessions && after.sessions[k] == db.sessions[k])
      && (forall k :: k in db.messages && Get(db.messages[k], "project_session") != JStr(sessionId) ==>
            k in after.messages && after.messages[k] == db.messages[k])
  {
    SaveStepKeepsToSession(faults, env, sessionId, now);
    SaveLoopInvariant(db, SaveStep(faults, env, sessionId, now), sessionId, msgs);
    var found := FindByIdIn(db, faults, ProjectSessions, sessionId);
    if found.Ok? {
      var st := SaveLoop(db, SaveStep(faults, env, sessionId, now), msgs);
      if !st.aborted {
        UpdateSessionListFrame(st, faults, env, sessionId, found.value);
      }
    }
  }

  /**
   * A `null` or `undefined` message makes the whole call answer false: the
   * messages before it stay written, none after it is tried, and the
   * session's list is never updated.
   */
  lemma NullishMessageAnswersFalse(db: Db, faults: set<Call>, env: Env, sessionId: string, msgs: seq<Json>, i: nat, now: string)
    requires i < |msgs| && Nullish(msgs[i])
    ensures var (after, ok) := SaveSessionMessagesIn(db, faults, env, sessionId, msgs, now);
      && !ok
      && after.sessions == db.sessions
      && (FindByIdIn(db, faults, ProjectSessions, sessionId).Ok? ==>
            after == SaveLoop(db, SaveStep(faults, env, sessionId, now), msgs[..i]).db)
  {
    var step := SaveStep(faults, env, sessionId, now);
    NullishEndsLoop(db, faults, env, sessionId, msgs, i, now);
    SaveStepKeepsToSession(faults, env, sessionId, now);
    SaveLoopInvariant(db, step, sessionId, msgs);
  }

  /** Saving the one message `null` into any session changes nothing and answers false. */
  lemma SaveNullOnly(db: Db, faults: set<Call>, env: Env, sessionId: string, now: string)
    ensures SaveSessionMessagesIn(db, faults, env, sessionId, [JNull], now) == (db, false)
  {
    NullishMessageAnswersFalse(db, faults, env, sessionId, [JNull], 0, now);
    assert [JNull][..0] == [];
  }

  /** The last step writes only the session's own document. */
  lemma UpdateSessionListFrame(st: SaveState, faults: set<Call>, env: Env, sessionId: string, session: Record)
    ensures var fin := UpdateSessionList(st, faults, env, sessionId, session);
      && fin.db.users == st.db.users && fin.db.projects == st.db.projects && fin.db.messages == st.db.messages
      && (forall k :: k in st.db.sessions && k != sessionId ==> k in fin.db.sessions && fin.db.sessions[k] == st.db.sessions[k])
  {
    var current := CurrentMessageIds(session);
    if current.Some? && |st.processed| > 0 {
      var list := map["session_messages" := JArr(AddAll(current.value, st.processed))];
      UpdateFrame(st.db, faults, env, ProjectSessions, sessionId, list);
      var r := UpdateIn(st.db, faults, env, ProjectSessions, sessionId, list);
      if r.Ok? {
        assert r.value.0.users == st.db.Get(Users);
        assert r.value.0.projects == st.db.Get(UserProjects);
        assert r.value.0.messages == st.db.Get(SessionMessages);
      }
    }
  }

  /**
   * What saving answers: true only when every lookup and write succeeded;
   * and when messages were saved and the answer is true, the session's
   * list is its old ids, without repeats, followed by the saved ids it
   * lacked.
   */
  lemma SaveSessionMessagesList(db: Db, faults: set<Call>, env: Env, sessionId: string, msgs: seq<Json>, now: string)
    ensures var (after, ok) := SaveSessionMessagesIn(db, faults, env, sessionId, msgs, now);
      ok ==> SaveLoop(db, SaveStep(faults, env, sessionId, now), msgs).success
    ensures var (after, ok) := SaveSessionMessagesIn(db, faults, env, sessionId, msgs, now);
      var st := SaveLoop(db, SaveStep(faults, env, sessionId, now), msgs);
      ok && |st.processed| > 0 ==>
        && sessionId in db.sessions
        && CurrentMessageIds(AsDoc(sessionId, db.sessions[sessionId])).Some?
        && var current := CurrentMessageIds(AsDoc(sessionId, db.sessions[sessionId])).value;
           Get(after.sessions[sessionId], "session_messages") == JArr(current + Missing(st.processed, current))
  {
    var found := FindByIdIn(db, faults, ProjectSessions, sessionId);
    if found.Ok? {
      var session := found.value;
      var st := SaveLoop(db, SaveStep(faults, env, sessionId, now), msgs);
      SaveLoopDistinct(db, SaveStep(faults, env, sessionId, now), msgs);
      UpdateSessionListEffect(st, faults, env, sessionId, session);
      var current := CurrentMessageIds(session);
      if current.Some? {
        AddAllAppends(current.value, st.processed);
      }
    }
  }

  /** The saved ids never repeat, whatever the step does. */
  lemma {:induction false} SaveLoopDistinct(start: Db, step: Step, msgs: seq<Json>)
    ensures Distinct(SaveLoop(start, step, msgs).processed)
    decreases |msgs|
  {
    if |msgs| > 0 {
      SaveLoopDistinct(start, step, msgs[..|msgs| - 1]);
    }
  }

  /**
   * The last step never sets the flag; when it keeps the flag after
   * saved ids, the stored list could be read and the session's list is
   * now the merged ids.
   */
  lemma UpdateSessionListEffect(st: SaveState, faults: set<Call>, env: Env, sessionId: string, session: Record)
    ensures var fin := UpdateSessionList(st, faults, env, sessionId, session);
      && (fin.success ==> st.success)
      && (fin.success && |st.processed| > 0 ==>
            && CurrentMessageIds(session).Some?
            && sessionId in fin.db.sessions
            && Get(fin.db.sessions[sessionId], "session_messages") == JArr(AddAll(CurrentMessageIds(session).value, st.processed)))
  {
    var current := CurrentMessageIds(session);
    if current.Some? && |st.processed| > 0 {
      var list := map["session_messages" := JArr(AddAll(current.value, st.processed))];
      UpdateEffect(st.db, faults, env, ProjectSessions, sessionId, list);
    }
  }

  /**
   * The body of the loop for one message: validate, build the record,
   * look it up in the session, then update or create it.
   */
  method SaveMessage(cms: Cms, sessionId: string, msg: Json, now: string) returns (saved: Saved)
    modifies cms`db
    ensures (cms.db, saved) == SaveOne(old(cms.db), cms.faults, cms.env, sessionId, msg, now)
    ensures !saved.Stored? ==> cms.db == old(cms.db)
  {
    if Nullish(msg) {
      return Threw;
    }
    var parsed := ParseMessage(msg, cms.env.isUrl);
    if parsed.None? {
      return Skipped;
    }
    var mid := Get(msg.fields, "id").s;
    var rec := MessageRecord(msg, parsed.value.fields, sessionId, cms.env.toIso);
    var existing := cms.Find(SessionMessages, MessageInSession(mid, sessionId), None);
    if existing.Fail? {
      return WriteFailed;
    }
    MessageInSessionListing(cms.db.messages, mid, sessionId, EffectiveOrder(SessionMessages, None), existing.value);
    if |existing.value| > 0 {
      var updated := cms.Update(SessionMessages, existing.value[0], rec);
      saved := if updated.Ok? then Stored(JStr(existing.value[0])) else WriteFailed;
    } else {
      ParsedMessageShape(msg, cms.env.isUrl);
      UpsertCreateEffect(cms.db, cms.faults, cms.env, sessionId, mid, rec, now);
      var created := cms.Create(SessionMessages, rec, "", now);
      saved := if created.Ok? then Stored(Get(created.value, "id")) else WriteFailed;
    }
  }

  /**
   * `saveSessionMessages`: checks the session, saves each message in turn
   * (an invalid one skipped, a failed one noted and passed over, a nullish
   * one ending the call with false), then merges the saved ids into the
   * session's list.
   */
  method SaveSessionMessages(cms: Cms, sessionId: string, messages: seq<Json>, now: string) returns (success: bool)
    modifies cms`db
    ensures (cms.db, success) == SaveSessionMessagesIn(old(cms.db), cms.faults, cms.env, sessionId, messages, now)
  {
    var found := cms.FindById(ProjectSessions, sessionId);
    if found.Fail? {
      return false;
    }
    var session := found.value;
    var processed, aborted;
    success, processed, aborted := SaveEach(cms, sessionId, messages, now);
    if aborted {
      return false;
    }
    var current := CurrentMessageIds(session);
    if current.None? {
      return false;
    }
    if |processed| > 0 {
      var ids := MergeIds(current.value, processed);
      var updated := cms.Update(ProjectSessions, sessionId, map["session_messages" := JArr(ids)]);
      if updated.Fail? {
        success := false;
      }
    }
  }

  /**
   * The loop of `saveSessionMessages`: every message saved in turn, the
   * flag and the saved ids collected, until a message throws.
   */
  method SaveEach(cms: Cms, sessionId: string, messages: seq<Json>, now: string) returns (success: bool, processed: seq<Json>, aborted: bool)
    modifies cms`db
    ensures SaveState(cms.db, success, processed, aborted) == SaveLoop(old(cms.db), SaveStep(cms.faults, cms.env, sessionId, now), messages)
  {
    ghost var db0 := cms.db;
    success := true;
    processed := [];
    aborted := false;
    var i := 0;
    while i < |messages| && !aborted
      invariant 0 <= i <= |messages|
      invariant SaveState(cms.db, success, processed, aborted) == SaveLoop(db0, SaveStep(cms.faults, cms.env, sessionId, now), messages[..i])
    {
      ghost var before := SaveState(cms.db, success, processed, aborted);
      var saved := SaveMessage(cms, sessionId, messages[i], now);
      SaveLoopTurn(db0, SaveStep(cms.faults, cms.env, sessionId, now), messages, i, before, cms.db, saved);
      match saved {
        case Skipped =>
        case Stored(id) => processed := AddOnce(processed, id);
        case WriteFailed => success := false;
        case Threw => success, aborted := false, true;
      }
      assert SaveState(cms.db, success, processed, aborted) == Advance(before, cms.db, saved);
      i := i + 1;
    }
    if aborted {
      AbortedStays(db0, SaveStep(cms.faults, cms.env, sessionId, now), messages, i);
    } else {
      assert messages[..|messages|] == messages;
    }
  }

  /** The new list: the stored ids with each saved id added to the set in turn. */
  method MergeIds(current: seq<Json>, processed: seq<Json>) returns (ids: seq<Json>)
    ensures ids == AddAll(current, processed)
  {
    ids := current;
    var j := 0;
    while j < |processed|
      invariant 0 <= j <= |processed|
      invariant ids == AddAll(current, processed[..j])
    {
      assert processed[..j + 1][..j] == processed[..j];
      ids := AddOnce(ids, processed[j]);
      j := j + 1;
    }
    assert processed[..|processed|] == processed;
  }

  // ---------------------------------------------------------------------------
  // deleteSession
  // ---------------------------------------------------------------------------

  /**
   * `deleteSession`: true exactly when the cascade and the delete both
   * went through. A failed lookup of the messages writes nothing; past
   * it the messages are gone, and the session too when its delete works.
   */
  method DeleteSession(cms: Cms, id: string) returns (ok: bool)
    modifies cms`db
    ensures ok <==>
      FindCall(SessionMessages, MessagesOf(id)) !in cms.faults
      && DeleteIn(AfterCascade(old(cms.db), cms.faults, id), cms.faults, ProjectSessions, id).Ok?
    ensures FindCall(SessionMessages, MessagesOf(id)) in cms.faults ==> cms.db == old(cms.db)
    ensures FindCall(SessionMessages, MessagesOf(id)) !in cms.faults ==>
      var mid := AfterCascade(old(cms.db), cms.faults, id);
      match DeleteIn(mid, cms.faults, ProjectSessions, id)
      case Ok(res) => cms.db == res.0
      case Fail(_) => cms.db == mid
  {
    var r := ProjectSessionsCollection.Delete(cms, id);
    ok := r.Ok?;
  }
}
