/**
 * The server actions on single messages (src/database/actions/session-messages-actions.ts).
 * Every store error is caught: the reading and writing actions answer
 * None (`null`), `deleteMessage` answers false.
 *
 * The id `crypto.randomUUID()` generates is the parameter `uuid`.
 */
module SessionMessagesActions {
  import opened Wrappers
  import opened Strings
  import opened Json
  import opened UiMessageSchema
  import opened SessionMessagesCollection
  import opened Store

  // ---------------------------------------------------------------------------
  // createMessage
  // ---------------------------------------------------------------------------

  /** What `createMessage` validates: the input's role, parts and metadata under the fresh id. */
  function Candidate(data: Record, uuid: string): Json {
    JObj(map["id" := JStr(uuid), "role" := Get(data, "role"), "parts" := Get(data, "parts"), "metadata" := Get(data, "metadata")])
  }

  /**
   * The record created from a validated message: its `id`, `role` and
   * `parts`, the caller's `project_session`, and `metadata` only when it
   * is defined.
   */
  function NewMessageRecord(valid: Record, projectSession: Json): (rec: Record)
    ensures rec.Keys == {"id", "role", "parts", "project_session"} + (if Get(valid, "metadata") != JUndef then {"metadata"} else {})
    ensures rec["id"] == Get(valid, "id") && rec["role"] == Get(valid, "role") && rec["parts"] == Get(valid, "parts")
    ensures rec["project_session"] == projectSession
    ensures "metadata" in rec ==> rec["metadata"] == Get(valid, "metadata")
    ensures "createdAt" !in rec
  {
    var base := map["id" := Get(valid, "id"), "role" := Get(valid, "role"), "parts" := Get(valid, "parts"), "project_session" := projectSession];
    if Get(valid, "metadata") != JUndef then base["metadata" := Get(valid, "metadata")] else base
  }

  /** `createMessage` as a function of the database. */
  function CreateMessageIn(db: Db, faults: set<Call>, env: Env, data: Record, uuid: string, now: string): (Db, Option<Record>) {
    var parsed := ParseMessage(Candidate(data, uuid), env.isUrl);
    if parsed.None? then (db, None)
    else
      var rec := NewMessageRecord(parsed.value.fields, Get(data, "project_session"));
      match CreateIn(db, faults, env, SessionMessages, rec, "", now)
      case Ok(res) => (res.0, Some(res.1))
      case Fail(_) => (db, None)
  }

  /** What the schema hands back for a valid candidate: the fresh id, the input's role and metadata, the parsed parts. */
  lemma CandidateParse(data: Record, uuid: string, isUrl: UrlCheck)
    requires ValidMessage(Candidate(data, uuid), isUrl)
    ensures var valid := ParseMessage(Candidate(data, uuid), isUrl).value.fields;
      && Get(valid, "id") == JStr(uuid) && Get(valid, "role") == Get(data, "role")
      && Get(valid, "metadata") == Get(data, "metadata")
      && Get(data, "parts").JArr?
      && Get(valid, "parts") == JArr(ParseParts(Get(data, "parts").items, isUrl).value)
  {
    var m := Candidate(data, uuid).fields;
    assert Get(m, "parts") == Get(data, "parts");
  }

  /** Input that fails the schema answers None and creates nothing. */
  lemma CreateMessageRejects(db: Db, faults: set<Call>, env: Env, data: Record, uuid: string, now: string)
    requires !ValidMessage(Candidate(data, uuid), env.isUrl)
    ensures CreateMessageIn(db, faults, env, data, uuid, now) == (db, None)
  {
  }

  /** A created message is new and stored under the fresh id; nothing else changes. */
  lemma CreateMessageEffect(db: Db, faults: set<Call>, env: Env, data: Record, uuid: string, now: string)
    requires CreateMessageIn(db, faults, env, data, uuid, now).1.Some?
    ensures ValidMessage(Candidate(data, uuid), env.isUrl)
    ensures var res := CreateMessageIn(db, faults, env, data, uuid, now);
      && uuid !in db.messages && uuid in res.0.messages
      && res.0 == db.(messages := db.messages[uuid := res.0.messages[uuid]])
      && res.1.value == AsDoc(uuid, res.0.messages[uuid])
  {
    var parsed := ParseMessage(Candidate(data, uuid), env.isUrl);
    CandidateParse(data, uuid, env.isUrl);
    var rec := NewMessageRecord(parsed.value.fields, Get(data, "project_session"));
    assert Get(rec, "id") == JStr(uuid);
    CreatedMessage(db, faults, env, rec, "", now);
  }

  /**
   * The created message holds the input's role, its parsed parts, the
   * caller's session, the creation time, and `metadata` exactly when the
   * input defined it.
   */
  lemma CreateMessageFields(db: Db, faults: set<Call>, env: Env, data: Record, uuid: string, now: string)
    requires CreateMessageIn(db, faults, env, data, uuid, now).1.Some?
    ensures ValidMessage(Candidate(data, uuid), env.isUrl) && Get(data, "parts").JArr?
    ensures var doc := CreateMessageIn(db, faults, env, data, uuid, now).1.value;
      && Get(doc, "id") == JStr(uuid)
      && Get(doc, "role") == Get(data, "role")
      && Get(doc, "parts") == JArr(ParseParts(Get(data, "parts").items, env.isUrl).value)
      && Get(doc, "project_session") == Get(data, "project_session")
      && Get(doc, "createdAt") == JStr(now)
      && (Get(doc, "metadata") != JUndef <==> Get(data, "metadata") != JUndef)
  {
    var rec := NewMessageRecord(ParseMessage(Candidate(data, uuid), env.isUrl).value.fields, Get(data, "project_session"));
    RecordFields(data, uuid, env.isUrl);
    CreatedMessageDoc(db, faults, env, rec, now);
    var c := CreateIn(db, faults, env, SessionMessages, rec, "", now);
    assert CreateMessageIn(db, faults, env, data, uuid, now).1 == Some(c.value.1);
  }

  /** The record `createMessage` stores for valid input, field by field. */
  lemma RecordFields(data: Record, uuid: string, isUrl: UrlCheck)
    requires ValidMessage(Candidate(data, uuid), isUrl)
    ensures Get(data, "parts").JArr?
    ensures var rec := NewMessageRecord(ParseMessage(Candidate(data, uuid), isUrl).value.fields, Get(data, "project_session"));
      && Get(rec, "id") == JStr(uuid)
      && Get(rec, "role") == Get(data, "role")
      && Get(rec, "parts") == JArr(ParseParts(Get(data, "parts").items, isUrl).value)
      && Get(rec, "project_session") == Get(data, "project_session")
      && Get(rec, "createdAt") == JUndef
      && (Get(rec, "metadata") != JUndef <==> Get(data, "metadata") != JUndef)
  {
    CandidateParse(data, uuid, isUrl);
  }

  /** `createMessage`: validate, then create. */
  method CreateMessage(cms: Cms, data: Record, uuid: string, now: string) returns (r: Option<Record>)
    modifies cms`db
    ensures (cms.db, r) == CreateMessageIn(old(cms.db), cms.faults, cms.env, data, uuid, now)
  {
    var parsed := ParseMessage(Candidate(data, uuid), cms.env.isUrl);
    if parsed.None? {
      return None;
    }
    var rec := NewMessageRecord(parsed.value.fields, Get(data, "project_session"));
    var created := cms.Create(SessionMessages, rec, "", now);
    r := if created.Ok? then Some(created.value) else None;
  }

  // ---------------------------------------------------------------------------
  // getMessageById, updateMessage, deleteMessage, findMessages
  // ---------------------------------------------------------------------------

  /** `getMessageById`: the document, or None when the lookup throws. */
  method GetMessageById(cms: Cms, id: string) returns (r: Option<Record>)
    ensures r.Some? <==> FindByIdCall(SessionMessages, id) !in cms.faults && id in cms.db.messages
    ensures r.Some? ==> r.value == AsDoc(id, cms.db.messages[id])
  {
    var found := cms.FindById(SessionMessages, id);
    r := if found.Ok? then Some(found.value) else None;
  }

  /** The fields `updateMessage` forwards. */
  const Forwarded: set<string> := {"role", "parts", "metadata"}

  /** The update data: `role`, `parts` and `metadata`, each only when the input defines it. */
  function UpdateData(data: Record): (u: Record)
    ensures forall f :: f in u <==> f in Forwarded && Get(data, f) != JUndef
    ensures forall f :: f in u ==> u[f] == Get(data, f)
  {
    var withRole: Record := if Get(data, "role") != JUndef then map["role" := Get(data, "role")] else map[];
    var withParts := if Get(data, "parts") != JUndef then withRole["parts" := Get(data, "parts")] else withRole;
    if Get(data, "metadata") != JUndef then withParts["metadata" := Get(data, "metadata")] else withParts
  }

  /** `updateMessage` as a function of the database: the lookup, then the update of the forwarded fields. */
  function UpdateMessageIn(db: Db, faults: set<Call>, env: Env, id: string, data: Record): (Db, Option<Record>) {
    if FindByIdIn(db, faults, SessionMessages, id).Fail? then (db, None)
    else
      match UpdateIn(db, faults, env, SessionMessages, id, UpdateData(data))
      case Ok(res) => (res.0, Some(res.1))
      case Fail(_) => (db, None)
  }

  /**
   * An unknown id answers None and writes nothing. A successful update
   * changes only message `id` and answers it.
   */
  lemma UpdateMessageEffect(db: Db, faults: set<Call>, env: Env, id: string, data: Record)
    ensures id !in db.messages ==> UpdateMessageIn(db, faults, env, id, data) == (db, None)
    ensures var res := UpdateMessageIn(db, faults, env, id, data);
      res.1.Some? ==>
        && id in db.messages && id in res.0.messages
        && res.0 == db.(messages := db.messages[id := res.0.messages[id]])
        && res.1.value == AsDoc(id, res.0.messages[id])
  {
    if FindByIdIn(db, faults, SessionMessages, id).Ok? {
      UpdateEffect(db, faults, env, SessionMessages, id, UpdateData(data));
    }
  }

  /**
   * In the message a successful update rewrites, only the fields the
   * input defines among `role`, `parts` and `metadata` change, to the
   * input's values; `createdAt` and every other field keep theirs.
   */
  lemma UpdateMessageFields(db: Db, faults: set<Call>, env: Env, id: string, data: Record)
    ensures var res := UpdateMessageIn(db, faults, env, id, data);
      res.1.Some? ==>
        && id in db.messages && id in res.0.messages
        && (forall f :: f in Forwarded && Get(data, f) != JUndef ==> Get(res.0.messages[id], f) == Get(data, f))
        && (forall f :: !(f in Forwarded && Get(data, f) != JUndef) ==> Get(res.0.messages[id], f) == Get(db.messages[id], f))
  {
    var u := UpdateData(data);
    assert "id" !in u && "createdAt" !in u;
    UpdatePlainEffect(db, faults, env, SessionMessages, id, u);
  }

  /** `updateMessage`. */
  method UpdateMessage(cms: Cms, id: string, data: Record) returns (r: Option<Record>)
    modifies cms`db
    ensures (cms.db, r) == UpdateMessageIn(old(cms.db), cms.faults, cms.env, id, data)
  {
    var existing := cms.FindById(SessionMessages, id);
    if existing.Fail? {
      return None;
    }
    var updated := cms.Update(SessionMessages, id, UpdateData(data));
    r := if updated.Ok? then Some(updated.value) else None;
  }

  /** `deleteMessage`: true when the message was deleted, false (and nothing deleted) when the call threw. */
  method DeleteMessage(cms: Cms, id: string) returns (ok: bool)
    modifies cms`db
    ensures ok <==> DeleteCall(SessionMessages, id) !in cms.faults && id in old(cms.db.messages)
    ensures ok ==> cms.db == old(cms.db).(messages := old(cms.db.messages) - {id})
    ensures !ok ==> cms.db == old(cms.db)
  {
    var r := cms.Delete(SessionMessages, id);
    ok := r.Ok?;
  }

  /** The sort `findMessages` uses: the one given, else `createdAt`. */
  function FindMessagesSort(sort: Option<string>): (s: string)
    ensures sort.None? ==> s == "createdAt"
    ensures sort.Some? ==> s == sort.value
  {
    sort.GetOr("createdAt")
  }

  /** Without a sort the listing runs by creation time, oldest first. */
  lemma FindMessagesDefaultOrder()
    ensures EffectiveOrder(SessionMessages, Some(FindMessagesSort(None))) == Some(SortSpec("createdAt", false))
  {
    assert !StartsWith("createdAt", "-") by {
      assert "createdAt"[0] == 'c';
    }
  }

  /** `findMessages`: the matching ids in the requested order, None when the call throws. */
  method FindMessages(cms: Cms, where: Where, sort: Option<string>) returns (r: Option<seq<string>>)
    ensures r.None? <==> FindCall(SessionMessages, where) in cms.faults
    ensures r.Some? ==> IsListing(cms.db.messages, where, EffectiveOrder(SessionMessages, Some(FindMessagesSort(sort))), r.value)
  {
    var found := cms.Find(SessionMessages, where, Some(FindMessagesSort(sort)));
    r := if found.Ok? then Some(found.value) else None;
  }
}
