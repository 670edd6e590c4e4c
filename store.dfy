/**
 * The Payload CMS as the server actions see it: four collections, each a
 * map from document id to the document's stored fields, and the five
 * calls the actions make (`findByID`, `find`, `create`, `update`,
 * `delete`).
 *
 * `findByID`, `update` and `delete` throw NotFound for an id that is not
 * there. `create` and `update` run the collection's `beforeChange` hook and
 * field validation; a `session_messages` document is keyed by its own `id`
 * field, which is unique, while other collections get an id the database
 * generates (a parameter here). `find` returns the ids of every document
 * matching a conjunction of `equals` conditions, ordered by the requested
 * sort, or by `createdAt` in `session_messages`, whose default sort that is.
 *
 * Infrastructure failures (a lost connection, a constraint this model
 * does not track) are the set `faults`: a call in it throws instead of
 * doing anything.
 */
module Store {
  import opened Wrappers
  import opened Strings
  import opened Json
  import opened UiMessageSchema
  import opened SessionMessagesCollection

  // ---------------------------------------------------------------------------
  // State
  // ---------------------------------------------------------------------------

  /** The collections the actions use: `users`, `user_projects`, `project_sessions`, `session_messages`. */
  datatype Coll = Users | UserProjects | ProjectSessions | SessionMessages

  /** A collection: document id to the document's fields other than `id`. */
  type Table = map<string, Record>

  datatype Db = Db(users: Table, projects: Table, sessions: Table, messages: Table) {
    function Get(c: Coll): Table {
      match c
      case Users => users
      case UserProjects => projects
      case ProjectSessions => sessions
      case SessionMessages => messages
    }

    /** The database with collection `c` replaced by `t` and the others as they were. */
    function With(c: Coll, t: Table): (d: Db)
      ensures d.Get(c) == t
      ensures forall o :: o != c ==> d.Get(o) == Get(o)
    {
      match c
      case Users => this.(users := t)
      case UserProjects => this.(projects := t)
      case ProjectSessions => this.(sessions := t)
      case SessionMessages => this.(messages := t)
    }
  }

  /** A document as the API hands it out: its stored fields plus `id`. */
  function AsDoc(id: string, body: Record): (doc: Record)
    ensures doc.Keys == body.Keys + {"id"}
    ensures Get(doc, "id") == JStr(id)
    ensures forall k :: k != "id" ==> Get(doc, k) == Get(body, k)
  {
    body["id" := JStr(id)]
  }

  // ---------------------------------------------------------------------------
  // Queries
  // ---------------------------------------------------------------------------

  /** A `where` clause: every listed field `equals` its value. */
  type Where = seq<(string, Json)>

  predicate Matches(id: string, body: Record, where: Where) {
    forall i :: 0 <= i < |where| ==> Get(AsDoc(id, body), where[i].0) == where[i].1
  }

  /** A sort: the field, and whether it is descending (written with a leading `-`). */
  datatype SortSpec = SortSpec(field: string, descending: bool)

  function ParseSort(s: string): (o: SortSpec)
    ensures StartsWith(s, "-") ==> o == SortSpec(s[1..], true)
    ensures !StartsWith(s, "-") ==> o == SortSpec(s, false)
  {
    if |s| > 0 && s[0] == '-' then SortSpec(s[1..], true) else SortSpec(s, false)
  }

  /** The order a `find` promises: the one asked for, else the collection's default sort. */
  function EffectiveOrder(c: Coll, sort: Option<string>): Option<SortSpec> {
    if sort.Some? then Some(ParseSort(sort.value))
    else if c == SessionMessages then Some(SortSpec("createdAt", false))
    else None
  }

  /**
   * The order of sort values: strings by code point (ISO timestamps thus
   * chronologically), and every other value after all strings, all such
   * values tied, as the database puts empty columns last.
   */
  predicate ValueLe(a: Json, b: Json) {
    if a.JStr? then (b.JStr? ==> StrLe(a.s, b.s)) else !b.JStr?
  }

  lemma ValueLeTotal(a: Json, b: Json)
    ensures ValueLe(a, b) || ValueLe(b, a)
  {
    if a.JStr? && b.JStr? {
      StrLeTotal(a.s, b.s);
    }
  }

  lemma ValueLeTrans(a: Json, b: Json, c: Json)
    requires ValueLe(a, b) && ValueLe(b, c)
    ensures ValueLe(a, c)
  {
    if a.JStr? && b.JStr? && c.JStr? {
      StrLeTrans(a.s, b.s, c.s);
    }
  }

  predicate InOrder(o: SortSpec, a: Json, b: Json) {
    if o.descending then ValueLe(b, a) else ValueLe(a, b)
  }

  function SortValue(t: Table, o: SortSpec, id: string): Json
    requires id in t
  {
    Get(AsDoc(id, t[id]), o.field)
  }

  predicate AllIn(t: Table, ids: seq<string>) {
    forall i :: 0 <= i < |ids| ==> ids[i] in t
  }

  predicate Distinct<T(==)>(xs: seq<T>) {
    forall i, j :: 0 <= i < j < |xs| ==> xs[i] != xs[j]
  }

  predicate SortedBy(t: Table, o: SortSpec, ids: seq<string>)
    requires AllIn(t, ids)
  {
    forall i, j :: 0 <= i < j < |ids| ==> InOrder(o, SortValue(t, o, ids[i]), SortValue(t, o, ids[j]))
  }

  /**
   * `ids` is a correct answer to a `find`: exactly the matching documents,
   * each once, in the promised order (documents with equal sort values may
   * come in any order).
   */
  predicate IsListing(t: Table, where: Where, order: Option<SortSpec>, ids: seq<string>) {
    && AllIn(t, ids)
    && (forall i :: 0 <= i < |ids| ==> Matches(ids[i], t[ids[i]], where))
    && (forall k :: k in t && Matches(k, t[k], where) ==> k in ids)
    && Distinct(ids)
    && (order.Some? ==> SortedBy(t, order.value, ids))
  }

  /** A filter on `id` answers only that id. */
  lemma ListingById(t: Table, id: string, rest: Where, order: Option<SortSpec>, ids: seq<string>)
    requires IsListing(t, [("id", JStr(id))] + rest, order, ids)
    ensures forall i :: 0 <= i < |ids| ==> ids[i] == id
  {
    var w := [("id", JStr(id))] + rest;
    forall i | 0 <= i < |ids| ensures ids[i] == id {
      assert Matches(ids[i], t[ids[i]], w);
      assert w[0] == ("id", JStr(id));
      assert Get(AsDoc(ids[i], t[ids[i]]), "id") == JStr(id);
    }
  }

  // ---------------------------------------------------------------------------
  // Relationship lists
  // ---------------------------------------------------------------------------

  /**
   * A relationship entry reduced to an id, as `typeof v === 'object' && v
   * !== null ? v.id : v` does: a populated document gives its `id`, an
   * array has none, anything else (an id, `null`) is kept as it is.
   */
  function RelationId(v: Json): Json {
    if v.JObj? then Get(v.fields, "id") else if v.JArr? then JUndef else v
  }

  /** `xs.map(RelationId).filter(keep)`. */
  function RelationIds(xs: seq<Json>, keep: Json -> bool): (r: seq<Json>)
    ensures |r| <= |xs|
    ensures forall i :: 0 <= i < |r| ==> keep(r[i])
  {
    if |xs| == 0 then []
    else (if keep(RelationId(xs[0])) then [RelationId(xs[0])] else []) + RelationIds(xs[1..], keep)
  }

  /** Normalising a list is normalising its halves. */
  lemma {:induction false} RelationIdsAppend(a: seq<Json>, b: seq<Json>, keep: Json -> bool)
    ensures RelationIds(a + b, keep) == RelationIds(a, keep) + RelationIds(b, keep)
    decreases |a|
  {
    if |a| == 0 {
      assert a + b == b;
    } else {
      assert (a + b)[0] == a[0];
      assert (a + b)[1..] == a[1..] + b;
      RelationIdsAppend(a[1..], b, keep);
    }
  }

  /** A value is in the normalised list exactly when some entry reduces to it and it is kept. */
  lemma {:induction false} RelationIdsMembers(xs: seq<Json>, keep: Json -> bool, v: Json)
    ensures v in RelationIds(xs, keep) <==> keep(v) && exists i :: 0 <= i < |xs| && RelationId(xs[i]) == v
  {
    if |xs| > 0 {
      RelationIdsMembers(xs[1..], keep, v);
      if exists i :: 0 <= i < |xs| && RelationId(xs[i]) == v {
        var i :| 0 <= i < |xs| && RelationId(xs[i]) == v;
        if i > 0 {
          assert RelationId(xs[1..][i - 1]) == v;
        }
      }
      if exists i :: 0 <= i < |xs[1..]| && RelationId(xs[1..][i]) == v {
        var i :| 0 <= i < |xs[1..]| && RelationId(xs[1..][i]) == v;
        assert RelationId(xs[i + 1]) == v;
      }
    }
  }

  /** A list of plain, kept ids is already normal. */
  lemma {:induction false} RelationIdsOfIds(xs: seq<Json>, keep: Json -> bool)
    requires forall i :: 0 <= i < |xs| ==> !xs[i].JObj? && !xs[i].JArr? && keep(xs[i])
    ensures RelationIds(xs, keep) == xs
  {
    if |xs| > 0 {
      RelationIdsOfIds(xs[1..], keep);
    }
  }

  // ---------------------------------------------------------------------------
  // Calls and their outcomes
  // ---------------------------------------------------------------------------

  /** One call into the CMS, with its arguments. */
  datatype Call =
    | FindByIdCall(c: Coll, id: string)
    | FindCall(c: Coll, where: Where)
    | CreateCall(c: Coll, data: Record)
    | UpdateCall(c: Coll, id: string, data: Record)
    | DeleteCall(c: Coll, id: string)

  /** Why a call threw. */
  datatype StoreError =
    | NotFound
    | Unavailable
    | Duplicate
    | ValidationFailed(errors: seq<FieldError>)
    | HookThrew
    | HookAborted(message: string)

  datatype Outcome<T> = Ok(value: T) | Fail(error: StoreError)

  /**
   * What `payload.auth` answers for the request's cookies: it throws, finds
   * no user, or names the signed-in user by id with the user's other fields.
   */
  datatype Auth = AuthThrew(thrown: Thrown) | Anonymous | SignedIn(id: string, user: Record)

  /** What the CMS consults but the model does not define: URL parsing and date normalisation. */
  datatype Env = Env(isUrl: UrlCheck, toIso: IsoNormaliser)

  /** `findByID`. */
  function FindByIdIn(db: Db, faults: set<Call>, c: Coll, id: string): (r: Outcome<Record>)
    ensures r.Ok? <==> FindByIdCall(c, id) !in faults && id in db.Get(c)
    ensures r.Ok? ==> r.value == AsDoc(id, db.Get(c)[id])
    ensures r.Fail? ==> r.error == (if FindByIdCall(c, id) in faults then Unavailable else NotFound)
  {
    if FindByIdCall(c, id) in faults then Fail(Unavailable)
    else if id !in db.Get(c) then Fail(NotFound)
    else Ok(AsDoc(id, db.Get(c)[id]))
  }

  /** The collection's `beforeChange` hooks: only `session_messages` has one. */
  function BeforeChange(c: Coll, op: Operation, data: Record, now: string, env: Env): Outcome<Record> {
    if c != SessionMessages then Ok(data)
    else
      match CreatedAtHook(op, data, now, env.toIso)
      case None => Fail(HookThrew)
      case Some(d) => Ok(d)
  }

  /** Field validation: the `session_messages` field rules; the other collections' configs are not modelled. */
  function ChangeErrors(c: Coll, doc: Record, env: Env): seq<FieldError> {
    if c == SessionMessages then DocErrors(doc, env.isUrl) else []
  }

  /** `create`: hook, validation, then the insert, which fails on an id already taken. */
  function CreateIn(db: Db, faults: set<Call>, env: Env, c: Coll, data: Record, newId: string, now: string): Outcome<(Db, Record)> {
    if CreateCall(c, data) in faults then Fail(Unavailable)
    else
      match BeforeChange(c, CreateOperation, data, now, env)
      case Fail(e) => Fail(e)
      case Ok(d) =>
        var errs := ChangeErrors(c, d, env);
        if errs != [] then Fail(ValidationFailed(errs))
        else
          var key := if c == SessionMessages then Get(d, "id").s else newId;
          var body := d - {"id"};
          if key in db.Get(c) then Fail(Duplicate)
          else Ok((db.With(c, db.Get(c)[key := body]), AsDoc(key, body)))
  }

  /** `update`: lookup, hook on the incoming data, validation of the merged document, then the write. */
  function UpdateIn(db: Db, faults: set<Call>, env: Env, c: Coll, id: string, data: Record): Outcome<(Db, Record)> {
    if UpdateCall(c, id, data) in faults then Fail(Unavailable)
    else if id !in db.Get(c) then Fail(NotFound)
    else
      match BeforeChange(c, UpdateOperation, data, "", env)
      case Fail(e) => Fail(e)
      case Ok(d) =>
        var merged := db.Get(c)[id] + (d - {"id"});
        var errs := ChangeErrors(c, AsDoc(id, merged), env);
        if errs != [] then Fail(ValidationFailed(errs))
        else Ok((db.With(c, db.Get(c)[id := merged]), AsDoc(id, merged)))
  }

  /** `delete` once the collection's `beforeDelete` hooks have run: removes the document. */
  function DeleteIn(db: Db, faults: set<Call>, c: Coll, id: string): Outcome<(Db, Record)> {
    if DeleteCall(c, id) in faults then Fail(Unavailable)
    else if id !in db.Get(c) then Fail(NotFound)
    else Ok((db.With(c, db.Get(c) - {id}), AsDoc(id, db.Get(c)[id])))
  }

  // ---------------------------------------------------------------------------
  // What the calls promise
  // ---------------------------------------------------------------------------

  /**
   * A successful create adds one document under a key that was free and
   * changes no other document or collection; a message is keyed by its
   * own `id`, and the document returned is the stored one.
   */
  lemma CreateEffect(db: Db, faults: set<Call>, env: Env, c: Coll, data: Record, newId: string, now: string)
    ensures var r := CreateIn(db, faults, env, c, data, newId, now);
      r.Ok? ==>
        var key := r.value.1["id"].s;
        && key !in db.Get(c)
        && r.value.0.Get(c) == db.Get(c)[key := r.value.1 - {"id"}]
        && AsDoc(key, r.value.0.Get(c)[key]) == r.value.1
        && (c != SessionMessages ==> key == newId && r.value.1 == AsDoc(newId, data - {"id"}))
        && (c == SessionMessages ==> JStr(key) == Get(data, "id"))
        && (forall o :: o != c ==> r.value.0.Get(o) == db.Get(o))
    ensures var r := CreateIn(db, faults, env, c, data, newId, now);
      r.Fail? ==> CreateCall(c, data) in faults || r.error != Unavailable
  {
    var r := CreateIn(db, faults, env, c, data, newId, now);
    if r.Ok? {
      var d := BeforeChange(c, CreateOperation, data, now, env).value;
      var key := if c == SessionMessages then Get(d, "id").s else newId;
      AsDocStrip(key, d - {"id"});
      if c == SessionMessages {
        CreatedAtHookEffect(CreateOperation, data, now, env.toIso);
        assert Get(d, "id") == Get(data, "id");
      }
    }
  }

  /** Taking `id` off a document gives back the stored fields. */
  lemma AsDocStrip(id: string, body: Record)
    requires "id" !in body
    ensures AsDoc(id, body) - {"id"} == body
  {
  }

  /** A message whose id is already stored cannot be created again. */
  lemma MessageIdsUnique(db: Db, faults: set<Call>, env: Env, data: Record, newId: string, now: string)
    requires Get(data, "id").JStr? && Get(data, "id").s in db.messages
    ensures CreateIn(db, faults, env, SessionMessages, data, newId, now).Fail?
  {
    var r := BeforeChange(SessionMessages, CreateOperation, data, now, env);
    if r.Ok? {
      CreatedAtHookEffect(CreateOperation, data, now, env.toIso);
      assert Get(r.value, "id") == Get(data, "id");
    }
  }

  /**
   * A successful update rewrites only document `id`: fields the hooked
   * data supplies take its values, the others keep theirs, and no other
   * document or collection changes. In `session_messages` the supplied
   * fields other than `createdAt` are taken exactly as given.
   */
  lemma UpdateEffect(db: Db, faults: set<Call>, env: Env, c: Coll, id: string, data: Record)
    ensures var r := UpdateIn(db, faults, env, c, id, data);
      r.Ok? ==>
        && id in db.Get(c)
        && r.value.0.Get(c).Keys == db.Get(c).Keys
        && (forall k :: k in db.Get(c) && k != id ==> r.value.0.Get(c)[k] == db.Get(c)[k])
        && (forall f :: f != "id" && f != "createdAt" ==>
              Get(r.value.0.Get(c)[id], f) == (if f in data then data[f] else Get(db.Get(c)[id], f)))
        && ("createdAt" !in data ==> Get(r.value.0.Get(c)[id], "createdAt") == Get(db.Get(c)[id], "createdAt"))
        && Get(r.value.0.Get(c)[id], "id") == Get(db.Get(c)[id], "id")
        && (forall o :: o != c ==> r.value.0.Get(o) == db.Get(o))
        && r.value.1 == AsDoc(id, r.value.0.Get(c)[id])
    ensures id !in db.Get(c) ==> UpdateIn(db, faults, env, c, id, data).Fail?
  {
    var r := UpdateIn(db, faults, env, c, id, data);
    if r.Ok? {
      var t := db.Get(c);
      var d := BeforeChange(c, UpdateOperation, data, "", env).value;
      var merged := t[id] + (d - {"id"});
      assert r.value == (db.With(c, t[id := merged]), AsDoc(id, merged));
      if c == SessionMessages {
        CreatedAtHookEffect(UpdateOperation, data, "", env.toIso);
      }
      MergeEffect(t[id], d, data);
    }
  }

  /** A successful update leaves every other document and every other collection as it was. */
  lemma UpdateFrame(db: Db, faults: set<Call>, env: Env, c: Coll, id: string, data: Record)
    ensures var r := UpdateIn(db, faults, env, c, id, data);
      r.Ok? ==>
        && (forall k :: k in db.Get(c) && k != id ==> k in r.value.0.Get(c) && r.value.0.Get(c)[k] == db.Get(c)[k])
        && (forall o :: o != c ==> r.value.0.Get(o) == db.Get(o))
  {
    UpdateEffect(db, faults, env, c, id, data);
  }

  /**
   * An update whose data names neither `id` nor `createdAt` sets exactly
   * the fields of the data and keeps every other field of the record.
   */
  lemma UpdatePlainEffect(db: Db, faults: set<Call>, env: Env, c: Coll, id: string, data: Record)
    requires "id" !in data && "createdAt" !in data
    ensures var r := UpdateIn(db, faults, env, c, id, data);
      r.Ok? ==>
        && id in db.Get(c) && id in r.value.0.Get(c)
        && forall f :: Get(r.value.0.Get(c)[id], f) == (if f in data then data[f] else Get(db.Get(c)[id], f))
  {
    UpdateEffect(db, faults, env, c, id, data);
  }

  /**
   * Merging hooked data `d` into a stored record: every field but `id`
   * and `createdAt` takes the value of the data when the data has it and
   * keeps its own otherwise; without a hooked `createdAt`, that field is
   * kept too.
   */
  lemma MergeEffect(base: Record, d: Record, data: Record)
    requires data.Keys <= d.Keys <= data.Keys + {"createdAt"}
    requires forall f :: f != "createdAt" ==> Get(d, f) == Get(data, f)
    requires "createdAt" !in data ==> d == data
    ensures forall f :: f != "id" && f != "createdAt" ==>
      Get(base + (d - {"id"}), f) == (if f in data then data[f] else Get(base, f))
    ensures "createdAt" !in data ==> Get(base + (d - {"id"}), "createdAt") == Get(base, "createdAt")
  {
    var merged := base + (d - {"id"});
    forall f | f != "id" && f != "createdAt"
      ensures Get(merged, f) == (if f in data then data[f] else Get(base, f))
    {
      assert Get(d, f) == Get(data, f);
      assert f in d <==> f in data;
    }
  }

  /**
   * A created message is stored under its own id, which was free, with
   * the fields it was given; `createdAt` is the current time when it came
   * without one, and its ISO form when it came as a date string.
   */
  lemma CreatedMessage(db: Db, faults: set<Call>, env: Env, data: Record, newId: string, now: string)
    requires Get(data, "id").JStr?
    ensures var c := CreateIn(db, faults, env, SessionMessages, data, newId, now);
      var key := Get(data, "id").s;
      c.Ok? ==>
        && key !in db.messages
        && c.value.0 == db.(messages := db.messages[key := c.value.0.messages[key]])
        && c.value.1 == AsDoc(key, c.value.0.messages[key])
        && (forall f :: f != "id" && f != "createdAt" ==> Get(c.value.0.messages[key], f) == Get(data, f))
        && (!Truthy(Get(data, "createdAt")) ==> Get(c.value.0.messages[key], "createdAt") == JStr(now))
        && (Truthy(Get(data, "createdAt")) && Get(data, "createdAt").JStr? ==>
              Get(c.value.0.messages[key], "createdAt") == JStr(env.toIso(Get(data, "createdAt").s).value))
  {
    var c := CreateIn(db, faults, env, SessionMessages, data, newId, now);
    if c.Ok? {
      CreatedAtHookEffect(CreateOperation, data, now, env.toIso);
      var d := BeforeChange(SessionMessages, CreateOperation, data, now, env).value;
      var key := Get(data, "id").s;
      assert Get(d, "id") == JStr(key);
      assert c.value == (db.With(SessionMessages, db.messages[key := d - {"id"}]), AsDoc(key, d - {"id"}));
    }
  }

  /**
   * The document a successful message create answers, for data keyed by
   * its own string `id` and without `createdAt`: the data's fields, and
   * the creation time.
   */
  lemma CreatedMessageDoc(db: Db, faults: set<Call>, env: Env, data: Record, now: string)
    requires Get(data, "id").JStr? && "createdAt" !in data
    ensures var c := CreateIn(db, faults, env, SessionMessages, data, "", now);
      c.Ok? ==>
        && (forall f :: f != "createdAt" ==> Get(c.value.1, f) == Get(data, f))
        && Get(c.value.1, "createdAt") == JStr(now)
  {
    CreatedMessage(db, faults, env, data, "", now);
  }

  /** A successful delete removes exactly document `id`. */
  lemma DeleteEffect(db: Db, faults: set<Call>, c: Coll, id: string)
    ensures var r := DeleteIn(db, faults, c, id);
      r.Ok? ==>
        && id in db.Get(c) && r.value.0.Get(c) == db.Get(c) - {id}
        && (forall o :: o != c ==> r.value.0.Get(o) == db.Get(o))
    ensures id !in db.Get(c) ==> DeleteIn(db, faults, c, id) == Fail(if DeleteCall(c, id) in faults then Unavailable else NotFound)
  {
  }

  /** Every stored message passes the collection's field rules. */
  predicate MessagesValid(db: Db, env: Env) {
    forall k :: k in db.messages ==> DocErrors(AsDoc(k, db.messages[k]), env.isUrl) == []
  }

  /** Creates keep every stored message valid. */
  lemma CreateKeepsMessagesValid(db: Db, faults: set<Call>, env: Env, c: Coll, data: Record, newId: string, now: string)
    requires MessagesValid(db, env)
    ensures var r := CreateIn(db, faults, env, c, data, newId, now); r.Ok? ==> MessagesValid(r.value.0, env)
  {
    var r := CreateIn(db, faults, env, c, data, newId, now);
    if r.Ok? && c == SessionMessages {
      var d := BeforeChange(c, CreateOperation, data, now, env).value;
      var key := Get(d, "id").s;
      assert DocErrors(d, env.isUrl) == [];
      assert AsDoc(key, d - {"id"}) == d;
      assert r.value.0 == db.(messages := db.messages[key := d - {"id"}]);
      StoreValidMessage(db, env, key, d - {"id"});
    }
  }

  /** Updates keep every stored message valid. */
  lemma UpdateKeepsMessagesValid(db: Db, faults: set<Call>, env: Env, c: Coll, id: string, data: Record)
    requires MessagesValid(db, env)
    ensures var r := UpdateIn(db, faults, env, c, id, data); r.Ok? ==> MessagesValid(r.value.0, env)
  {
    var r := UpdateIn(db, faults, env, c, id, data);
    if r.Ok? && c == SessionMessages {
      var t := db.messages;
      var d := BeforeChange(c, UpdateOperation, data, "", env).value;
      var merged := t[id] + (d - {"id"});
      assert DocErrors(AsDoc(id, merged), env.isUrl) == [];
      assert r.value.0 == db.(messages := t[id := merged]);
      StoreValidMessage(db, env, id, merged);
    }
  }

  /** Storing a valid message under any key keeps every stored message valid. */
  lemma StoreValidMessage(db: Db, env: Env, key: string, rec: Record)
    requires MessagesValid(db, env) && DocErrors(AsDoc(key, rec), env.isUrl) == []
    ensures MessagesValid(db.(messages := db.messages[key := rec]), env)
  {
    var m := db.messages[key := rec];
    forall k | k in m
      ensures DocErrors(AsDoc(k, m[k]), env.isUrl) == []
    {
      if k != key {
        assert m[k] == db.messages[k];
      }
    }
  }

  /** Deletes keep every stored message valid. */
  lemma DeleteKeepsMessagesValid(db: Db, faults: set<Call>, env: Env, c: Coll, id: string)
    requires MessagesValid(db, env)
    ensures var r := DeleteIn(db, faults, c, id); r.Ok? ==> MessagesValid(r.value.0, env)
  {
  }

  // ---------------------------------------------------------------------------
  // The CMS as a mutable object
  // ---------------------------------------------------------------------------

  class Cms {
    var db: Db
    var faults: set<Call>
    const env: Env

    constructor (db0: Db, faults0: set<Call>, env0: Env)
      ensures db == db0 && faults == faults0 && env == env0
    {
      db := db0;
      faults := faults0;
      env := env0;
    }

    function FindById(c: Coll, id: string): Outcome<Record>
      reads this
    {
      FindByIdIn(db, faults, c, id)
    }

    method Create(c: Coll, data: Record, newId: string, now: string) returns (r: Outcome<Record>)
      modifies this`db
      ensures match CreateIn(old(db), faults, env, c, data, newId, now)
              case Ok(res) => db == res.0 && r == Ok(res.1)
              case Fail(e) => db == old(db) && r == Fail(e)
    {
      match CreateIn(db, faults, env, c, data, newId, now)
      case Ok(res) =>
        db := res.0;
        r := Ok(res.1);
      case Fail(e) =>
        r := Fail(e);
    }

    method Update(c: Coll, id: string, data: Record) returns (r: Outcome<Record>)
      modifies this`db
      ensures match UpdateIn(old(db), faults, env, c, id, data)
              case Ok(res) => db == res.0 && r == Ok(res.1)
              case Fail(e) => db == old(db) && r == Fail(e)
    {
      match UpdateIn(db, faults, env, c, id, data)
      case Ok(res) =>
        db := res.0;
        r := Ok(res.1);
      case Fail(e) =>
        r := Fail(e);
    }

    /** The deletion proper; a session is deleted through the collection's hook first (ProjectSessionsCollection.Delete). */
    method Delete(c: Coll, id: string) returns (r: Outcome<Record>)
      modifies this`db
      ensures match DeleteIn(old(db), faults, c, id)
              case Ok(res) => db == res.0 && r == Ok(res.1)
              case Fail(e) => db == old(db) && r == Fail(e)
    {
      match DeleteIn(db, faults, c, id)
      case Ok(res) =>
        db := res.0;
        r := Ok(res.1);
      case Fail(e) =>
        r := Fail(e);
    }

    /** `find`: scans the collection, inserting each matching id at its place in the order. */
    method Find(c: Coll, where: Where, sort: Option<string>) returns (r: Outcome<seq<string>>)
      ensures r.Fail? <==> FindCall(c, where) in faults
      ensures r.Fail? ==> r.error == Unavailable
      ensures r.Ok? ==> IsListing(db.Get(c), where, EffectiveOrder(c, sort), r.value)
    {
      if FindCall(c, where) in faults {
        return Fail(Unavailable);
      }
      var t := db.Get(c);
      var order := EffectiveOrder(c, sort);
      var pending := t.Keys;
      var ids: seq<string> := [];
      while pending != {}
        invariant pending <= t.Keys
        invariant AllIn(t, ids) && Distinct(ids)
        invariant forall i :: 0 <= i < |ids| ==> ids[i] !in pending && Matches(ids[i], t[ids[i]], where)
        invariant forall k :: k in t && k !in pending && Matches(k, t[k], where) ==> k in ids
        invariant order.Some? ==> SortedBy(t, order.value, ids)
        decreases |pending|
      {
        var k :| k in pending;
        pending := pending - {k};
        if Matches(k, t[k], where) {
          if order.Some? {
            ids := InsertSorted(t, order.value, ids, k);
          } else {
            ids := ids + [k];
          }
        }
      }
      r := Ok(ids);
    }
  }

  /** Inserts `k` after every id whose sort value comes before its own. */
  method InsertSorted(t: Table, o: SortSpec, ids: seq<string>, k: string) returns (r: seq<string>)
    requires k in t && AllIn(t, ids) && SortedBy(t, o, ids)
    ensures AllIn(t, r) && SortedBy(t, o, r)
    ensures forall x :: x in r <==> x in ids || x == k
    ensures forall i :: 0 <= i < |r| ==> r[i] in ids || r[i] == k
    ensures Distinct(ids) && k !in ids ==> Distinct(r)
  {
    var p := 0;
    while p < |ids| && InOrder(o, SortValue(t, o, ids[p]), SortValue(t, o, k))
      invariant 0 <= p <= |ids|
      invariant forall j :: 0 <= j < p ==> InOrder(o, SortValue(t, o, ids[j]), SortValue(t, o, k))
    {
      p := p + 1;
    }
    if p < |ids| {
      InOrderTotal(o, SortValue(t, o, ids[p]), SortValue(t, o, k));
    }
    r := ids[..p] + [k] + ids[p..];
    InsertKeepsSorted(t, o, ids, k, p);
  }

  /** Placing `k` after the ids that precede it and before the first that does not keeps the ids sorted and adds only `k`. */
  lemma InsertKeepsSorted(t: Table, o: SortSpec, ids: seq<string>, k: string, p: nat)
    requires k in t && AllIn(t, ids) && SortedBy(t, o, ids) && p <= |ids|
    requires forall j :: 0 <= j < p ==> InOrder(o, SortValue(t, o, ids[j]), SortValue(t, o, k))
    requires p < |ids| ==> InOrder(o, SortValue(t, o, k), SortValue(t, o, ids[p]))
    ensures var r := ids[..p] + [k] + ids[p..];
      && AllIn(t, r) && SortedBy(t, o, r)
      && (forall x :: x in r <==> x in ids || x == k)
      && (forall i :: 0 <= i < |r| ==> r[i] in ids || r[i] == k)
      && (Distinct(ids) && k !in ids ==> Distinct(r))
  {
    InsertShape(ids, k, p);
    InsertOrdered(t, o, ids, k, p);
  }

  /** Where the elements of `ids` go when `k` is placed at `p`, and what the result holds. */
  lemma InsertShape(ids: seq<string>, k: string, p: nat)
    requires p <= |ids|
    ensures var r := ids[..p] + [k] + ids[p..];
      && |r| == |ids| + 1 && r[p] == k
      && (forall j :: 0 <= j < p ==> r[j] == ids[j])
      && (forall j :: p < j < |r| ==> r[j] == ids[j - 1])
      && (forall x :: x in r <==> x in ids || x == k)
      && (forall i :: 0 <= i < |r| ==> r[i] in ids || r[i] == k)
      && (Distinct(ids) && k !in ids ==> Distinct(r))
  {
    var r := ids[..p] + [k] + ids[p..];
    InsertPositions(ids, k, p);
    forall x | x in ids
      ensures x in r
    {
      var j :| 0 <= j < |ids| && ids[j] == x;
      if j < p {
        assert r[j] == x;
      } else {
        assert r[j + 1] == x;
      }
    }
    if Distinct(ids) && k !in ids {
      forall a, b | 0 <= a < b < |r|
        ensures r[a] != r[b]
      {
        if a < p && b != p {
          assert r[b] == ids[if b < p then b else b - 1];
        } else if a > p {
          assert r[a] == ids[a - 1] && r[b] == ids[b - 1];
        }
      }
    }
  }

  /** Where the elements of `ids` go when `k` is placed at `p`. */
  lemma InsertPositions(ids: seq<string>, k: string, p: nat)
    requires p <= |ids|
    ensures var r := ids[..p] + [k] + ids[p..];
      && |r| == |ids| + 1 && r[p] == k
      && (forall j :: 0 <= j < p ==> r[j] == ids[j])
      && (forall j :: p < j < |r| ==> r[j] == ids[j - 1])
  {
  }

  /** The insertion keeps the ids in the table and in order. */
  lemma InsertOrdered(t: Table, o: SortSpec, ids: seq<string>, k: string, p: nat)
    requires k in t && AllIn(t, ids) && SortedBy(t, o, ids) && p <= |ids|
    requires forall j :: 0 <= j < p ==> InOrder(o, SortValue(t, o, ids[j]), SortValue(t, o, k))
    requires p < |ids| ==> InOrder(o, SortValue(t, o, k), SortValue(t, o, ids[p]))
    ensures var r := ids[..p] + [k] + ids[p..]; AllIn(t, r) && SortedBy(t, o, r)
  {
    var r := ids[..p] + [k] + ids[p..];
    InsertShape(ids, k, p);
    forall a, b | 0 <= a < b < |r|
      ensures InOrder(o, SortValue(t, o, r[a]), SortValue(t, o, r[b]))
    {
      if a == p && b - 1 > p {
        InOrderTrans(o, SortValue(t, o, k), SortValue(t, o, ids[p]), SortValue(t, o, ids[b - 1]));
      }
    }
  }

  lemma InOrderTotal(o: SortSpec, a: Json, b: Json)
    ensures InOrder(o, a, b) || InOrder(o, b, a)
  {
    ValueLeTotal(a, b);
  }

  lemma InOrderTrans(o: SortSpec, a: Json, b: Json, c: Json)
    requires InOrder(o, a, b) && InOrder(o, b, c)
    ensures InOrder(o, a, c)
  {
    if o.descending {
      ValueLeTrans(c, b, a);
    } else {
      ValueLeTrans(a, b, c);
    }
  }
}
