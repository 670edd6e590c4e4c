/**
 * The chat message schema (src/database/schemas/ui-message-schema.ts).
 *
 * Each Zod schema becomes a parse function from a JSON-like value to
 * `Option<Json>`: None when Zod's `safeParse` reports failure, otherwise
 * the parsed value. Zod object schemas strip keys they do not declare, so
 * a successful parse returns the projection of the input onto the declared
 * fields (keys that are present, even with an `undefined` value, stay;
 * absent optional keys stay absent); `z.any()` and `z.record(...)` pass
 * their value through unchanged.
 *
 * Whether a string is a URL (`z.string().url()`, decided by the WHATWG URL
 * parser) is not modelled: it is the parameter `isUrl`.
 */
module UiMessageSchema {
  import opened Wrappers
  import opened Json
  import opened Strings

  /** `z.string().url()`: the URL parser's verdict on a string. */
  type UrlCheck = string -> bool

  /** A key that is absent or `undefined`: what `.optional()` lets through without consulting the inner schema. */
  predicate Omitted(m: Record, key: string) {
    key !in m || m[key] == JUndef
  }

  predicate OptionalString(m: Record, key: string) {
    Omitted(m, key) || m[key].JStr?
  }

  predicate OptionalNumber(m: Record, key: string) {
    Omitted(m, key) || m[key].JNum?
  }

  predicate OptionalBool(m: Record, key: string) {
    Omitted(m, key) || m[key].JBool?
  }

  /** `z.record(...).optional()`: absent, `undefined`, or a plain object (not an array, not `null`). */
  predicate OptionalRecord(m: Record, key: string) {
    Omitted(m, key) || m[key].JObj?
  }

  // ---------------------------------------------------------------------------
  // Tool invocations (ToolCallSchema, ToolResultSchema, ToolInvocationSchema)
  // ---------------------------------------------------------------------------

  /** The keys of `{state, step}` merged with ToolCallSchema. */
  const ToolCallKeys: set<string> := {"state", "step", "toolCallId", "toolName", "args"}

  /** The keys of `{state, step}` merged with ToolResultSchema. */
  const ToolResultKeys: set<string> := ToolCallKeys + {"result", "isError"}

  /** The fields every branch of the tool-invocation union checks. */
  predicate ToolCallFields(m: Record) {
    Get(m, "toolCallId").JStr? && Get(m, "toolName").JStr? && OptionalNumber(m, "step")
  }

  /**
   * ToolInvocationSchema: a union over the three `state` literals, tried in
   * order; `partial-call` and `call` take ToolCallSchema's fields, `result`
   * takes ToolResultSchema's.
   */
  function ParseToolInvocation(j: Json): Option<Json> {
    match j
    case JObj(m) =>
      if !ToolCallFields(m) then None
      else if Get(m, "state") == JStr("partial-call") || Get(m, "state") == JStr("call") then
        Some(JObj(Pick(m, ToolCallKeys)))
      else if Get(m, "state") == JStr("result") && OptionalBool(m, "isError") then
        Some(JObj(Pick(m, ToolResultKeys)))
      else None
    case _ => None
  }

  /**
   * The acceptance rule for tool invocations: string `toolCallId` and
   * `toolName`, one of the three states, a numeric `step` if any, and for
   * the `result` state a boolean `isError` if any. Only the `result` state
   * keeps `result` and `isError`.
   */
  lemma ToolInvocationAcceptance(j: Json)
    ensures ParseToolInvocation(j).Some? <==>
      && j.JObj?
      && Get(j.fields, "toolCallId").JStr? && Get(j.fields, "toolName").JStr?
      && OptionalNumber(j.fields, "step")
      && Get(j.fields, "state") in {JStr("partial-call"), JStr("call"), JStr("result")}
      && (Get(j.fields, "state") == JStr("result") ==> OptionalBool(j.fields, "isError"))
    ensures ParseToolInvocation(j).Some? && Get(j.fields, "state") != JStr("result") ==>
      var out := ParseToolInvocation(j).value.fields;
      "result" !in out && "isError" !in out
  {
  }

  // ---------------------------------------------------------------------------
  // Message parts
  // ---------------------------------------------------------------------------

  /** The six `type` literals of KnownLiteralUIPartSchema. */
  const KnownPartTypes: set<string> := {"text", "reasoning", "tool-invocation", "source-url", "file", "step-start"}

  /**
   * KnownLiteralUIPartSchema: a discriminated union on `type`. A `type`
   * that is not one of the six literals fails; otherwise the part must
   * satisfy that literal's object schema.
   */
  function ParseKnownPart(m: Record, isUrl: UrlCheck): Option<Json> {
    var t := Get(m, "type");
    if t == JStr("text") then
      if Get(m, "text").JStr? then Some(JObj(Pick(m, {"type", "text"}))) else None
    else if t == JStr("reasoning") then
      if Get(m, "text").JStr? && OptionalRecord(m, "providerMetadata")
      then Some(JObj(Pick(m, {"type", "text", "providerMetadata"}))) else None
    else if t == JStr("tool-invocation") then
      match ParseToolInvocation(Get(m, "toolInvocation"))
      case None => None
      case Some(ti) => Some(JObj(map["type" := t, "toolInvocation" := ti]))
    else if t == JStr("source-url") then
      if && Get(m, "sourceId").JStr?
         && Get(m, "url").JStr? && isUrl(Get(m, "url").s)
         && OptionalString(m, "title") && OptionalRecord(m, "providerMetadata")
      then Some(JObj(Pick(m, {"type", "sourceId", "url", "title", "providerMetadata"}))) else None
    else if t == JStr("file") then
      if Get(m, "mediaType").JStr? && OptionalString(m, "filename") && Get(m, "url").JStr?
      then Some(JObj(Pick(m, {"type", "mediaType", "filename", "url"}))) else None
    else if t == JStr("step-start") then
      Some(JObj(Pick(m, {"type"})))
    else None
  }

  /** GenericDataUIPartSchema: a `type` starting with "data-", an optional string `id`, and a record `data`. */
  function ParseGenericPart(m: Record): Option<Json> {
    var t := Get(m, "type");
    if t.JStr? && StartsWith(t.s, "data-") && OptionalString(m, "id") && Get(m, "data").JObj?
    then Some(JObj(Pick(m, {"type", "id", "data"})))
    else None
  }

  /** UIMessagePartSchema: the known literals first, then the generic data part. */
  function ParsePart(j: Json, isUrl: UrlCheck): Option<Json> {
    match j
    case JObj(m) =>
      var known := ParseKnownPart(m, isUrl);
      if known.Some? then known else ParseGenericPart(m)
    case _ => None
  }

  /** `z.array(UIMessagePartSchema)` on the elements: every element parses, in order. */
  function ParseParts(xs: seq<Json>, isUrl: UrlCheck): (r: Option<seq<Json>>)
    ensures r.Some? <==> forall i :: 0 <= i < |xs| ==> ParsePart(xs[i], isUrl).Some?
    ensures r.Some? ==> |r.value| == |xs|
    ensures r.Some? ==> forall i :: 0 <= i < |xs| ==> r.value[i] == ParsePart(xs[i], isUrl).value
  {
    if |xs| == 0 then Some([])
    else
      var head := ParsePart(xs[0], isUrl);
      var tail := ParseParts(xs[1..], isUrl);
      if head.Some? && tail.Some? then Some([head.value] + tail.value) else None
  }

  /** `UIMessageSchema.shape.parts`: an array of valid parts. */
  function ParsePartsValue(j: Json, isUrl: UrlCheck): Option<Json> {
    if !j.JArr? then None
    else
      var ps := ParseParts(j.items, isUrl);
      if ps.Some? then Some(JArr(ps.value)) else None
  }

  // ---------------------------------------------------------------------------
  // Messages
  // ---------------------------------------------------------------------------

  /** The three roles of `z.enum(['system', 'user', 'assistant'])`. */
  const Roles: set<Json> := {JStr("system"), JStr("user"), JStr("assistant")}

  /** The keys UIMessageSchema declares. */
  const MessageKeys: set<string> := {"id", "role", "metadata", "parts"}

  /** `UIMessageSchema.safeParse(j)`: None on failure, the stripped message on success. */
  function ParseMessage(j: Json, isUrl: UrlCheck): Option<Json> {
    match j
    case JObj(m) =>
      var ps := ParsePartsValue(Get(m, "parts"), isUrl);
      if Get(m, "id").JStr? && Get(m, "role") in Roles && OptionalRecord(m, "metadata") && ps.Some?
      then Some(JObj(Pick(m, {"id", "role", "metadata"})["parts" := ps.value]))
      else None
    case _ => None
  }

  /** The message passes UIMessageSchema. */
  predicate ValidMessage(j: Json, isUrl: UrlCheck) {
    ParseMessage(j, isUrl).Some?
  }

  /**
   * The acceptance rule for messages: an object whose `id` is a string,
   * whose `role` is one of the three roles, whose `metadata` is absent or a
   * record, and whose `parts` is an array of valid parts.
   */
  lemma MessageAcceptance(j: Json, isUrl: UrlCheck)
    ensures ValidMessage(j, isUrl) <==>
      && j.JObj?
      && Get(j.fields, "id").JStr?
      && Get(j.fields, "role") in Roles
      && OptionalRecord(j.fields, "metadata")
      && Get(j.fields, "parts").JArr?
      && forall i :: 0 <= i < |Get(j.fields, "parts").items| ==> ParsePart(Get(j.fields, "parts").items[i], isUrl).Some?
  {
  }

  /** A parsed message keeps only declared keys: always `id`, `role` and `parts`, and `metadata` only if it was given. */
  lemma ParsedMessageShape(j: Json, isUrl: UrlCheck)
    requires ValidMessage(j, isUrl)
    ensures var out := ParseMessage(j, isUrl).value;
      && out.JObj?
      && out.fields.Keys <= MessageKeys
      && {"id", "role", "parts"} <= out.fields.Keys
      && out.fields["id"] == j.fields["id"] && out.fields["role"] == j.fields["role"]
      && ("metadata" in out.fields <==> "metadata" in j.fields)
  {
  }

  /** The empty parts array is valid, and an array of parts is valid exactly when both halves of it are. */
  lemma PartsConcat(xs: seq<Json>, ys: seq<Json>, isUrl: UrlCheck)
    ensures ParseParts([], isUrl) == Some([])
    ensures ParseParts(xs + ys, isUrl).Some? <==> ParseParts(xs, isUrl).Some? && ParseParts(ys, isUrl).Some?
    ensures ParseParts(xs + ys, isUrl).Some? ==>
      ParseParts(xs + ys, isUrl).value == ParseParts(xs, isUrl).value + ParseParts(ys, isUrl).value
  {
    if ParseParts(xs + ys, isUrl).Some? {
      PartsSplit(xs, ys, isUrl);
      PartsJoin(xs, ys, isUrl);
    } else if ParseParts(xs, isUrl).Some? && ParseParts(ys, isUrl).Some? {
      PartsJoin(xs, ys, isUrl);
    }
  }

  /** Both halves of a valid parts array are valid. */
  lemma PartsSplit(xs: seq<Json>, ys: seq<Json>, isUrl: UrlCheck)
    requires ParseParts(xs + ys, isUrl).Some?
    ensures ParseParts(xs, isUrl).Some? && ParseParts(ys, isUrl).Some?
  {
    var zs := xs + ys;
    forall i | 0 <= i < |xs|
      ensures ParsePart(xs[i], isUrl).Some?
    {
      assert zs[i] == xs[i];
    }
    forall i | 0 <= i < |ys|
      ensures ParsePart(ys[i], isUrl).Some?
    {
      assert zs[|xs| + i] == ys[i];
    }
  }

  /** Every part of two valid halves is valid. */
  lemma PartsJoinValid(xs: seq<Json>, ys: seq<Json>, isUrl: UrlCheck)
    requires ParseParts(xs, isUrl).Some? && ParseParts(ys, isUrl).Some?
    ensures ParseParts(xs + ys, isUrl).Some?
  {
    var zs := xs + ys;
    forall i | 0 <= i < |zs|
      ensures ParsePart(zs[i], isUrl).Some?
    {
      if i < |xs| {
        assert zs[i] == xs[i];
      } else {
        assert zs[i] == ys[i - |xs|];
      }
    }
  }

  /** Two valid halves make a valid parts array, parsed half by half. */
  lemma PartsJoin(xs: seq<Json>, ys: seq<Json>, isUrl: UrlCheck)
    requires ParseParts(xs, isUrl).Some? && ParseParts(ys, isUrl).Some?
    ensures ParseParts(xs + ys, isUrl).Some?
    ensures ParseParts(xs + ys, isUrl).value == ParseParts(xs, isUrl).value + ParseParts(ys, isUrl).value
  {
    var zs := xs + ys;
    PartsJoinValid(xs, ys, isUrl);
    var pz, px, py := ParseParts(zs, isUrl).value, ParseParts(xs, isUrl).value, ParseParts(ys, isUrl).value;
    forall i | 0 <= i < |zs|
      ensures pz[i] == (px + py)[i]
    {
      var part := ParsePart(zs[i], isUrl).value;
      assert pz[i] == part;
      if i < |xs| {
        assert zs[i] == xs[i];
        assert px[i] == part;
      } else {
        var k := i - |xs|;
        assert zs[i] == ys[k];
        assert py[k] == part;
      }
    }
    assert pz == px + py;
  }

  /** No known part type starts with "data-", so a known type can never fall through to the generic data part. */
  lemma KnownTypesAreNotData(t: string)
    requires t in KnownPartTypes
    ensures !StartsWith(t, "data-")
  {
    assert t[0] != 'd';
  }

  /** A part carrying one of the six known types that fails that type's schema is rejected. */
  lemma MalformedKnownPartRejected(m: Record, isUrl: UrlCheck)
    requires Get(m, "type").JStr? && Get(m, "type").s in KnownPartTypes
    ensures ParsePart(JObj(m), isUrl).Some? <==> ParseKnownPart(m, isUrl).Some?
  {
    KnownTypesAreNotData(Get(m, "type").s);
  }

  /** A part whose type is not one of the six literals is accepted exactly by the generic data rule. */
  lemma DataPartAcceptance(m: Record, isUrl: UrlCheck)
    requires !(Get(m, "type").JStr? && Get(m, "type").s in KnownPartTypes)
    ensures ParsePart(JObj(m), isUrl).Some? <==>
      && Get(m, "type").JStr? && StartsWith(Get(m, "type").s, "data-")
      && Get(m, "data").JObj?
      && OptionalString(m, "id")
  {
  }

  /** Each known part type requires its own fields. */
  lemma KnownPartRequirements(m: Record, isUrl: UrlCheck)
    ensures Get(m, "type") == JStr("text") || Get(m, "type") == JStr("reasoning") ==>
      (ParseKnownPart(m, isUrl).Some? ==> Get(m, "text").JStr?)
    ensures Get(m, "type") == JStr("tool-invocation") ==>
      (ParseKnownPart(m, isUrl).Some? <==> ParseToolInvocation(Get(m, "toolInvocation")).Some?)
    ensures Get(m, "type") == JStr("source-url") ==>
      (ParseKnownPart(m, isUrl).Some? ==> Get(m, "sourceId").JStr? && Get(m, "url").JStr? && isUrl(Get(m, "url").s))
    ensures Get(m, "type") == JStr("file") ==>
      (ParseKnownPart(m, isUrl).Some? ==> Get(m, "mediaType").JStr? && Get(m, "url").JStr?)
    ensures Get(m, "type") == JStr("step-start") ==> ParseKnownPart(m, isUrl).Some?
  {
  }

  // ---------------------------------------------------------------------------
  // Parsing is a projection: what it returns parses to itself
  // ---------------------------------------------------------------------------

  /** Picking keys twice keeps what picking once kept. */
  lemma PickPick(m: Record, a: set<string>, b: set<string>)
    requires a <= b
    ensures Pick(Pick(m, b), a) == Pick(m, a)
  {
  }

  lemma ToolInvocationIdempotent(j: Json)
    requires ParseToolInvocation(j).Some?
    ensures ParseToolInvocation(ParseToolInvocation(j).value) == ParseToolInvocation(j)
  {
    var m := j.fields;
    if Get(m, "state") == JStr("result") {
      PickPick(m, ToolResultKeys, ToolResultKeys);
    } else {
      PickPick(m, ToolCallKeys, ToolCallKeys);
    }
  }

  /** The fields a picked record keeps read as they did in the original. */
  lemma GetPick(m: Record, keys: set<string>, k: string)
    requires k in keys
    ensures Get(Pick(m, keys), k) == Get(m, k)
  {
  }

  lemma KnownPartIdempotent(m: Record, isUrl: UrlCheck)
    requires ParseKnownPart(m, isUrl).Some?
    ensures ParseKnownPart(ParseKnownPart(m, isUrl).value.fields, isUrl) == ParseKnownPart(m, isUrl)
  {
    var t := Get(m, "type");
    var out := ParseKnownPart(m, isUrl).value.fields;
    if t == JStr("tool-invocation") {
      var ti := ParseToolInvocation(Get(m, "toolInvocation")).value;
      ToolInvocationIdempotent(Get(m, "toolInvocation"));
      assert Get(out, "toolInvocation") == ti;
      assert Get(out, "type") == t;
    } else {
      var keys :=
        if t == JStr("text") then {"type", "text"}
        else if t == JStr("reasoning") then {"type", "text", "providerMetadata"}
        else if t == JStr("source-url") then {"type", "sourceId", "url", "title", "providerMetadata"}
        else if t == JStr("file") then {"type", "mediaType", "filename", "url"}
        else {"type"};
      assert out == Pick(m, keys);
      PickPick(m, keys, keys);
      forall k | k in keys ensures Get(out, k) == Get(m, k) {
        GetPick(m, keys, k);
      }
    }
  }

  lemma PartIdempotent(j: Json, isUrl: UrlCheck)
    requires ParsePart(j, isUrl).Some?
    ensures ParsePart(ParsePart(j, isUrl).value, isUrl) == ParsePart(j, isUrl)
  {
    var m := j.fields;
    var t := Get(m, "type");
    var out := ParsePart(j, isUrl).value;
    if ParseKnownPart(m, isUrl).Some? {
      KnownPartIdempotent(m, isUrl);
    } else {
      if t.s in KnownPartTypes {
        KnownTypesAreNotData(t.s);
      }
      var keys := {"type", "id", "data"};
      assert out.fields == Pick(m, keys);
      GetPick(m, keys, "type");
      PickPick(m, keys, keys);
      assert ParseKnownPart(out.fields, isUrl).None?;
    }
  }

  lemma {:induction false} PartsIdempotent(xs: seq<Json>, isUrl: UrlCheck)
    requires ParseParts(xs, isUrl).Some?
    ensures ParseParts(ParseParts(xs, isUrl).value, isUrl) == ParseParts(xs, isUrl)
  {
    var ps := ParseParts(xs, isUrl).value;
    forall i | 0 <= i < |ps| ensures ParsePart(ps[i], isUrl) == Some(ps[i]) {
      PartIdempotent(xs[i], isUrl);
    }
    var again := ParseParts(ps, isUrl).value;
    assert again == ps;
  }

  /**
   * Parsing a parsed message gives it back unchanged: the stripped form a
   * save stores passes the schema again when it is read back.
   */
  lemma ParseMessageIdempotent(j: Json, isUrl: UrlCheck)
    requires ValidMessage(j, isUrl)
    ensures ParseMessage(ParseMessage(j, isUrl).value, isUrl) == ParseMessage(j, isUrl)
  {
    var m := j.fields;
    var xs := Get(m, "parts").items;
    PartsIdempotent(xs, isUrl);
    var out := ParseMessage(j, isUrl).value;
    assert Get(out.fields, "parts") == JArr(ParseParts(xs, isUrl).value);
    assert Pick(out.fields, {"id", "role", "metadata"}) == Pick(m, {"id", "role", "metadata"});
  }
}
