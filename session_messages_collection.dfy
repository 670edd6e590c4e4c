/**
 * The `session_messages` collection (src/database/collections/session-messages.ts):
 * the constraints on its fields, the custom validators of `parts` and
 * `metadata`, and the `beforeChange` hook that stamps and normalises
 * `createdAt`.
 *
 * The clock is the parameter `now` (an ISO timestamp); turning a date
 * string into ISO form is the parameter `toIso`, where None stands for an
 * invalid date, whose `toISOString()` throws.
 */
module SessionMessagesCollection {
  import opened Wrappers
  import opened Json
  import opened UiMessageSchema

  /** `new Date(s).toISOString()`: None when the date is invalid and the call throws. */
  type IsoNormaliser = string -> Option<string>

  /** A field validator's answer: `true`, or the message it returns. */
  datatype Verdict = Valid | Invalid(reason: string)

  /** The start of the message for rejected parts; Zod's issue text, which follows it, is not modelled. */
  const PartsInvalid := "Invalid parts structure: "

  /** The start of the message for rejected metadata. */
  const MetadataInvalid := "Invalid metadata structure: "

  /** The `parts` validator: a falsy value passes, anything else must be an array of valid parts. */
  function ValidateParts(value: Json, isUrl: UrlCheck): (v: Verdict)
    ensures v.Valid? <==> !Truthy(value) || (value.JArr? && ParseParts(value.items, isUrl).Some?)
    ensures v.Invalid? ==> v.reason == PartsInvalid
  {
    if Truthy(value) && ParsePartsValue(value, isUrl).None? then Invalid(PartsInvalid) else Valid
  }

  /** The `metadata` validator: `null` and `undefined` pass, anything else must be a record. */
  function ValidateMetadata(value: Json): (v: Verdict)
    ensures v.Valid? <==> Nullish(value) || value.JObj?
    ensures v.Invalid? ==> v.reason == MetadataInvalid
  {
    if Nullish(value) || value.JObj? then Valid else Invalid(MetadataInvalid)
  }

  /** A field the collection refuses, with the reason. */
  datatype FieldError = FieldError(field: string, reason: string)

  const Required := "This field is required."
  const InvalidSelection := "This field has an invalid selection"

  /** `role`'s options. */
  const RoleOptions: set<string> := {"system", "user", "assistant"}

  /**
   * The errors for a document about to be written: `id` is a required
   * text, `role` a required selection among the three roles, `parts`
   * must pass its validator and is required by the table, `metadata` must
   * pass its validator, and `project_session` is a required relationship.
   */
  function DocErrors(doc: Record, isUrl: UrlCheck): seq<FieldError> {
    var id := Get(doc, "id");
    var role := Get(doc, "role");
    var parts := Get(doc, "parts");
    var partsVerdict := ValidateParts(parts, isUrl);
    var metaVerdict := ValidateMetadata(Get(doc, "metadata"));
    (if id.JStr? && id.s != "" then [] else [FieldError("id", Required)])
    + (if role.JStr? && role.s in RoleOptions then [] else [FieldError("role", InvalidSelection)])
    + (if partsVerdict.Invalid? then [FieldError("parts", partsVerdict.reason)]
       else if Nullish(parts) then [FieldError("parts", Required)] else [])
    + (if metaVerdict.Invalid? then [FieldError("metadata", metaVerdict.reason)] else [])
    + (if Truthy(Get(doc, "project_session")) then [] else [FieldError("project_session", Required)])
  }

  /** A document passes every field check exactly when each field meets its rule. */
  lemma DocErrorsEmpty(doc: Record, isUrl: UrlCheck)
    ensures DocErrors(doc, isUrl) == [] <==>
      && Get(doc, "id").JStr? && Get(doc, "id").s != ""
      && Get(doc, "role").JStr? && Get(doc, "role").s in RoleOptions
      && !Nullish(Get(doc, "parts")) && ValidateParts(Get(doc, "parts"), isUrl).Valid?
      && ValidateMetadata(Get(doc, "metadata")).Valid?
      && Truthy(Get(doc, "project_session"))
  {
  }

  /**
   * A message that passed UIMessageSchema, stored with a session, passes
   * every field check exactly when its id is non-empty: the schema accepts
   * an empty id, the collection does not.
   */
  lemma ValidatedMessageFits(msg: Json, session: string, isUrl: UrlCheck)
    requires ValidMessage(msg, isUrl) && session != ""
    ensures var out := ParseMessage(msg, isUrl).value.fields;
      DocErrors(out["project_session" := JStr(session)], isUrl) == [] <==> Get(msg.fields, "id") != JStr("")
  {
    var m := msg.fields;
    var xs := Get(m, "parts").items;
    var ps := ParseParts(xs, isUrl).value;
    var out := ParseMessage(msg, isUrl).value.fields;
    assert out == Pick(m, {"id", "role", "metadata"})["parts" := JArr(ps)];
    PartsIdempotent(xs, isUrl);
    var doc := out["project_session" := JStr(session)];
    DocErrorsEmpty(doc, isUrl);
    assert Get(doc, "id") == Get(m, "id");
    assert Get(doc, "role") == Get(m, "role");
    assert Get(doc, "parts") == JArr(ps);
    assert Get(doc, "metadata") == Get(m, "metadata");
    assert ValidateParts(JArr(ps), isUrl).Valid?;
    assert ValidateMetadata(Get(m, "metadata")).Valid?;
  }

  /** The operation a `beforeChange` hook is told about. */
  datatype Operation = CreateOperation | UpdateOperation

  /**
   * The `beforeChange` hook: on create with a falsy `createdAt` it stamps
   * the current time; otherwise a non-empty string `createdAt` is put in
   * ISO form, and None is the exception an invalid date raises; anything
   * else passes through.
   */
  function CreatedAtHook(op: Operation, data: Record, now: string, toIso: IsoNormaliser): Option<Record> {
    var c := Get(data, "createdAt");
    if op == CreateOperation && !Truthy(c) then Some(data["createdAt" := JStr(now)])
    else if Truthy(c) && c.JStr? then
      match toIso(c.s)
      case None => None
      case Some(iso) => Some(data["createdAt" := JStr(iso)])
    else Some(data)
  }

  /**
   * What the hook promises: only `createdAt` can change; a create always
   * ends with a `createdAt` that is the current time or a normalised
   * string; an update without `createdAt` leaves it absent; the hook fails
   * only on a string that is not a date.
   */
  lemma CreatedAtHookEffect(op: Operation, data: Record, now: string, toIso: IsoNormaliser)
    ensures var r := CreatedAtHook(op, data, now, toIso);
      r.Some? ==> data.Keys <= r.value.Keys <= data.Keys + {"createdAt"}
    ensures var r := CreatedAtHook(op, data, now, toIso);
      r.Some? ==> forall k :: k != "createdAt" ==> Get(r.value, k) == Get(data, k)
    ensures var r := CreatedAtHook(op, data, now, toIso);
      r.None? <==> Truthy(Get(data, "createdAt")) && Get(data, "createdAt").JStr? && toIso(Get(data, "createdAt").s).None?
    ensures var r := CreatedAtHook(op, data, now, toIso);
      op == CreateOperation && !Truthy(Get(data, "createdAt")) ==> r == Some(data["createdAt" := JStr(now)])
    ensures var r := CreatedAtHook(op, data, now, toIso);
      r.Some? && Get(data, "createdAt").JStr? && Get(data, "createdAt") != JStr("") ==>
        Get(r.value, "createdAt") == JStr(toIso(Get(data, "createdAt").s).value)
    ensures var r := CreatedAtHook(op, data, now, toIso);
      op == UpdateOperation && "createdAt" !in data ==> r == Some(data)
  {
  }
}
