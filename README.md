# seaward chat persistence, tools and client logic in Dafny

This project models the core of seaward, a Next.js chat application backed by the
Payload CMS. It covers:

- **Message schema** (`UiMessageSchema`). The UIMessage schema: the six known part
  types, the generic `data-*` part and the tool-invocation union. Parsing is
  acceptance plus projection onto the declared keys, as a Zod object schema drops
  unknown keys.
- **Codebase tools** (`CodebaseTool`). The editor tool's argument schema with its
  `superRefine` decision table over `path`/`paths`. The request body its `execute` builds.
  The result shaping of the find-files, editor and npm tools.
- **The CMS** (`Store`). An in-memory store: one map per collection (`users`,
  `user_projects`, `project_sessions`, `session_messages`), keyed by id.
  `create`/`update`/`delete`/`findByID`/`find` are specification functions on a `Db`
  value, and class `Cms` is the mutable handle the actions call. A store call can
  throw: the set `faults` names the calls that do.
- **Collections**. The `session_messages` field rules, its `parts`/`metadata`
  validators and its `createdAt` hook (`SessionMessagesCollection`). The
  `project_sessions` `beforeDelete` cascade (`ProjectSessionsCollection`).
- **Server actions**. On sessions: creation, the stored-message read-back,
  the upsert loop of `saveSessionMessages`, deletion (`ProjectSessionsActions`).
  On messages (`SessionMessagesActions`). On projects, including the id
  normalisation of the user's project list (`UserProjectsActions`). On users: the
  authorisation rule, settings, logout and its base URL (`UsersActions`).
- **Client logic**. The unanchored `extractIdsFromPath` match and the model-selection
  effect (`AppContext`). The sidebar's anchored project-path match, session
  filter, project items, selection test, and the create/delete/rename handlers
  (`AppSidebar`).
- **Markdown**. The markdown text normalisation, paragraph segmentation,
  `childrenTakeAllStringContents` and the `code` language dispatch
  (`MarkdownRenderer`).

`Json` is the JavaScript value domain (`undefined`, `null`, booleans, integer
numbers, strings, arrays, objects) with `||`, optional chaining and property
reads. `Strings` holds `trim`, `split`, `join` and decimal rendering.

The clock, the ISO date normaliser `toIso` and the URL check behind
`z.string().url()` are parameters. So are the authentication answer, the
request's headers, and what `fetch` answers.

## Model

| member | source | states |
|---|---|---|
| UiMessageSchema.ToolInvocationAcceptance | src/database/schemas/ui-message-schema.ts:4-32 | a tool invocation is accepted exactly when `toolCallId` and `toolName` are strings, `state` is one of `partial-call`, `call`, `result`, `step` is absent or a number, and in the `result` state `isError` is absent or a boolean; only the `result` state keeps `result` and `isError` |
| UiMessageSchema.KnownPartRequirements | src/database/schemas/ui-message-schema.ts:35-83 | `text` and `reasoning` need a string `text`, `tool-invocation` a valid invocation, `source-url` a `sourceId` and a URL, `file` a `mediaType` and a URL, `step-start` nothing else |
| UiMessageSchema.KnownTypesAreNotData | src/database/schemas/ui-message-schema.ts:76-83 | no known part type begins with `data-` |
| UiMessageSchema.MalformedKnownPartRejected | src/database/schemas/ui-message-schema.ts:76-101 | a part carrying a known type that fails that type's schema is rejected; it never falls through to the data branch |
| UiMessageSchema.DataPartAcceptance | src/database/schemas/ui-message-schema.ts:87-101 | a part whose type is not one of the six literals is accepted exactly when its type starts with `data-`, `data` is a record and `id` is absent or a string |
| UiMessageSchema.ParseParts | src/database/schemas/ui-message-schema.ts:110 | the parts array parses exactly when every element parses, element by element in order |
| UiMessageSchema.PartsConcat | src/database/schemas/ui-message-schema.ts:110 | the empty parts array is valid; an array is valid exactly when both halves are |
| UiMessageSchema.PartsSplit | src/database/schemas/ui-message-schema.ts:110 | both halves of a valid parts array are valid |
| UiMessageSchema.PartsJoin | src/database/schemas/ui-message-schema.ts:110 | two valid halves make a valid parts array, parsed half by half |
| UiMessageSchema.MessageAcceptance | src/database/schemas/ui-message-schema.ts:106-111 | a message is accepted exactly when it is an object with a string `id`, a role among `system`/`user`/`assistant`, `metadata` absent or a record, and an array of valid parts |
| UiMessageSchema.ParsedMessageShape | src/database/schemas/ui-message-schema.ts:106-111 | the parsed message holds `id`, `role`, `parts`, and `metadata` only when given, and no other key |
| UiMessageSchema.PickPick | src/database/schemas/ui-message-schema.ts:106-111 | stripping to the declared keys twice is stripping once |
| UiMessageSchema.GetPick | src/database/schemas/ui-message-schema.ts:106-111 | a kept field reads as it did before stripping |
| UiMessageSchema.ToolInvocationIdempotent | src/database/schemas/ui-message-schema.ts:19-32 | a parsed tool invocation parses to itself |
| UiMessageSchema.KnownPartIdempotent | src/database/schemas/ui-message-schema.ts:35-83 | a parsed known part parses to itself |
| UiMessageSchema.PartIdempotent | src/database/schemas/ui-message-schema.ts:98-101 | a parsed part parses to itself |
| UiMessageSchema.PartsIdempotent | src/database/schemas/ui-message-schema.ts:110 | a parsed parts array parses to itself |
| UiMessageSchema.ParseMessageIdempotent | src/database/schemas/ui-message-schema.ts:106-111 | parsing a parsed message gives it back unchanged |
| CodebaseTool.ParseCommand | src/providers/tools-provider/codebase-tool.ts:42 | a command is accepted exactly when it is one of the five names, and parses to the command of that name |
| CodebaseTool.CommandRoundTrip | src/providers/tools-provider/codebase-tool.ts:42 | every command's name parses back to that command |
| CodebaseTool.ParseScript | src/providers/tools-provider/codebase-tool.ts:128 | a script is accepted exactly when it is `lint` or `format` |
| CodebaseTool.ScriptRoundTrip | src/providers/tools-provider/codebase-tool.ts:128 | every script's name parses back to that script |
| CodebaseTool.RefinedDecision | src/providers/tools-provider/codebase-tool.ts:50-88 | a view passes exactly when it names one of a non-empty `path` and a non-empty `paths`; any other command passes exactly when it names a non-empty `path` and no non-empty `paths` |
| CodebaseTool.ViewIssues | src/providers/tools-provider/codebase-tool.ts:51-70 | a view with neither argument gets one issue on each; a view with both gets one issue on both |
| CodebaseTool.OtherCommandIssues | src/providers/tools-provider/codebase-tool.ts:71-87 | for other commands a missing path is reported first, with the command's name in the message, and an unwanted `paths` last |
| CodebaseTool.StringItems | src/providers/tools-provider/codebase-tool.ts:44 | an array passes `z.array(z.string())` exactly when every item is a string, and gives those strings in order |
| CodebaseTool.NumberItems | src/providers/tools-provider/codebase-tool.ts:49 | an array passes `z.array(z.number())` exactly when every item is a number, and gives those numbers in order |
| CodebaseTool.ParseEditorArgs | src/providers/tools-provider/codebase-tool.ts:40-88 | accepted arguments satisfy the cross-field rules, carry the given command and are what the object's fields encode; any arguments the fields encode that satisfy the rules are accepted and returned |
| CodebaseTool.ParseEditorArgsAcceptance | src/providers/tools-provider/codebase-tool.ts:40-88 | an input is accepted exactly when it is an object whose fields encode arguments the rules accept |
| CodebaseTool.EncodedFields | src/providers/tools-provider/codebase-tool.ts:41-49 | each field written out from arguments passes its own type check and gives that argument back |
| CodebaseTool.StringsValue | src/providers/tools-provider/codebase-tool.ts:93-94 | the JSON array of the paths, item for item |
| CodebaseTool.BuildBody | src/providers/tools-provider/codebase-tool.ts:91-104 | the body always has `command` and `view_range`; `paths` exactly for a view with non-empty `paths`, `path` exactly otherwise (non-empty for accepted arguments); each of `file_text`, `insert_line`, `new_str`, `old_str` exactly when supplied, with its value; no other key |
| CodebaseTool.FirstTruthy | src/providers/tools-provider/codebase-tool.ts:114-116 | `a.k1 \|\| … \|\| fallback` throws exactly when reading from a nullish value; on any other value it is the first truthy field in key order, or the fallback when every field read is falsy |
| CodebaseTool.FirstTruthyIsOrChain | src/providers/tools-provider/codebase-tool.ts:115 | for two keys it equals the left-grouped JavaScript chain `a.k1 \|\| a.k2 \|\| fallback` |
| CodebaseTool.FindFilesFailures | src/providers/tools-provider/codebase-tool.ts:23-25 | a non-OK answer is a failure with the server's message or `Failed to find files`; a thrown request is a failure with the prefixed thrown message (lines 32-34) |
| CodebaseTool.FindFilesSuccess | src/providers/tools-provider/codebase-tool.ts:27-31 | an OK answer succeeds with `files` or `[]` and a message counting them |
| CodebaseTool.BackendResult | src/providers/tools-provider/codebase-tool.ts:113-120 | an OK answer is the backend's body; a thrown request is a failure carrying the thrown message after the tool's prefix (the npm tool, lines 138-145, has the same shape) |
| CodebaseTool.NonOkAnswersFail | src/providers/tools-provider/codebase-tool.ts:114-116 | a non-OK editor or npm answer (also lines 139-141) is a failure carrying a truthy error; the editor's error is its `message` when truthy, else its `error`; npm's is `stderr` when truthy, else `message`; else the tool's default |
| Json.Or | src/providers/tools-provider/codebase-tool.ts:24 | `a \|\| b` is one of its operands, truthy exactly when either is, and `a` whenever `a` is truthy |
| Json.OrAssociative | src/providers/tools-provider/codebase-tool.ts:115 | `(a \|\| b) \|\| c` equals `a \|\| (b \|\| c)`, so the unparenthesised chains read either way |
| Json.Pick | src/database/schemas/ui-message-schema.ts:106-111 | exactly the entries with the given keys |
| Json.Prop | src/providers/tools-provider/codebase-tool.ts:29 | reading a property of `null`/`undefined` throws; a missing property is `undefined`; arrays and strings have a length |
| Json.OptProp | src/providers/tools-provider/codebase-tool.ts:30 | optional chaining gives `undefined` on a nullish value and reads the property otherwise |
| Json.Read | src/providers/tools-provider/codebase-tool.ts:24 | a property read throws on a nullish value and otherwise gives the field |
| Strings.Trim | src/components/ui/markdown-renderer.tsx:30-33 | `trim` removes exactly the whitespace at both ends: the result is a slice of the input with no whitespace at either end |
| Strings.TrimFixpoint | src/components/ui/markdown-renderer.tsx:30-33 | a string is its own trim exactly when no whitespace is at either end |
| Strings.TrimIdempotent | src/components/ui/markdown-renderer.tsx:30-33 | trimming twice is trimming once |
| Strings.Split | src/components/ui/markdown-renderer.tsx:30-33 | `split` on a literal separator always gives at least one piece |
| Strings.SplitNoOccurrence | src/components/ui/markdown-renderer.tsx:30-33 | a string without the separator is its own single piece |
| Strings.SplitLeftmost | src/components/ui/markdown-renderer.tsx:30-33 | the first piece ends at the leftmost occurrence, and splitting resumes after that whole occurrence |
| Strings.SplitOverlapping | src/components/ui/markdown-renderer.tsx:31 | `"\n\n\n".split("\n\n")` is `["", "\n"]`: the cut is at the first pair |
| Strings.JoinSplit | src/components/ui/markdown-renderer.tsx:30-33 | joining the pieces of a split with the same separator gives the string back |
| Strings.SplitPiecesFree | src/components/ui/markdown-renderer.tsx:14-18 | no piece of a split contains the separator |
| Strings.SplitAppendChar | src/components/ui/markdown-renderer.tsx:14-18 | splitting on one character distributes over a concatenation at that character |
| Strings.LinesHaveNoNewline | src/components/ui/markdown-renderer.tsx:14-18 | no line of a split on newline holds a newline |
| Strings.StrLeTotal | src/database/collections/session-messages.ts:6 | the string order used for sorting is total |
| Strings.StrLeTrans | src/database/collections/session-messages.ts:6 | the string order used for sorting is transitive |
| Strings.NatToStringRoundTrip | src/providers/tools-provider/codebase-tool.ts:30 | the decimal rendering of the file count reads back as that number |
| MarkdownRenderer.RenderTextWithoutBreak | src/components/ui/markdown-renderer.tsx:30-33 | text without a blank-line break renders as its trim |
| MarkdownRenderer.RenderTextShorter | src/components/ui/markdown-renderer.tsx:30-33 | the rendered text is never longer than the input |
| MarkdownRenderer.TrimAll | src/components/ui/markdown-renderer.tsx:32 | each piece becomes its trim, in order |
| MarkdownRenderer.Paragraphs | src/components/ui/markdown-renderer.tsx:15 | `split(/\n{2,}/g)`: the pieces between maximal runs of two or more newlines, found from the left |
| MarkdownRenderer.Clean | src/components/ui/markdown-renderer.tsx:16-17 | each line trimmed, the empty ones dropped, in order |
| MarkdownRenderer.CleanAppend | src/components/ui/markdown-renderer.tsx:16-17 | cleaning two lists back to back is cleaning each |
| MarkdownRenderer.SegmentsAreCleanLines | src/components/ui/markdown-renderer.tsx:14-18 | the segments are the input's own lines, trimmed, blank ones dropped, in order: the paragraph split changes nothing |
| MarkdownRenderer.SegmentShape | src/components/ui/markdown-renderer.tsx:14-18 | every segment is non-empty, trimmed and free of newlines |
| MarkdownRenderer.FlattenChildren | src/components/ui/markdown-renderer.tsx:145-163 | an element's array children flatten to the in-order concatenation of their flattenings; the empty array gives nothing; a single child in an array counts as that child |
| MarkdownRenderer.FlattenLeaves | src/components/ui/markdown-renderer.tsx:145-163 | a string is its own flattening, a truthy single child is flattened in place, anything else gives "" |
| MarkdownRenderer.FlattenFromAppend | src/components/ui/markdown-renderer.tsx:153-156 | the children `a + b` flatten to those of `a` followed by those of `b` |
| MarkdownRenderer.CodeLanguage | src/components/ui/markdown-renderer.tsx:175 | a language exactly when some `language-` in the class is followed by a word character; then the word at the leftmost such place |
| MarkdownRenderer.LanguageAt | src/components/ui/markdown-renderer.tsx:175 | `/language-(\w+)/` tried at one index: the prefix followed by a word character, capturing the longest run of word characters |
| MarkdownRenderer.CodeLanguageOfClass | src/components/ui/markdown-renderer.tsx:175 | `language-` and a word, then nothing or a non-word character, names that word |
| MarkdownRenderer.CodeLanguageNone | src/components/ui/markdown-renderer.tsx:175 | a class never containing `language-`, or no class, gives no language |
| MarkdownRenderer.CopyTextDropsArrayChildren | src/components/ui/markdown-renderer.tsx:115-118 | as written, children `["a", "b"]` copy as "" while the corrected copy text is "ab" |
| MarkdownRenderer.CopyText | src/components/ui/markdown-renderer.tsx:115-118 | string children are copied as they are |
| MarkdownRenderer.CopyTextAgrees | src/components/ui/markdown-renderer.tsx:115-118 | the corrected copy text reads array children as an element holding them is read, and equals the code as written on every other node |
| MarkdownRenderer.Code | src/components/ui/markdown-renderer.tsx:174-190 | a code block exactly when the class names a language, with that language and the copy text as written (lines 115-118); inline code otherwise |
| MarkdownRenderer.CodeArrayChildrenCopy | src/components/ui/markdown-renderer.tsx:174-190 | a `language-ts` block with children `["a", "b"]` copies "" as written and "ab" corrected |
| MarkdownRenderer.CodeCorrected | src/components/ui/markdown-renderer.tsx:115-118 | the corrected `code`: the same dispatch and language, the corrected copy text, and the same view as written whenever the children are not an array |
| Store.With | src/database/actions/project-sessions-actions.ts:54-60 | replacing one collection leaves the other three as they were |
| Store.AsDoc | src/database/actions/session-messages-actions.ts:71-83 | a document is its stored fields plus `id` |
| Store.ParseSort | src/database/actions/session-messages-actions.ts:142-158 | a leading `-` sorts descending on the rest of the name, anything else ascending on the name |
| Store.ListingById | src/database/actions/project-sessions-actions.ts:291-299 | a find filtered on `id` lists only that id |
| Store.RelationIds | src/database/actions/user-projects-actions.ts:52-56 | the normalised list is no longer than the input and holds only kept values |
| Store.RelationIdsAppend | src/database/actions/user-projects-actions.ts:52-56 | normalising a list is normalising its halves |
| Store.RelationIdsMembers | src/database/actions/user-projects-actions.ts:52-56 | a value is listed exactly when it is kept and some entry reduces to it |
| Store.RelationIdsOfIds | src/database/actions/user-projects-actions.ts:52-56 | a list of kept plain ids is already normal |
| Store.FindByIdIn | src/database/actions/session-messages-actions.ts:90-93 | `findByID` answers the document exactly when the id is stored and the call does not throw; NotFound for a missing id |
| Store.CreateEffect | src/database/actions/session-messages-actions.ts:60-63 | a create adds one document under a key that was free, changes nothing else, and answers the stored document |
| Store.MessageIdsUnique | src/database/collections/session-messages.ts:9-17 | a message whose id is stored cannot be created again |
| Store.UpdateEffect | src/database/actions/session-messages-actions.ts:108-112 | an update rewrites only that document: supplied fields take the data's values, others keep theirs; it fails on a missing id |
| Store.UpdateFrame | src/database/actions/project-sessions-actions.ts:344-353 | an update leaves every other document and collection as it was |
| Store.UpdatePlainEffect | src/database/actions/session-messages-actions.ts:108-112 | for data without `id` and `createdAt`, exactly the data's fields change |
| Store.MergeEffect | src/database/collections/session-messages.ts:85-88 | merging hooked data sets exactly the supplied fields and keeps the stored `createdAt` when none is supplied |
| Store.CreatedMessage | src/database/collections/session-messages.ts:71-91 | a created message is stored under its own free id with its fields; `createdAt` is the current time when absent and the ISO form of a given date string |
| Store.CreatedMessageDoc | src/database/collections/session-messages.ts:80-81 | a message created without `createdAt` answers the data's fields and the current time |
| Store.DeleteEffect | src/database/actions/session-messages-actions.ts:120-132 | a delete removes exactly that document; a missing id fails |
| Store.CreateKeepsMessagesValid | src/database/collections/session-messages.ts:9-68 | creates keep every stored message within the field rules |
| Store.UpdateKeepsMessagesValid | src/database/collections/session-messages.ts:9-68 | updates keep every stored message within the field rules |
| Store.DeleteKeepsMessagesValid | src/database/collections/session-messages.ts:9-68 | deletes keep every stored message within the field rules |
| Store.Cms.Create | src/database/actions/session-messages-actions.ts:60-63 | the handle's create steps the database as the create function says |
| Store.Cms.Update | src/database/actions/session-messages-actions.ts:108-112 | the handle's update steps the database as the update function says |
| Store.Cms.Delete | src/database/actions/session-messages-actions.ts:120-132 | the handle's delete steps the database as the delete function says |
| Store.Cms.Find | src/database/actions/session-messages-actions.ts:142-158 | `find` fails exactly when the call throws and otherwise lists exactly the matching ids, without repeats, in the requested order |
| Store.InsertSorted | src/database/collections/session-messages.ts:6 | inserting an id into a sorted listing keeps it sorted and adds only that id |
| SessionMessagesCollection.ValidateParts | src/database/collections/session-messages.ts:32-45 | a falsy value or an array of valid parts passes; anything else gets the parts message |
| SessionMessagesCollection.ValidateMetadata | src/database/collections/session-messages.ts:54-61 | `null`, `undefined` and records pass; anything else gets the metadata message |
| SessionMessagesCollection.DocErrorsEmpty | src/database/collections/session-messages.ts:9-68 | a document passes exactly when `id` is a non-empty string, `role` one of the three, `parts` present and valid, `metadata` valid, `project_session` set |
| SessionMessagesCollection.ValidatedMessageFits | src/database/collections/session-messages.ts:9-68 | a schema-valid message stored with a session passes the field rules exactly when its id is non-empty |
| SessionMessagesCollection.CreatedAtHookEffect | src/database/collections/session-messages.ts:71-91 | only `createdAt` changes; a create without one gets the current time; a date string is put in ISO form; an update without one leaves it absent; the hook fails only on an invalid date |
| ProjectSessionsCollection.CascadeEffect | src/database/collections/project-sessions.ts:21-64 | the cascade removes exactly the session's messages whose delete does not throw; other sessions' messages and other collections are untouched |
| ProjectSessionsCollection.CascadeOnEmptySession | src/database/collections/project-sessions.ts:56-58 | with no messages in the session nothing changes |
| ProjectSessionsCollection.CascadeStep | src/database/collections/project-sessions.ts:45-53 | each delete, successful or thrown, moves the cascade one message on |
| ProjectSessionsCollection.ListingIsSession | src/database/collections/project-sessions.ts:27-37 | the hook's lookup lists exactly the session's messages |
| ProjectSessionsCollection.ListingCoversSession | src/database/collections/project-sessions.ts:27-54 | deleting the whole listing is the cascade |
| ProjectSessionsCollection.BeforeDelete | src/database/collections/project-sessions.ts:21-64 | a failed lookup aborts with the fixed message and writes nothing; otherwise the database becomes the cascade |
| ProjectSessionsCollection.DeleteEach | src/database/collections/project-sessions.ts:44-54 | the loop deletes each listed message in turn, passing over a delete that throws |
| ProjectSessionsCollection.Delete | src/database/collections/project-sessions.ts:21-64 | the hook runs before the delete proper; an aborted hook fails the delete and writes nothing |
| ProjectSessionsActions.SessionName | src/database/actions/project-sessions-actions.ts:28 | the supplied name when truthy, else `Session ` and the time |
| ProjectSessionsActions.ExistingSessions | src/database/actions/project-sessions-actions.ts:50-52 | the project's list as ids, falsy entries dropped; anything but an array counts as none |
| ProjectSessionsActions.CreateSessionForProjectEffect | src/database/actions/project-sessions-actions.ts:19-71 | the session is stored under a fresh id with its name; the project's list becomes its old ids followed by the new one; nothing else changes |
| ProjectSessionsActions.CreatedSession | src/database/actions/project-sessions-actions.ts:24-30 | creating a session stores it under the new id with the resolved name and touches nothing else |
| ProjectSessionsActions.AppendSessionEffect | src/database/actions/project-sessions-actions.ts:54-60 | appending to a project's list rewrites that list only |
| ProjectSessionsActions.CreateSessionWithoutProject | src/database/actions/project-sessions-actions.ts:37-47 | a missing project answers None, and the created session stays behind |
| ProjectSessionsActions.CreateSessionForProject | src/database/actions/project-sessions-actions.ts:19-71 | the three store calls in order, stopping at the first that throws |
| ProjectSessionsActions.FormatMessageChoice | src/database/actions/project-sessions-actions.ts:166-207 | a usable `rawData` wins; otherwise the rebuilt record is dropped exactly when a truthy `role`, `parts` or `metadata` is malformed |
| ProjectSessionsActions.FormatMessageValid | src/database/actions/project-sessions-actions.ts:199-205 | every formatted message passes the schema again |
| ProjectSessionsActions.StoredMessageSurvives | src/database/actions/project-sessions-actions.ts:166-207 | a message the collection's rules accept is never dropped |
| ProjectSessionsActions.FormatMessages | src/database/actions/project-sessions-actions.ts:166-207 | the output is no longer than the listing |
| ProjectSessionsActions.FormatMessagesAppend | src/database/actions/project-sessions-actions.ts:166-207 | the output keeps the listing's order |
| ProjectSessionsActions.FormatMessagesKeepAll | src/database/actions/project-sessions-actions.ts:207 | nothing is dropped when every document formats |
| ProjectSessionsActions.FormatMessagesEach | src/database/actions/project-sessions-actions.ts:207 | a property of every formatted message holds of the whole output |
| ProjectSessionsActions.ChatFormValid | src/database/actions/project-sessions-actions.ts:199-207 | every message handed out passes the schema |
| ProjectSessionsActions.FormatMessagesKeepsValid | src/database/actions/project-sessions-actions.ts:166-207 | when every stored message passes the field rules, none is dropped |
| ProjectSessionsActions.GetSessionMessages | src/database/actions/project-sessions-actions.ts:147-214 | the session's messages by creation time in chat form; `[]` when there are none; None when the lookup throws. The model lists every match; Payload's default page size is not modelled |
| ProjectSessionsActions.MessageInSessionListing | src/database/actions/project-sessions-actions.ts:291-299 | the upsert's lookup answers the message exactly when it is stored in this session |
| ProjectSessionsActions.MessageRecord | src/database/actions/project-sessions-actions.ts:266-288 | the saved record holds `id`, `role`, `parts`, the session, `metadata` only when defined, and `createdAt` only for a valid date |
| ProjectSessionsActions.UpsertEffect | src/database/actions/project-sessions-actions.ts:291-319 | an upsert touches only this session's messages and leaves the message in the session |
| ProjectSessionsActions.UpsertUpdateEffect | src/database/actions/project-sessions-actions.ts:302-310 | an updated message stays in the session and the others are as they were |
| ProjectSessionsActions.UpsertCreateEffect | src/database/actions/project-sessions-actions.ts:311-319 | a created message is new, in the session, and the others are as they were |
| ProjectSessionsActions.SaveOneEffect | src/database/actions/project-sessions-actions.ts:252-326 | a `null` or `undefined` message throws at the spread; any other message is skipped exactly when it fails the schema, and upserted under its own id otherwise |
| ProjectSessionsActions.AddOnce | src/database/actions/project-sessions-actions.ts:320 | adding to a `Set`: a present value stays where it is, a new one goes last |
| ProjectSessionsActions.AddAllAppends | src/database/actions/project-sessions-actions.ts:339-340 | adding distinct values keeps the old order and appends the missing ones in order |
| ProjectSessionsActions.SkipInvalid | src/database/actions/project-sessions-actions.ts:260-264 | an invalid message that is not nullish changes nothing and does not clear the flag |
| ProjectSessionsActions.AbortedStays | src/database/actions/project-sessions-actions.ts:251-252 | once a message has thrown, the later messages are not tried and change nothing |
| ProjectSessionsActions.NullishEndsLoop | src/database/actions/project-sessions-actions.ts:251-252 | a nullish message ends the loop with the flag cleared and the database the earlier messages left |
| ProjectSessionsActions.NullishMessageAnswersFalse | src/database/actions/project-sessions-actions.ts:251-369 | a nullish message anywhere makes the call answer false, with the earlier messages written, the later ones untried and the session list not updated |
| ProjectSessionsActions.SaveNullOnly | src/database/actions/project-sessions-actions.ts:251-369 | saving just `null` writes nothing and answers false |
| ProjectSessionsActions.SaveStepKeepsToSession | src/database/actions/project-sessions-actions.ts:251-327 | saving a message keeps to its session |
| ProjectSessionsActions.SaveLoopInvariant | src/database/actions/project-sessions-actions.ts:251-327 | the saved ids are distinct stored messages of this session; nothing is removed; other sessions' messages and other collections are untouched |
| ProjectSessionsActions.SaveLoopSuccess | src/database/actions/project-sessions-actions.ts:251-327 | the loop ends early exactly when a message threw; the flag survives exactly when no message threw and no lookup or write failed |
| ProjectSessionsActions.SaveLoopDistinct | src/database/actions/project-sessions-actions.ts:320 | the saved ids never repeat |
| ProjectSessionsActions.CurrentMessageIds | src/database/actions/project-sessions-actions.ts:334-336 | the stored ids as an insertion-ordered set; a falsy list is empty; a non-array or a `null` entry throws |
| ProjectSessionsActions.UpdateSessionListEffect | src/database/actions/project-sessions-actions.ts:331-361 | the last step never sets the flag; keeping it after saved ids means the list is now the merged ids |
| ProjectSessionsActions.UpdateSessionListFrame | src/database/actions/project-sessions-actions.ts:344-353 | the last step writes only the session's own document |
| ProjectSessionsActions.SaveSessionMessagesEffect | src/database/actions/project-sessions-actions.ts:222-370 | nothing is written when the session cannot be looked up; other sessions' messages, users, projects and other sessions are untouched |
| ProjectSessionsActions.SaveSessionMessagesList | src/database/actions/project-sessions-actions.ts:331-364 | true only when every lookup and write succeeded; then the list is the old ids without repeats followed by the saved ids it lacked |
| ProjectSessionsActions.SaveMessage | src/database/actions/project-sessions-actions.ts:256-326 | one turn of the loop as the step function; a message not stored leaves the database as it was |
| ProjectSessionsActions.SaveEach | src/database/actions/project-sessions-actions.ts:251-327 | the loop computes the flag, the saved ids and the early end of the loop function, stopping at a throwing message |
| ProjectSessionsActions.MergeIds | src/database/actions/project-sessions-actions.ts:339-340 | the stored ids with each saved id added in turn |
| ProjectSessionsActions.SaveSessionMessages | src/database/actions/project-sessions-actions.ts:222-370 | the session check, the loop and the list update, as the function of the database says; a nullish message ends the call with false before the list update |
| ProjectSessionsActions.DeleteSession | src/database/actions/project-sessions-actions.ts:102-114 | true exactly when the cascade and the delete both went through; the database is unchanged when the messages cannot be looked up, and otherwise is the cascade, followed by the session's delete when that succeeds |
| SessionMessagesActions.NewMessageRecord | src/database/actions/session-messages-actions.ts:42-58 | the record holds the validated `id`, `role`, `parts`, the session, and `metadata` only when defined |
| SessionMessagesActions.CandidateParse | src/database/actions/session-messages-actions.ts:27-32 | the schema hands back the fresh id, the input's role and metadata, and the parsed parts |
| SessionMessagesActions.CreateMessageRejects | src/database/actions/session-messages-actions.ts:34-37 | input failing the schema answers None and creates nothing |
| SessionMessagesActions.CreateMessageEffect | src/database/actions/session-messages-actions.ts:60-68 | a created message is new, stored under the fresh id, and nothing else changes |
| SessionMessagesActions.CreateMessageFields | src/database/actions/session-messages-actions.ts:42-63 | the created message holds the input's role, parsed parts, the session, the creation time, and `metadata` exactly when defined |
| SessionMessagesActions.RecordFields | src/database/actions/session-messages-actions.ts:42-58 | the stored record field by field |
| SessionMessagesActions.CreateMessage | src/database/actions/session-messages-actions.ts:22-69 | validate, then create; None on any failure |
| SessionMessagesActions.GetMessageById | src/database/actions/session-messages-actions.ts:71-83 | the document, or None when the lookup throws or misses |
| SessionMessagesActions.UpdateData | src/database/actions/session-messages-actions.ts:101-106 | exactly the defined ones among `role`, `parts`, `metadata` |
| SessionMessagesActions.UpdateMessageEffect | src/database/actions/session-messages-actions.ts:89-112 | an unknown id answers None and writes nothing; a success changes only that message and answers it |
| SessionMessagesActions.UpdateMessageFields | src/database/actions/session-messages-actions.ts:101-112 | only the defined forwarded fields change, to the input's values; `createdAt` and all others keep theirs |
| SessionMessagesActions.UpdateMessage | src/database/actions/session-messages-actions.ts:85-118 | the database steps as the update function says |
| SessionMessagesActions.DeleteMessage | src/database/actions/session-messages-actions.ts:120-132 | true when the message was deleted; false and nothing deleted when the call threw |
| SessionMessagesActions.FindMessagesSort | src/database/actions/session-messages-actions.ts:142 | the given sort, else `createdAt` |
| SessionMessagesActions.FindMessagesDefaultOrder | src/database/actions/session-messages-actions.ts:142 | without a sort the listing runs by creation time, ascending |
| SessionMessagesActions.FindMessages | src/database/actions/session-messages-actions.ts:142-158 | the matching ids in the requested order; None when the call throws |
| UserProjectsActions.UserProjectIds | src/database/actions/user-projects-actions.ts:52-56 | the user's list as ids without `null`/`undefined`; anything but an array gives none |
| UserProjectsActions.CreateUserProjectNeedsUser | src/database/actions/user-projects-actions.ts:24-29 | without a signed-in user the call throws and writes nothing |
| UserProjectsActions.LinkProjectScope | src/database/actions/user-projects-actions.ts:59-68 | an id already listed writes nothing; otherwise only the user's document changes |
| UserProjectsActions.LinkProjectAppends | src/database/actions/user-projects-actions.ts:52-68 | the id ends in the list; a list that lacked it becomes the old ids and the new one, gaining no repeat |
| UserProjectsActions.CreateUserProjectEffect | src/database/actions/user-projects-actions.ts:19-79 | a created project is new under the generated id and the user's list holds it; sessions and messages do not change |
| UserProjectsActions.CreateUserProjectLinks | src/database/actions/user-projects-actions.ts:52-68 | the user's list holds the new id; a list that lacked it is the normalised old ids followed by the new one |
| UserProjectsActions.CreateUserProject | src/database/actions/user-projects-actions.ts:19-79 | the store calls in order, rethrowing the first error |
| UserProjectsActions.GetUserProjectById | src/database/actions/user-projects-actions.ts:81-94 | the project, or None on error |
| UserProjectsActions.UpdateUserProject | src/database/actions/user-projects-actions.ts:102-122 | the updated project, or None and nothing written on error |
| UserProjectsActions.DeleteUserProject | src/database/actions/user-projects-actions.ts:124-136 | true when deleted; false and nothing deleted on error |
| UserProjectsActions.FindUserProjects | src/database/actions/user-projects-actions.ts:146-162 | the matching ids, or None on error |
| UsersActions.GetCurrentUser | src/database/actions/users-actions.ts:14-26 | the signed-in user's document, None without one or on error |
| UsersActions.IsAuthenticated | src/database/actions/users-actions.ts:171-174 | true exactly when a user is signed in |
| UsersActions.UpdateUserEffect | src/database/actions/users-actions.ts:41-53 | only the user or an admin may update; a success changes only that user, as the data says |
| UsersActions.SettingsAgreeWithUpdateUser | src/database/actions/users-actions.ts:68-115 | writes what `updateUser` writes; success exactly when it answers a document; the fixed messages for success and refusal; a thrown error's message |
| UsersActions.UpdateUser | src/database/actions/users-actions.ts:31-63 | the database steps as the function says |
| UsersActions.UpdateUserSettings | src/database/actions/users-actions.ts:68-115 | the database and the answer as the function says |
| UsersActions.HeaderOr | src/database/actions/users-actions.ts:138-139 | a missing or empty header gives the fallback |
| UsersActions.BaseUrlDefaults | src/database/actions/users-actions.ts:138-140 | without headers the origin is `http://localhost:3000`; with both it is `proto://host` |
| UsersActions.LogoutUser | src/database/actions/users-actions.ts:120-166 | nobody signed in succeeds without a request; otherwise one request to the logout URL, success exactly when it answers ok, the fixed or thrown message otherwise |
| AppContext.SegmentEnd | src/providers/app-context-provider.tsx:18 | the end of the run of non-slash characters at an index |
| AppContext.FirstMatchIndex | src/providers/app-context-provider.tsx:18 | the leftmost index at or after `i` where the pattern matches |
| AppContext.ExtractIds | src/providers/app-context-provider.tsx:16-23 | both ids or neither, never one |
| AppContext.MatchAtSound | src/providers/app-context-provider.tsx:18 | a match reads `/project/a/b` there, with `a` and `b` non-empty and slash-free |
| AppContext.MatchAtComplete | src/providers/app-context-provider.tsx:18 | wherever the path reads `/project/a/b`, the match there gives `a` and `b` |
| AppContext.ExtractIdsLeftmost | src/providers/app-context-provider.tsx:16-21 | the ids come from the leftmost place matching |
| AppContext.ExtractIdsNone | src/providers/app-context-provider.tsx:22 | no place matching gives both ids null |
| AppContext.ExtractIdsTrailing | src/providers/app-context-provider.tsx:16-21 | trailing text after `/project/a/b/` is ignored |
| AppContext.ExtractIdsOneSegment | src/providers/app-context-provider.tsx:18 | `/project/a` alone gives no ids |
| AppContext.ApplyModels | src/providers/app-context-provider.tsx:31-44 | a failed fetch empties the list; a non-array answer changes nothing; an array becomes the list |
| AppContext.SelectionAfterLoad | src/providers/app-context-provider.tsx:35-41 | from the default, the selection ends in the list, or at the default when the list is empty or starts with a falsy entry |
| AppContext.SelectionKeptWhenDefaultListed | src/providers/app-context-provider.tsx:35-41 | a list holding the default keeps any selection |
| AppContext.SelectionOverwrittenWhenDefaultUnlisted | src/providers/app-context-provider.tsx:37-40 | a list without the default sets the selection as if nothing had been chosen, so an earlier listed choice other than the first entry is lost |
| AppContext.ModelSelection.constructor | src/providers/app-context-provider.tsx:28-29 | no models and the default model selected |
| AppContext.ModelSelection.SetSelectedModel | src/providers/app-context-provider.tsx:29 | sets the selection and nothing else |
| AppContext.ModelSelection.OnModelsFetched | src/providers/app-context-provider.tsx:31-44 | the state after the effect is that of the effect's function |
| AppSidebar.ProjectIdOf | src/components/app-sidebar.tsx:43-45 | a found project id is a segment right after `/project/` |
| AppSidebar.ProjectIdOfShapes | src/components/app-sidebar.tsx:43-45 | `/project/x` and `/project/x/y` give `x` |
| AppSidebar.ProjectIdOfOnlyShapes | src/components/app-sidebar.tsx:43-45 | only those two shapes give an id |
| AppSidebar.PathReadingsAgree | src/components/app-sidebar.tsx:43-45 | on a session page sidebar and context agree; on a project page only the sidebar finds the project |
| AppSidebar.KeepSessions | src/components/app-sidebar.tsx:67-69 | only session objects, no more than the list |
| AppSidebar.KeepSessionsMembers | src/components/app-sidebar.tsx:67-69 | an entry is kept exactly when it is a session object |
| AppSidebar.KeepSessionsAppend | src/components/app-sidebar.tsx:67-69 | the filter keeps the list's order |
| AppSidebar.SessionsOf | src/components/app-sidebar.tsx:67-69 | no project or no list gives no sessions; an array gives its session objects |
| AppSidebar.ProjectItems | src/components/app-sidebar.tsx:55 | one item per project, in order; no answer gives none |
| AppSidebar.ProjectItemsOf | src/components/app-sidebar.tsx:72-76 | one item per project, in order |
| AppSidebar.ProjectItemLeadsToProject | src/components/app-sidebar.tsx:72-76 | the title is the name or `Unnamed Project`; the url leads to a page the sidebar reads as that project |
| AppSidebar.SelectedSessionIsOpen | src/components/app-sidebar.tsx:207 | selected exactly when the path is `/project/<project>/<session>` |
| AppSidebar.NavigationAfterCreate | src/components/app-sidebar.tsx:89-90 | navigates exactly when the new session has a truthy id, to a page on which it is selected |
| AppSidebar.RenameStart | src/components/app-sidebar.tsx:122-125 | the session's name, or empty without one |
| AppSidebar.RenameRequest | src/components/app-sidebar.tsx:131-147 | a request exactly while a rename is open, for a name not blank when trimmed and differing untrimmed; the name sent is trimmed |
| AppSidebar.RenameUnchangedIsNoop | src/components/app-sidebar.tsx:133-136 | an unchanged name is never sent |
| AppSidebar.SidebarState.constructor | src/components/app-sidebar.tsx:118-120 | nothing creating, no rename open |
| AppSidebar.SidebarState.HandleCreateSession | src/components/app-sidebar.tsx:83-101 | no project does nothing; otherwise it asks for a session in the project and clears the flag |
| AppSidebar.SidebarState.HandleDeleteSession | src/components/app-sidebar.tsx:104-115 | asks to delete that session and clears the busy flag |
| AppSidebar.SidebarState.HandleStartRename | src/components/app-sidebar.tsx:122-125 | opens the rename with the session's name |
| AppSidebar.SidebarState.HandleRenameChange | src/components/app-sidebar.tsx:127-129 | sets the rename text only |
| AppSidebar.SidebarState.HandleRenameBlurOrSubmit | src/components/app-sidebar.tsx:131-147 | sends the request `RenameRequest` allows; an open rename is always closed |

## Left out

- Payload CMS itself is reduced to the in-memory `Store`. Not modelled: `depth` population, pagination, `limit`, access control, Postgres, `revalidatePath`, and `where` clauses other than conjunctions of field `equals` tests, which `findMessages` and `findUserProjects` would pass through unchanged.
- GetSessionMessages: the `find` passes no `limit`, so the program receives only Payload's default first page of results. The model lists every match, because pagination is not modelled.
- The collection configs of users and projects, `src/payload.config.ts` and the generated types are not part of this model beyond the record shapes they give.
- Console logging is left out. So are the Zod issue texts and `flatten()`: a parts rejection carries only its fixed prefix.
- The clock, the ISO normaliser and the URL check are parameters, not implementations.
- JavaScript numbers are integers here: no floating point, no NaN.
- Async interleaving is left out: each action is a sequence of atomic store steps.
- `getSessionById`, `updateSession` and `findSessions` are left out. Each is a single store call behind a try/catch, the shape `GetMessageById`, `UpdateUserProject` and `FindUserProjects` already model.
- `requireAuth` is left out: its `redirect` is Next.js control flow.
- The `!project`, `!updatedUser` and `!currentUser` checks never fire in the model. A missing id makes the store raise NotFound, as Payload does, so those branches are dead.
- A session name that is not a string starts a rename from "".
- Toasts, `router.push`, `mutateProject`/SWR refetches and every JSX rendering are left out. `HighlightedPre` and shiki are left out as well.
- The model-selection effect closes over the state at mount. `ApplyModels` therefore tests membership against the default model, as the code does.
- The loops of `saveSessionMessages` and of the `beforeDelete` hook are factored into their own methods. These are `SaveEach`, `MergeIds` and `DeleteEach`.
- The `beforeDelete` hook runs before the lookup of the session being deleted, which is the order Payload uses.
- The `Set` of processed ids is an insertion-ordered sequence without repeats, not a JavaScript object.
- `metadata || undefined` counts a falsy metadata value as absent.
- The editor and npm tools' HTTP calls are parameters: what `fetch` answers.
- `Code` copies array children as the code does (as ""); the intended copy text is `CodeCorrected`, which nothing else in the model depends on.

## Findings

| source | as written | input that shows it | evidently intended | confidence | as-written member | corrected member |
|---|---|---|---|---|---|---|
| src/components/ui/markdown-renderer.tsx:115-118 | a `children` that is not a string goes to `childrenTakeAllStringContents`, which reads `props.children` and so gives "" for an array of strings (lines 145-163) | code children `["a", "b"]` | copy text "ab", the strings joined as for an element's array children | medium, not executed | MarkdownRenderer.CodeArrayChildrenCopy | MarkdownRenderer.CodeCorrected |
