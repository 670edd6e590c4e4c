/**
 * The codebase tools the chat agent calls
 * (src/providers/tools-provider/codebase-tool.ts): the editor command's
 * argument schema with its cross-field rules, the request body the editor
 * command sends, and how the three tools shape the backend's answer into
 * the value handed back to the model.
 *
 * The HTTP exchange itself is a parameter: `Fetched` is either the status
 * flag and decoded JSON body of a response, or the value `fetch` (or
 * `response.json()`) threw.
 */
module CodebaseTool {
  import opened Wrappers
  import opened Strings
  import opened Json

  // ---------------------------------------------------------------------------
  // Enumerations
  // ---------------------------------------------------------------------------

  /** `z.enum(["view", "create", "str_replace", "insert", "undo_edit"])`. */
  datatype Command = View | Create | StrReplace | Insert | UndoEdit {
    function Name(): string {
      match this
      case View => "view"
      case Create => "create"
      case StrReplace => "str_replace"
      case Insert => "insert"
      case UndoEdit => "undo_edit"
    }
  }

  function ParseCommand(s: string): (r: Option<Command>)
    ensures r.Some? ==> r.value.Name() == s
    ensures r.None? <==> s !in {"view", "create", "str_replace", "insert", "undo_edit"}
  {
    if s == "view" then Some(View)
    else if s == "create" then Some(Create)
    else if s == "str_replace" then Some(StrReplace)
    else if s == "insert" then Some(Insert)
    else if s == "undo_edit" then Some(UndoEdit)
    else None
  }

  /** Every command's name parses back to that command. */
  lemma CommandRoundTrip(c: Command)
    ensures ParseCommand(c.Name()) == Some(c)
  {
  }

  /** `z.enum(["lint", "format"])`. */
  datatype Script = Lint | Format {
    function Name(): string {
      match this
      case Lint => "lint"
      case Format => "format"
    }
  }

  function ParseScript(s: string): (r: Option<Script>)
    ensures r.Some? ==> r.value.Name() == s
    ensures r.None? <==> s != "lint" && s != "format"
  {
    if s == "lint" then Some(Lint) else if s == "format" then Some(Format) else None
  }

  lemma ScriptRoundTrip(c: Script)
    ensures ParseScript(c.Name()) == Some(c)
  {
  }

  // ---------------------------------------------------------------------------
  // Editor command arguments
  // ---------------------------------------------------------------------------

  /** The editor command's arguments once the object schema has accepted their types. */
  datatype EditorArgs = EditorArgs(
    url: string,
    command: Command,
    path: Option<string>,
    paths: Option<seq<string>>,
    fileText: Option<string>,
    insertLine: Option<int>,
    newStr: Option<string>,
    oldStr: Option<string>,
    viewRange: Option<seq<int>>)

  /** `data.path` is truthy: given and non-empty. */
  predicate HasPath(a: EditorArgs) {
    a.path.Some? && a.path.value != ""
  }

  /** `data.paths && data.paths.length > 0`. */
  predicate HasPaths(a: EditorArgs) {
    a.paths.Some? && |a.paths.value| > 0
  }

  /** An issue `superRefine` adds: its message and the argument path it points at. */
  datatype Issue = Issue(message: string, at: seq<string>)

  const ViewNeedsOne := "For 'view' command, either 'path' (for single file) or a non-empty 'paths' array (for multiple files) must be provided."
  const ViewNotBoth := "For 'view' command, provide either 'path' or 'paths', not both."

  /** The issues the `superRefine` rules add for parsed arguments, in the order they are added. */
  function Issues(a: EditorArgs): seq<Issue> {
    if a.command == View then
      (if !HasPath(a) && !HasPaths(a)
       then [Issue(ViewNeedsOne, ["path"]), Issue(ViewNeedsOne, ["paths"])] else [])
      + (if HasPath(a) && HasPaths(a) then [Issue(ViewNotBoth, ["path", "paths"])] else [])
    else
      (if !HasPath(a) then [Issue("'path' is required for command '" + a.command.Name() + "'.", ["path"])] else [])
      + (if HasPaths(a) then [Issue("'paths' should not be provided for command '" + a.command.Name() + "'.", ["paths"])] else [])
  }

  /** The rules accept the arguments. */
  predicate Refined(a: EditorArgs) {
    Issues(a) == []
  }

  /**
   * The decision table of the rules: a view names exactly one of a
   * non-empty `path` and a non-empty `paths`; every other command names a
   * non-empty `path` and no non-empty `paths` (an empty `paths` array is
   * tolerated).
   */
  lemma RefinedDecision(a: EditorArgs)
    ensures a.command == View ==> (Refined(a) <==> HasPath(a) != HasPaths(a))
    ensures a.command != View ==> (Refined(a) <==> HasPath(a) && !HasPaths(a))
  {
  }

  /** A view with neither reports the same problem twice, once against each argument; a view with both reports one issue. */
  lemma ViewIssues(a: EditorArgs)
    requires a.command == View
    ensures !HasPath(a) && !HasPaths(a) ==>
      Issues(a) == [Issue(ViewNeedsOne, ["path"]), Issue(ViewNeedsOne, ["paths"])]
    ensures HasPath(a) && HasPaths(a) ==> Issues(a) == [Issue(ViewNotBoth, ["path", "paths"])]
  {
  }

  /** For any other command the missing path is reported before the unwanted paths, each naming the command. */
  lemma OtherCommandIssues(a: EditorArgs)
    requires a.command != View
    ensures |Issues(a)| == (if HasPath(a) then 0 else 1) + (if HasPaths(a) then 1 else 0)
    ensures !HasPath(a) ==> Issues(a)[0].at == ["path"] && Issues(a)[0].message == "'path' is required for command '" + a.command.Name() + "'."
    ensures HasPaths(a) ==> Issues(a)[|Issues(a)| - 1].at == ["paths"]
  {
  }

  // ---------------------------------------------------------------------------
  // The parameter schema on raw arguments
  // ---------------------------------------------------------------------------

  /** `z.array(z.string())` on the items of an array. */
  function StringItems(xs: seq<Json>): (r: Option<seq<string>>)
    ensures r.Some? <==> forall i :: 0 <= i < |xs| ==> xs[i].JStr?
    ensures r.Some? ==> |r.value| == |xs| && forall i :: 0 <= i < |xs| ==> r.value[i] == xs[i].s
  {
    if |xs| == 0 then Some([])
    else
      var tail := StringItems(xs[1..]);
      if xs[0].JStr? && tail.Some? then Some([xs[0].s] + tail.value) else None
  }

  /** `z.array(z.number())` on the items of an array. */
  function NumberItems(xs: seq<Json>): (r: Option<seq<int>>)
    ensures r.Some? <==> forall i :: 0 <= i < |xs| ==> xs[i].JNum?
    ensures r.Some? ==> |r.value| == |xs| && forall i :: 0 <= i < |xs| ==> r.value[i] == xs[i].n
  {
    if |xs| == 0 then Some([])
    else
      var tail := NumberItems(xs[1..]);
      if xs[0].JNum? && tail.Some? then Some([xs[0].n] + tail.value) else None
  }

  /** The outcome of an optional field: None when its type is wrong, Some(None) when it is absent or `undefined`. */
  function OptString(m: Record, k: string): Option<Option<string>> {
    var v := Get(m, k);
    if v == JUndef then Some(None) else if v.JStr? then Some(Some(v.s)) else None
  }

  function OptInt(m: Record, k: string): Option<Option<int>> {
    var v := Get(m, k);
    if v == JUndef then Some(None) else if v.JNum? then Some(Some(v.n)) else None
  }

  function OptStrings(m: Record, k: string): Option<Option<seq<string>>> {
    var v := Get(m, k);
    if v == JUndef then Some(None)
    else if v.JArr? && StringItems(v.items).Some? then Some(Some(StringItems(v.items).value))
    else None
  }

  function OptNumbers(m: Record, k: string): Option<Option<seq<int>>> {
    var v := Get(m, k);
    if v == JUndef then Some(None)
    else if v.JArr? && NumberItems(v.items).Some? then Some(Some(NumberItems(v.items).value))
    else None
  }

  /**
   * The editor command's parameter schema on raw arguments: the object
   * schema checks each field's type, and only when it succeeds do the
   * cross-field rules run.
   */
  function ParseEditorArgs(j: Json): (r: Option<EditorArgs>)
    ensures r.Some? ==> Refined(r.value)
    ensures r.Some? ==> j.JObj? && Get(j.fields, "command") == JStr(r.value.command.Name())
    ensures r.Some? ==> Encodes(j.fields, r.value)
    ensures j.JObj? ==> forall a :: Encodes(j.fields, a) && Refined(a) ==> r == Some(a)
  {
    if !j.JObj? then None
    else
      var m := j.fields;
      EncodedFieldsAll(m);
      var url := Get(m, "url");
      var cmd := Get(m, "command");
      var command := if cmd.JStr? then ParseCommand(cmd.s) else None;
      var path := OptString(m, "path");
      var paths := OptStrings(m, "paths");
      var fileText := OptString(m, "file_text");
      var insertLine := OptInt(m, "insert_line");
      var newStr := OptString(m, "new_str");
      var oldStr := OptString(m, "old_str");
      var viewRange := OptNumbers(m, "view_range");
      if url.JStr? && command.Some? && path.Some? && paths.Some? && fileText.Some? && insertLine.Some?
         && newStr.Some? && oldStr.Some? && viewRange.Some?
      then
        var a := EditorArgs(url.s, command.value, path.value, paths.value, fileText.value,
                            insertLine.value, newStr.value, oldStr.value, viewRange.value);
        if Refined(a) then Some(a) else None
      else None
  }

  /** The arguments `a` written as an object's fields, an absent optional field left `undefined`. */
  predicate Encodes(m: Record, a: EditorArgs) {
    && Get(m, "url") == JStr(a.url)
    && Get(m, "command") == JStr(a.command.Name())
    && Get(m, "path") == StrValue(a.path)
    && Get(m, "paths") == (if a.paths.Some? then StringsValue(a.paths.value) else JUndef)
    && Get(m, "file_text") == StrValue(a.fileText)
    && Get(m, "insert_line") == (if a.insertLine.Some? then JNum(a.insertLine.value) else JUndef)
    && Get(m, "new_str") == StrValue(a.newStr)
    && Get(m, "old_str") == StrValue(a.oldStr)
    && Get(m, "view_range") == NumbersValue(a.viewRange)
  }

  /** Each field of encoded arguments parses back to the argument it encodes. */
  lemma EncodedFields(m: Record, a: EditorArgs)
    requires Encodes(m, a)
    ensures Get(m, "url").JStr? && Get(m, "url").s == a.url
    ensures Get(m, "command").JStr? && ParseCommand(Get(m, "command").s) == Some(a.command)
    ensures OptString(m, "path") == Some(a.path) && OptString(m, "file_text") == Some(a.fileText)
    ensures OptString(m, "new_str") == Some(a.newStr) && OptString(m, "old_str") == Some(a.oldStr)
    ensures OptInt(m, "insert_line") == Some(a.insertLine)
    ensures OptStrings(m, "paths") == Some(a.paths)
    ensures OptNumbers(m, "view_range") == Some(a.viewRange)
  {
    CommandRoundTrip(a.command);
    if a.paths.Some? {
      var items := Get(m, "paths").items;
      var parsed := StringItems(items);
      assert parsed.Some?;
      assert parsed.value == a.paths.value;
    }
    if a.viewRange.Some? {
      var items := Get(m, "view_range").items;
      assert forall i :: 0 <= i < |items| ==> items[i] == JNum(a.viewRange.value[i]);
      var parsed := NumberItems(items);
      assert parsed.value == a.viewRange.value;
    }
  }

  /** `EncodedFields` for every encoding of the same fields. */
  lemma EncodedFieldsAll(m: Record)
    ensures forall a :: Encodes(m, a) ==>
      && Get(m, "url").JStr? && Get(m, "url").s == a.url
      && Get(m, "command").JStr? && ParseCommand(Get(m, "command").s) == Some(a.command)
      && OptString(m, "path") == Some(a.path) && OptString(m, "file_text") == Some(a.fileText)
      && OptString(m, "new_str") == Some(a.newStr) && OptString(m, "old_str") == Some(a.oldStr)
      && OptInt(m, "insert_line") == Some(a.insertLine)
      && OptStrings(m, "paths") == Some(a.paths)
      && OptNumbers(m, "view_range") == Some(a.viewRange)
  {
    forall a | Encodes(m, a) {
      EncodedFields(m, a);
    }
  }

  /** The parameter schema accepts an object exactly when its fields encode arguments the rules accept, and gives those. */
  lemma ParseEditorArgsAcceptance(j: Json)
    ensures ParseEditorArgs(j).Some? <==> j.JObj? && exists a :: Encodes(j.fields, a) && Refined(a)
  {
    var r := ParseEditorArgs(j);
    if r.Some? {
      assert Encodes(j.fields, r.value) && Refined(r.value);
    }
  }

  // ---------------------------------------------------------------------------
  // The request body
  // ---------------------------------------------------------------------------

  function StrValue(s: Option<string>): Json {
    if s.Some? then JStr(s.value) else JUndef
  }

  function StringsValue(xs: seq<string>): (r: Json)
    ensures r.JArr? && |r.items| == |xs| && forall i :: 0 <= i < |xs| ==> r.items[i] == JStr(xs[i])
  {
    JArr(seq(|xs|, i requires 0 <= i < |xs| => JStr(xs[i])))
  }

  function NumbersValue(xs: Option<seq<int>>): Json {
    if xs.Some? then JArr(seq(|xs.value|, i requires 0 <= i < |xs.value| => JNum(xs.value[i]))) else JUndef
  }

  /**
   * Builds the editor command's request body. `command` and `view_range`
   * are always there (`view_range` as `undefined` when not given); a view
   * with a non-empty `paths` sends `paths` and no `path`, every other call
   * sends `path` and no `paths`; the four optional payload fields appear
   * exactly when they were supplied, with the value supplied.
   */
  method BuildBody(a: EditorArgs) returns (body: Record)
    ensures body.Keys <= {"command", "view_range", "path", "paths", "file_text", "insert_line", "new_str", "old_str"}
    ensures "command" in body && body["command"] == JStr(a.command.Name())
    ensures "view_range" in body && body["view_range"] == NumbersValue(a.viewRange)
    ensures "paths" in body <==> a.command == View && HasPaths(a)
    ensures "paths" in body ==> body["paths"] == StringsValue(a.paths.value)
    ensures "path" in body <==> "paths" !in body
    ensures "path" in body ==> body["path"] == StrValue(a.path)
    ensures Refined(a) && "path" in body ==> body["path"].JStr? && body["path"].s != ""
    ensures "file_text" in body <==> a.fileText.Some?
    ensures "file_text" in body ==> body["file_text"] == JStr(a.fileText.value)
    ensures "insert_line" in body <==> a.insertLine.Some?
    ensures "insert_line" in body ==> body["insert_line"] == JNum(a.insertLine.value)
    ensures "new_str" in body <==> a.newStr.Some?
    ensures "new_str" in body ==> body["new_str"] == JStr(a.newStr.value)
    ensures "old_str" in body <==> a.oldStr.Some?
    ensures "old_str" in body ==> body["old_str"] == JStr(a.oldStr.value)
  {
    body := map["command" := JStr(a.command.Name()), "view_range" := NumbersValue(a.viewRange)];
    if a.command == View {
      if a.paths.Some? && |a.paths.value| > 0 {
        body := body["paths" := StringsValue(a.paths.value)];
      } else {
        body := body["path" := StrValue(a.path)];
      }
    } else {
      body := body["path" := StrValue(a.path)];
    }
    if a.fileText.Some? {
      body := body["file_text" := JStr(a.fileText.value)];
    }
    if a.insertLine.Some? {
      body := body["insert_line" := JNum(a.insertLine.value)];
    }
    if a.newStr.Some? {
      body := body["new_str" := JStr(a.newStr.value)];
    }
    if a.oldStr.Some? {
      body := body["old_str" := JStr(a.oldStr.value)];
    }
  }

  // ---------------------------------------------------------------------------
  // Shaping the backend's answer
  // ---------------------------------------------------------------------------

  /** What the HTTP exchange produced: the status flag and decoded body, or the value it threw. */
  datatype Fetched = Answered(ok: bool, data: Json) | FetchThrew(thrown: Thrown)

  function Failure(error: Json): Json {
    JObj(map["success" := JBool(false), "error" := error])
  }

  /** The `catch` branch: the tool's prefix followed by the thrown value's `message`. */
  function Caught(prefix: string, e: Thrown): Json {
    Failure(JStr(prefix + ErrorMessageProp(e)))
  }

  /** `a.k1 || a.k2 || … || fallback`, where reading from `null` or `undefined` throws. */
  function FirstTruthy(data: Json, keys: seq<string>, fallback: string): (r: Eval<Json>)
    ensures r.Throw? <==> |keys| > 0 && Nullish(data)
    ensures r.Value? && !Truthy(r.value) ==> r.value == JStr(fallback)
    ensures r.Value? && r.value != JStr(fallback) ==> exists i :: 0 <= i < |keys| && Read(data, keys[i]) == Value(r.value)
    ensures !Nullish(data) ==>
      forall i :: 0 <= i < |keys| && Truthy(OptProp(data, keys[i])) && (forall j :: 0 <= j < i ==> !Truthy(OptProp(data, keys[j]))) ==>
        r == Value(OptProp(data, keys[i]))
    ensures !Nullish(data) && (forall j :: 0 <= j < |keys| ==> !Truthy(OptProp(data, keys[j]))) ==> r == Value(JStr(fallback))
  {
    if |keys| == 0 then Value(JStr(fallback))
    else
      match Read(data, keys[0])
      case Throw(e) => Throw(e)
      case Value(v) =>
        if Truthy(v) then
          assert OptProp(data, keys[0]) == v;
          Value(v)
        else
          var rest := FirstTruthy(data, keys[1..], fallback);
          assert OptProp(data, keys[0]) == v;
          SkipFalsyKey(data, keys, fallback, rest);
          rest
  }

  /** A falsy first key passes the chain on to the remaining keys. */
  lemma SkipFalsyKey(data: Json, keys: seq<string>, fallback: string, rest: Eval<Json>)
    requires |keys| > 0 && !Nullish(data) && !Truthy(OptProp(data, keys[0]))
    requires rest.Value? && rest.value != JStr(fallback) ==> exists i :: 0 <= i < |keys[1..]| && Read(data, keys[1..][i]) == Value(rest.value)
    requires forall i :: 0 <= i < |keys[1..]| && Truthy(OptProp(data, keys[1..][i])) && (forall j :: 0 <= j < i ==> !Truthy(OptProp(data, keys[1..][j]))) ==>
               rest == Value(OptProp(data, keys[1..][i]))
    requires (forall j :: 0 <= j < |keys[1..]| ==> !Truthy(OptProp(data, keys[1..][j]))) ==> rest == Value(JStr(fallback))
    ensures rest.Value? && rest.value != JStr(fallback) ==> exists i :: 0 <= i < |keys| && Read(data, keys[i]) == Value(rest.value)
    ensures forall i :: 0 <= i < |keys| && Truthy(OptProp(data, keys[i])) && (forall j :: 0 <= j < i ==> !Truthy(OptProp(data, keys[j]))) ==>
              rest == Value(OptProp(data, keys[i]))
    ensures (forall j :: 0 <= j < |keys| ==> !Truthy(OptProp(data, keys[j]))) ==> rest == Value(JStr(fallback))
  {
    var tail := keys[1..];
    if rest.Value? && rest.value != JStr(fallback) {
      var i :| 0 <= i < |tail| && Read(data, tail[i]) == Value(rest.value);
      assert keys[i + 1] == tail[i];
    }
    forall i | 0 <= i < |keys| && Truthy(OptProp(data, keys[i])) && (forall j :: 0 <= j < i ==> !Truthy(OptProp(data, keys[j])))
      ensures rest == Value(OptProp(data, keys[i]))
    {
      assert i != 0;
      assert keys[i] == tail[i - 1];
      forall j | 0 <= j < i - 1 ensures !Truthy(OptProp(data, tail[j])) {
        assert tail[j] == keys[j + 1];
      }
    }
    if forall j :: 0 <= j < |keys| ==> !Truthy(OptProp(data, keys[j])) {
      forall j | 0 <= j < |tail| ensures !Truthy(OptProp(data, tail[j])) {
        assert tail[j] == keys[j + 1];
      }
    }
  }

  /** On an object, two keys and a fallback read exactly as the JavaScript chain `a.k1 || a.k2 || fallback`. */
  lemma FirstTruthyIsOrChain(data: Json, k1: string, k2: string, fallback: string)
    requires !Nullish(data)
    ensures FirstTruthy(data, [k1, k2], fallback) == Value(Or(Or(OptProp(data, k1), OptProp(data, k2)), JStr(fallback)))
  {
    var keys := [k1, k2];
    assert keys[0] == k1 && keys[1] == k2;
    OrAssociative(OptProp(data, k1), OptProp(data, k2), JStr(fallback));
  }

  /** The find-files tool's answer. */
  function FindFilesResult(f: Fetched): Json {
    match f
    case FetchThrew(e) => Caught("Failed to find files: ", e)
    case Answered(ok, data) =>
      if !ok then
        match FirstTruthy(data, ["message"], "Failed to find files")
        case Throw(e) => Caught("Failed to find files: ", e)
        case Value(v) => Failure(v)
      else
        match Read(data, "files")
        case Throw(e) => Caught("Failed to find files: ", e)
        case Value(files) =>
          var count := Or(OptProp(files, "length"), JNum(0));
          JObj(map["success" := JBool(true),
                   "files" := Or(files, JArr([])),
                   "message" := JStr("Found " + TemplateString(count) + " files matching criteria")])
  }

  /**
   * A non-OK answer is a failure carrying the server's message, or the
   * fixed default when that is missing; a network failure is a failure
   * carrying the thrown message after the tool's prefix.
   */
  lemma FindFilesFailures(f: Fetched)
    ensures f.Answered? && !f.ok && f.data.JObj? ==>
      FindFilesResult(f) == Failure(
        if Truthy(Get(f.data.fields, "message")) then Get(f.data.fields, "message") else JStr("Failed to find files"))
    ensures f.FetchThrew? ==>
      FindFilesResult(f) == Failure(JStr("Failed to find files: " + ErrorMessageProp(f.thrown)))
  {
  }

  /**
   * An OK answer whose `files` is an array returns those files and reports
   * their number; with no `files` it returns the empty list and reports 0.
   */
  lemma FindFilesSuccess(data: Record)
    ensures Get(data, "files").JArr? ==>
      FindFilesResult(Answered(true, JObj(data))) == JObj(map[
        "success" := JBool(true),
        "files" := Get(data, "files"),
        "message" := JStr("Found " + NatToString(|Get(data, "files").items|) + " files matching criteria")])
    ensures !Truthy(Get(data, "files")) ==>
      FindFilesResult(Answered(true, JObj(data))) == JObj(map[
        "success" := JBool(true),
        "files" := JArr([]),
        "message" := JStr("Found 0 files matching criteria")])
  {
    var files := Get(data, "files");
    assert Read(JObj(data), "files") == Value(files);
    if files.JArr? {
      var n := |files.items|;
      if n == 0 {
        assert OptProp(files, "length") == JNum(0);
        assert TemplateString(JNum(0)) == NatToString(0);
      } else {
        assert TemplateString(JNum(n)) == NatToString(n);
      }
    }
    if !Truthy(files) {
      assert Or(OptProp(files, "length"), JNum(0)) == JNum(0);
      assert Digit(0) == '0';
      assert TemplateString(JNum(0)) == "0";
      assert Or(files, JArr([])) == JArr([]);
      assert "Found " + "0" + " files matching criteria" == "Found 0 files matching criteria";
    }
  }

  /**
   * The answer of a tool that posts to the backend: the backend's body on
   * success; otherwise a failure whose error is the first truthy of
   * `errorKeys` in the body, else the fixed `failure` text; a thrown
   * request is a failure carrying the thrown message after `failure: `.
   */
  function BackendResult(f: Fetched, errorKeys: seq<string>, failure: string): (r: Json)
    ensures f.Answered? && f.ok ==> r == f.data
    ensures f.FetchThrew? ==> r == Caught(failure + ": ", f.thrown)
  {
    match f
    case FetchThrew(e) => Caught(failure + ": ", e)
    case Answered(ok, data) =>
      if ok then data
      else
        match FirstTruthy(data, errorKeys, failure)
        case Throw(e) => Caught(failure + ": ", e)
        case Value(v) => Failure(v)
  }

  /** The editor command's answer, falling back from `message` to `error`. */
  function EditorCommandResult(f: Fetched): Json {
    BackendResult(f, ["message", "error"], "Failed to execute editor command")
  }

  /** The npm script tool's answer, preferring `stderr` to `message`. */
  function NpmScriptResult(f: Fetched): Json {
    BackendResult(f, ["stderr", "message"], "Failed to run npm script")
  }

  /** A non-OK editor or npm answer is always a failure whose error is truthy: a server field or the tool's default. */
  lemma NonOkAnswersFail(data: Json)
    ensures var r := EditorCommandResult(Answered(false, data));
      r.JObj? && r.fields["success"] == JBool(false) && Truthy(r.fields["error"])
    ensures var r := NpmScriptResult(Answered(false, data));
      r.JObj? && r.fields["success"] == JBool(false) && Truthy(r.fields["error"])
    ensures data.JObj? && Truthy(Get(data.fields, "stderr")) ==>
      NpmScriptResult(Answered(false, data)) == Failure(Get(data.fields, "stderr"))
    ensures data.JObj? && Truthy(Get(data.fields, "message")) ==>
      EditorCommandResult(Answered(false, data)) == Failure(Get(data.fields, "message"))
    ensures data.JObj? && !Truthy(Get(data.fields, "stderr")) && Truthy(Get(data.fields, "message")) ==>
      NpmScriptResult(Answered(false, data)) == Failure(Get(data.fields, "message"))
    ensures data.JObj? && !Truthy(Get(data.fields, "message")) && Truthy(Get(data.fields, "error")) ==>
      EditorCommandResult(Answered(false, data)) == Failure(Get(data.fields, "error"))
  {
    if data.JObj? {
      var keys := ["message", "error"];
      assert keys[1..] == ["error"];
      assert FirstTruthy(data, keys[1..], "Failed to execute editor command") == FirstTruthy(data, ["error"], "Failed to execute editor command");
      if !Truthy(Get(data.fields, "message")) && Truthy(Get(data.fields, "error")) {
        assert FirstTruthy(data, ["error"], "Failed to execute editor command") == Value(Get(data.fields, "error"));
      }
    }
  }
}
