/**
 * The client's application context (src/providers/app-context-provider.tsx):
 * the project and session ids read off the current path, and the list of
 * available models with the selected one, updated once the model list
 * has been fetched.
 */
module AppContext {
  import opened Wrappers
  import opened Strings
  import opened Json

  // ---------------------------------------------------------------------------
  // extractIdsFromPath
  // ---------------------------------------------------------------------------

  /** The literal that starts a project path. */
  const ProjectPrefix := "/project/"

  /** `x` holds no slash. */
  predicate SlashFree(x: string) {
    forall k :: 0 <= k < |x| ==> x[k] != '/'
  }

  /** What `[^/]+` matches: a non-empty run without slashes. */
  predicate Segment(x: string) {
    |x| > 0 && SlashFree(x)
  }

  /** The end of the run of non-slash characters of `s` that starts at `i`. */
  function SegmentEnd(s: string, i: nat): (j: nat)
    requires i <= |s|
    ensures i <= j <= |s|
    ensures forall k :: i <= k < j ==> s[k] != '/'
    ensures j < |s| ==> s[j] == '/'
    decreases |s| - i
  {
    if i < |s| && s[i] != '/' then SegmentEnd(s, i + 1) else i
  }

  /**
   * The regular expression `\/project\/([^/]+)\/([^/]+)` tried at index
   * `i`: the prefix, a first segment, a slash and a second segment, each
   * segment as long as the slashes allow.
   */
  function MatchAt(s: string, i: nat): Option<(string, string)>
    requires i <= |s|
  {
    if !StartsWith(s[i..], ProjectPrefix) then None
    else
      var a := i + |ProjectPrefix|;
      var e1 := SegmentEnd(s, a);
      if e1 == a || e1 == |s| then None
      else
        var e2 := SegmentEnd(s, e1 + 1);
        if e2 == e1 + 1 then None else Some((s[a..e1], s[e1 + 1..e2]))
  }

  /**
   * The index of the leftmost match at or after `i`, as
   * `String.prototype.match` finds it; `|s| + 1` when there is none.
   */
  function FirstMatchIndex(s: string, i: nat): (k: nat)
    requires i <= |s|
    ensures i <= k <= |s| + 1
    ensures k <= |s| ==> MatchAt(s, k).Some?
    ensures forall j :: i <= j < k && j <= |s| ==> MatchAt(s, j).None?
    decreases |s| - i
  {
    if MatchAt(s, i).Some? then i
    else if i == |s| then |s| + 1
    else FirstMatchIndex(s, i + 1)
  }

  /** The ids the context exposes; both are None without a match. */
  datatype PathIds = PathIds(projectId: Option<string>, projectSessionId: Option<string>)

  /** `extractIdsFromPath`. */
  function ExtractIds(path: string): (r: PathIds)
    ensures r.projectId.Some? <==> r.projectSessionId.Some?
  {
    var k := FirstMatchIndex(path, 0);
    if k <= |path| then
      var m := MatchAt(path, k).value;
      PathIds(Some(m.0), Some(m.1))
    else PathIds(None, None)
  }

  /**
   * The path reads `/project/a/b` from index `i` on, and the second
   * segment ends at the end of the path or at a slash.
   */
  predicate IdsAt(s: string, i: nat, a: string, b: string) {
    var e1 := i + |ProjectPrefix| + |a|;
    var e2 := e1 + 1 + |b|;
    && e2 <= |s|
    && s[i..i + |ProjectPrefix|] == ProjectPrefix
    && s[i + |ProjectPrefix|..e1] == a
    && s[e1] == '/'
    && s[e1 + 1..e2] == b
    && Segment(a) && Segment(b)
    && (e2 == |s| || s[e2] == '/')
  }

  /** A run of non-slash characters that stops at a slash or at the end is the one `SegmentEnd` finds. */
  lemma SegmentEndAt(s: string, i: nat, x: string)
    requires i + |x| <= |s| && s[i..i + |x|] == x && SlashFree(x)
    requires i + |x| == |s| || s[i + |x|] == '/'
    ensures SegmentEnd(s, i) == i + |x|
  {
  }

  /** What a match at `i` returns is exactly what the path reads there. */
  lemma MatchAtSound(s: string, i: nat)
    requires i <= |s| && MatchAt(s, i).Some?
    ensures IdsAt(s, i, MatchAt(s, i).value.0, MatchAt(s, i).value.1)
  {
  }

  /** Wherever the path reads `/project/a/b`, the match at that index returns `a` and `b`. */
  lemma MatchAtComplete(s: string, i: nat, a: string, b: string)
    requires i <= |s| && IdsAt(s, i, a, b)
    ensures MatchAt(s, i) == Some((a, b))
  {
    var p := i + |ProjectPrefix|;
    assert s[i..][..|ProjectPrefix|] == ProjectPrefix;
    SegmentEndAt(s, p, a);
    SegmentEndAt(s, p + |a| + 1, b);
  }

  /**
   * The ids come from the leftmost place where the path reads
   * `/project/a/b`; no earlier index matches.
   */
  lemma ExtractIdsLeftmost(path: string)
    requires ExtractIds(path).projectId.Some?
    ensures exists i :: (0 <= i <= |path|
      && IdsAt(path, i, ExtractIds(path).projectId.value, ExtractIds(path).projectSessionId.value)
      && forall j :: 0 <= j < i ==> MatchAt(path, j).None?)
  {
    var k := FirstMatchIndex(path, 0);
    MatchAtSound(path, k);
  }

  /** A path with no place reading `/project/a/b` gives no ids. */
  lemma ExtractIdsNone(path: string)
    requires forall i, a, b :: 0 <= i <= |path| ==> !IdsAt(path, i, a, b)
    ensures ExtractIds(path) == PathIds(None, None)
  {
    var k := FirstMatchIndex(path, 0);
    if k <= |path| {
      MatchAtSound(path, k);
    }
  }

  /** `/project/a/b` followed by nothing or by a further path gives `a` and `b`. */
  lemma ExtractIdsTrailing(a: string, b: string, rest: string)
    requires Segment(a) && Segment(b) && (rest == "" || rest[0] == '/')
    ensures ExtractIds(ProjectPrefix + a + "/" + b + rest) == PathIds(Some(a), Some(b))
  {
    var s := ProjectPrefix + a + "/" + b + rest;
    assert IdsAt(s, 0, a, b);
    MatchAtComplete(s, 0, a, b);
  }

  /** `/project/a` without a second segment gives no ids at all. */
  lemma ExtractIdsOneSegment(a: string)
    requires SlashFree(a)
    ensures ExtractIds(ProjectPrefix + a) == PathIds(None, None)
  {
    var s := ProjectPrefix + a;
    forall i | 0 <= i <= |s| ensures MatchAt(s, i).None? {
      if MatchAt(s, i).Some? {
        assert false;
      }
    }
  }

  // ---------------------------------------------------------------------------
  // Available and selected models
  // ---------------------------------------------------------------------------

  /** The model selected before any choice. */
  const DefaultModel := "claude-opus-4-20250514"

  /** What the request for the model list came to: the parsed body, or a failure of the request or of the parse. */
  datatype ModelsFetch = Loaded(data: Json) | FetchFailed

  /** `data && data.models`, read as `Array.isArray` sees it: only an object can hold a `models` array. */
  function ModelsOf(data: Json): Json {
    if data.JObj? then Get(data.fields, "models") else JUndef
  }

  /**
   * The state after the fetch. The effect closes over the selection made
   * when the component mounted, so the test for membership is against
   * the default model, not against a selection made since.
   */
  function ApplyModels(available: seq<Json>, selected: Json, fetch: ModelsFetch): (r: (seq<Json>, Json))
    ensures fetch.FetchFailed? ==> r == ([], selected)
    ensures fetch.Loaded? && !ModelsOf(fetch.data).JArr? ==> r == (available, selected)
    ensures fetch.Loaded? && ModelsOf(fetch.data).JArr? ==> r.0 == ModelsOf(fetch.data).items
  {
    match fetch
    case FetchFailed => ([], selected)
    case Loaded(data) =>
      var models := ModelsOf(data);
      if !Truthy(data) || !models.JArr? then (available, selected)
      else if JStr(DefaultModel) in models.items then (models.items, selected)
      else (models.items, Or(if |models.items| > 0 then models.items[0] else JUndef, JStr(DefaultModel)))
  }

  /**
   * From the initial selection, a loaded list leaves the selection inside
   * the list, or at the default when the list is empty or begins with a
   * falsy entry; a list holding the default keeps it selected.
   */
  lemma SelectionAfterLoad(available: seq<Json>, fetch: ModelsFetch)
    requires fetch.Loaded? && ModelsOf(fetch.data).JArr?
    ensures var r := ApplyModels(available, JStr(DefaultModel), fetch);
      var ms := ModelsOf(fetch.data).items;
      && (r.1 in ms || r.1 == JStr(DefaultModel))
      && (JStr(DefaultModel) !in ms && |ms| > 0 && Truthy(ms[0]) ==> r.1 == ms[0])
      && (JStr(DefaultModel) !in ms && |ms| > 0 && !Truthy(ms[0]) ==> r.1 == JStr(DefaultModel))
      && (|ms| == 0 ==> r.1 == JStr(DefaultModel))
  {
  }

  /**
   * Because the membership test looks at the default model, a model
   * chosen before the list arrives survives a list that holds the
   * default, even when the list does not hold the chosen model.
   */
  lemma SelectionKeptWhenDefaultListed(available: seq<Json>, selected: Json, fetch: ModelsFetch)
    requires fetch.Loaded? && ModelsOf(fetch.data).JArr? && JStr(DefaultModel) in ModelsOf(fetch.data).items
    ensures ApplyModels(available, selected, fetch).1 == selected
  {
  }

  /**
   * The other half of the same test: when the list does not hold the
   * default, the selection becomes its first entry (or the default when
   * that is falsy) whatever was selected before, so a listed model chosen
   * before the list arrives is overwritten unless it comes first.
   */
  lemma SelectionOverwrittenWhenDefaultUnlisted(available: seq<Json>, selected: Json, fetch: ModelsFetch)
    requires fetch.Loaded? && ModelsOf(fetch.data).JArr? && JStr(DefaultModel) !in ModelsOf(fetch.data).items
    ensures ApplyModels(available, selected, fetch).1 == ApplyModels(available, JStr(DefaultModel), fetch).1
    ensures var ms := ModelsOf(fetch.data).items;
      selected in ms && selected != ms[0] ==> ApplyModels(available, selected, fetch).1 != selected
  {
  }

  /** The context's model state. */
  class ModelSelection {
    var availableModels: seq<Json>
    var selectedModel: Json

    constructor()
      ensures availableModels == [] && selectedModel == JStr(DefaultModel)
    {
      availableModels := [];
      selectedModel := JStr(DefaultModel);
    }

    /** `setSelectedModel`. */
    method SetSelectedModel(m: Json)
      modifies this
      ensures selectedModel == m && availableModels == old(availableModels)
    {
      selectedModel := m;
    }

    /** The effect's continuation once the model list request has settled. */
    method OnModelsFetched(fetch: ModelsFetch)
      modifies this
      ensures (availableModels, selectedModel) == ApplyModels(old(availableModels), old(selectedModel), fetch)
    {
      match fetch {
        case FetchFailed =>
          availableModels := [];
        case Loaded(data) =>
          var models := ModelsOf(data);
          if Truthy(data) && models.JArr? {
            availableModels := models.items;
            if JStr(DefaultModel) !in models.items {
              selectedModel := Or(if |models.items| > 0 then models.items[0] else JUndef, JStr(DefaultModel));
            }
          }
      }
    }
  }
}
