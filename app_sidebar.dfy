/**
 * The application sidebar (src/components/app-sidebar.tsx): the project id
 * read off the path by an anchored pattern, the sessions and project
 * links it lists, the test that marks the open session, and the handlers
 * that create and rename sessions.
 *
 * The server actions the handlers call are not run here: each handler
 * returns the request it makes, and the state it leaves behind.
 */
module AppSidebar {
  import opened Wrappers
  import opened Strings
  import opened Json
  import opened AppContext

  // ---------------------------------------------------------------------------
  // projectPathRegex
  // ---------------------------------------------------------------------------

  /** `^\/project\/([^\/]+)(?:\/[^\/]+)?$`: the first segment of a path of one or two segments under `/project/`. */
  function ProjectIdOf(path: string): (r: Option<string>)
    ensures r.Some? ==> Segment(r.value) && StartsWith(path, ProjectPrefix + r.value)
  {
    if !StartsWith(path, ProjectPrefix) then None
    else
      var a := |ProjectPrefix|;
      var e1 := SegmentEnd(path, a);
      if e1 == a then None
      else if e1 == |path| then Some(path[a..e1])
      else
        var e2 := SegmentEnd(path, e1 + 1);
        if e2 == e1 + 1 || e2 != |path| then None else Some(path[a..e1])
  }

  /** `/project/x` and `/project/x/y` give `x`. */
  lemma ProjectIdOfShapes(x: string, y: string)
    requires Segment(x)
    ensures ProjectIdOf(ProjectPrefix + x) == Some(x)
    ensures Segment(y) ==> ProjectIdOf(ProjectPrefix + x + "/" + y) == Some(x)
  {
    var p := ProjectPrefix + x;
    SegmentEndAt(p, |ProjectPrefix|, x);
    if Segment(y) {
      var q := ProjectPrefix + x + "/" + y;
      SegmentEndAt(q, |ProjectPrefix|, x);
      SegmentEndAt(q, |ProjectPrefix| + |x| + 1, y);
    }
  }

  /** Only those two shapes give an id: after `/project/x` comes nothing, or one slash and one more segment. */
  lemma ProjectIdOfOnlyShapes(path: string)
    requires ProjectIdOf(path).Some?
    ensures var x := ProjectIdOf(path).value;
      path == ProjectPrefix + x || (|path| > |ProjectPrefix| + |x| + 1 && path == ProjectPrefix + x + "/" + path[|ProjectPrefix| + |x| + 1..] && Segment(path[|ProjectPrefix| + |x| + 1..]))
  {
    var x := ProjectIdOf(path).value;
    var e1 := |ProjectPrefix| + |x|;
    assert path[..e1] == ProjectPrefix + x;
    if e1 < |path| {
      assert path == path[..e1] + "/" + path[e1 + 1..];
    }
  }

  /**
   * On a session page both readings of the path agree; on a project page
   * the sidebar finds the project while the context, which needs two
   * segments, finds nothing.
   */
  lemma PathReadingsAgree(x: string, y: string)
    requires Segment(x) && Segment(y)
    ensures ProjectIdOf(ProjectPrefix + x + "/" + y) == ExtractIds(ProjectPrefix + x + "/" + y).projectId
    ensures ProjectIdOf(ProjectPrefix + x) == Some(x) && ExtractIds(ProjectPrefix + x) == PathIds(None, None)
  {
    ProjectIdOfShapes(x, y);
    ExtractIdsTrailing(x, y, "");
    assert ProjectPrefix + x + "/" + y + "" == ProjectPrefix + x + "/" + y;
    ExtractIdsOneSegment(x);
  }

  // ---------------------------------------------------------------------------
  // currentProjectSessions, projectItems, isSelected
  // ---------------------------------------------------------------------------

  /** `typeof session === 'object' && session !== null && 'id' in session`: an object with an `id` key. */
  predicate IsSessionEntry(v: Json) {
    v.JObj? && "id" in v.fields
  }

  /** The filter over the project's session list. */
  function KeepSessions(xs: seq<Json>): (r: seq<Json>)
    ensures |r| <= |xs|
    ensures forall i :: 0 <= i < |r| ==> IsSessionEntry(r[i])
  {
    if |xs| == 0 then []
    else (if IsSessionEntry(xs[0]) then [xs[0]] else []) + KeepSessions(xs[1..])
  }

  /** An entry is listed exactly when it is in the project's list and is a session object. */
  lemma {:induction false} KeepSessionsMembers(xs: seq<Json>, v: Json)
    ensures v in KeepSessions(xs) <==> v in xs && IsSessionEntry(v)
  {
    if |xs| > 0 {
      KeepSessionsMembers(xs[1..], v);
      assert xs == [xs[0]] + xs[1..];
    }
  }

  /** The filter keeps the list's order: filtering two lists back to back is filtering each. */
  lemma {:induction false} KeepSessionsAppend(a: seq<Json>, b: seq<Json>)
    ensures KeepSessions(a + b) == KeepSessions(a) + KeepSessions(b)
  {
    if |a| == 0 {
      assert a + b == b;
    } else {
      assert (a + b)[0] == a[0];
      assert (a + b)[1..] == a[1..] + b;
      KeepSessionsAppend(a[1..], b);
    }
  }

  /**
   * `currentProject?.project_sessions?.filter(...) || []`: no project or
   * no list gives no sessions; None is the TypeError a list that is not
   * an array raises.
   */
  function SessionsOf(project: Option<Record>): (r: Option<seq<Json>>)
    ensures project.None? ==> r == Some([])
    ensures project.Some? && Nullish(Get(project.value, "project_sessions")) ==> r == Some([])
    ensures project.Some? && Get(project.value, "project_sessions").JArr? ==> r == Some(KeepSessions(Get(project.value, "project_sessions").items))
  {
    if project.None? then Some([])
    else
      var list := Get(project.value, "project_sessions");
      if Nullish(list) then Some([])
      else if list.JArr? then Some(KeepSessions(list.items))
      else None
  }

  /** A link in the projects menu. */
  datatype MenuItem = MenuItem(title: Json, url: string)

  const UnnamedProject := "Unnamed Project"

  /** The link to a project: its name or a placeholder, and `/project/` followed by its id. */
  function ProjectItem(project: Record): MenuItem {
    MenuItem(Or(Get(project, "name"), JStr(UnnamedProject)), ProjectPrefix + TemplateString(Get(project, "id")))
  }

  /** `projects.map(...)`, where a missing answer (`projectsData?.docs || []`) gives no projects. */
  function ProjectItems(projects: Option<seq<Record>>): (r: seq<MenuItem>)
    ensures projects.None? ==> r == []
    ensures projects.Some? ==> |r| == |projects.value| && forall i :: 0 <= i < |r| ==> r[i] == ProjectItem(projects.value[i])
  {
    if projects.None? then [] else ProjectItemsOf(projects.value)
  }

  function ProjectItemsOf(projects: seq<Record>): (r: seq<MenuItem>)
    ensures |r| == |projects| && forall i :: 0 <= i < |r| ==> r[i] == ProjectItem(projects[i])
  {
    if |projects| == 0 then [] else [ProjectItem(projects[0])] + ProjectItemsOf(projects[1..])
  }

  /**
   * A project's link shows its name when it has a truthy one and the
   * placeholder otherwise, and leads to a page on which the sidebar
   * recognises that project.
   */
  lemma ProjectItemLeadsToProject(project: Record, x: string)
    requires Get(project, "id") == JStr(x) && Segment(x)
    ensures ProjectIdOf(ProjectItem(project).url) == Some(x)
    ensures Truthy(Get(project, "name")) ==> ProjectItem(project).title == Get(project, "name")
    ensures !Truthy(Get(project, "name")) ==> ProjectItem(project).title == JStr(UnnamedProject)
  {
    ProjectIdOfShapes(x, "");
  }

  /** The path of a session's page. */
  function SessionPath(projectId: Json, sessionId: Json): string {
    ProjectPrefix + TemplateString(projectId) + "/" + TemplateString(sessionId)
  }

  /** `isSelected`: the open page is the session's own page. */
  predicate IsSelected(pathname: string, project: Record, session: Record) {
    pathname == SessionPath(Get(project, "id"), Get(session, "id"))
  }

  /**
   * With ids that are path segments, a selected session is exactly the
   * one the path names: the sidebar reads the project from it and the
   * context reads both ids.
   */
  lemma SelectedSessionIsOpen(pathname: string, project: Record, session: Record, x: string, y: string)
    requires Get(project, "id") == JStr(x) && Get(session, "id") == JStr(y) && Segment(x) && Segment(y)
    ensures IsSelected(pathname, project, session) <==> ExtractIds(pathname) == PathIds(Some(x), Some(y)) && pathname == ProjectPrefix + x + "/" + y
    ensures IsSelected(pathname, project, session) ==> ProjectIdOf(pathname) == Some(x)
  {
    assert SessionPath(Get(project, "id"), Get(session, "id")) == ProjectPrefix + x + "/" + y;
    if pathname == ProjectPrefix + x + "/" + y {
      PathReadingsAgree(x, y);
      ExtractIdsTrailing(x, y, "");
      assert ProjectPrefix + x + "/" + y + "" == pathname;
    }
  }

  // ---------------------------------------------------------------------------
  // The handlers
  // ---------------------------------------------------------------------------

  /**
   * Where the sidebar navigates after creating a session: the new
   * session's page, or nowhere when the answer has no truthy id.
   */
  function NavigationAfterCreate(project: Record, newSession: Option<Record>): (r: Option<string>)
    ensures r.Some? <==> newSession.Some? && Truthy(Get(newSession.value, "id"))
    ensures r.Some? ==> IsSelected(r.value, project, newSession.value)
  {
    if newSession.Some? && Truthy(Get(newSession.value, "id")) then Some(SessionPath(Get(project, "id"), Get(newSession.value, "id")))
    else None
  }

  /** The text a rename starts from: the session's name, or empty when it has none. */
  function RenameStart(session: Record): (r: string)
    ensures Get(session, "name").JStr? ==> r == Get(session, "name").s
    ensures !Truthy(Get(session, "name")) ==> r == ""
    ensures !Get(session, "name").JStr? ==> r == ""
  {
    var name := Or(Get(session, "name"), JStr(""));
    if name.JStr? then name.s else ""
  }

  /**
   * The rename `handleRenameBlurOrSubmit` sends, as the session id and the
   * new name: only while a rename is open, only for a name that is not
   * blank once trimmed and that differs, untrimmed, from the current one;
   * the name sent is trimmed.
   */
  function RenameRequest(renamingId: Json, name: string, session: Record): (r: Option<(Json, string)>)
    ensures r.Some? <==> Truthy(renamingId) && Trim(name) != "" && JStr(name) != Get(session, "name")
    ensures r.Some? ==> r.value.0 == renamingId && r.value.1 == Trim(name) && Trimmed(r.value.1)
  {
    if !Truthy(renamingId) then None
    else if Truthy(JStr(Trim(name))) && JStr(name) != Get(session, "name") then Some((renamingId, Trim(name)))
    else None
  }

  /** A name that is already trimmed and unchanged is never sent again. */
  lemma RenameUnchangedIsNoop(renamingId: Json, session: Record)
    requires Get(session, "name").JStr?
    ensures RenameRequest(renamingId, Get(session, "name").s, session).None?
  {
  }

  /** The sidebar's own state. */
  class SidebarState {
    var creatingSession: bool
    var renamingSessionId: Json
    var renamingSessionName: string
    var renamingLoading: bool

    constructor()
      ensures !creatingSession && renamingSessionId == JNull && renamingSessionName == "" && !renamingLoading
    {
      creatingSession := false;
      renamingSessionId := JNull;
      renamingSessionName := "";
      renamingLoading := false;
    }

    /** `handleCreateSession`: the project id it asks a session for; with no project it does nothing. */
    method HandleCreateSession(project: Option<Record>) returns (request: Option<Json>)
      modifies this
      ensures project.None? ==> request.None? && creatingSession == old(creatingSession)
      ensures project.Some? ==> request == Some(Get(project.value, "id")) && !creatingSession
      ensures renamingSessionId == old(renamingSessionId) && renamingSessionName == old(renamingSessionName)
      ensures renamingLoading == old(renamingLoading)
    {
      if project.None? {
        return None;
      }
      creatingSession := true;
      request := Some(Get(project.value, "id"));
      creatingSession := false;
    }

    /** `handleDeleteSession`: the session it asks to delete; the busy flag is cleared afterwards. */
    method HandleDeleteSession(sessionId: Json) returns (request: Json)
      modifies this
      ensures request == sessionId && !creatingSession
      ensures renamingSessionId == old(renamingSessionId) && renamingSessionName == old(renamingSessionName)
      ensures renamingLoading == old(renamingLoading)
    {
      creatingSession := true;
      request := sessionId;
      creatingSession := false;
    }

    /** `handleStartRename`. */
    method HandleStartRename(session: Record)
      modifies this
      ensures renamingSessionId == Get(session, "id") && renamingSessionName == RenameStart(session)
      ensures creatingSession == old(creatingSession) && renamingLoading == old(renamingLoading)
    {
      renamingSessionId := Get(session, "id");
      renamingSessionName := RenameStart(session);
    }

    /** `handleRenameChange`. */
    method HandleRenameChange(value: string)
      modifies this
      ensures renamingSessionName == value
      ensures renamingSessionId == old(renamingSessionId) && creatingSession == old(creatingSession)
      ensures renamingLoading == old(renamingLoading)
    {
      renamingSessionName := value;
    }

    /**
     * `handleRenameBlurOrSubmit`: sends the rename `RenameRequest` allows.
     * Whenever a rename was open it is closed, whether or not a request
     * went out, and the loading flag ends cleared after a request.
     */
    method HandleRenameBlurOrSubmit(session: Record) returns (request: Option<(Json, string)>)
      modifies this
      ensures request == RenameRequest(old(renamingSessionId), old(renamingSessionName), session)
      ensures Truthy(old(renamingSessionId)) ==> renamingSessionId == JNull
      ensures !Truthy(old(renamingSessionId)) ==> renamingSessionId == old(renamingSessionId)
      ensures request.Some? ==> !renamingLoading
      ensures request.None? ==> renamingLoading == old(renamingLoading)
      ensures renamingSessionName == old(renamingSessionName) && creatingSession == old(creatingSession)
    {
      var id, name := renamingSessionId, renamingSessionName;
      if !Truthy(id) {
        return None;
      }
      var trimmed := Trim(name);
      if trimmed != "" && JStr(name) != Get(session, "name") {
        renamingLoading := true;
        request := Some((id, trimmed));
        renamingLoading := false;
        renamingSessionId := JNull;
      } else {
        request := None;
        renamingSessionId := JNull;
      }
    }
  }
}
