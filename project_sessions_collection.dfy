/**
 * The `project_sessions` collection (src/database/collections/project-sessions.ts):
 * its `beforeDelete` hook deletes the session's messages one by one
 * before the session itself goes; a failing message delete is only
 * logged, while a failing lookup aborts the whole deletion.
 */
module ProjectSessionsCollection {
  import opened Wrappers
  import opened Json
  import opened Store

  /** The lookup the hook makes: the messages whose `project_session` is the session. */
  function MessagesOf(id: string): Where {
    [("project_session", JStr(id))]
  }

  /** The ids of the messages that belong to session `id`. */
  function SessionMessageIds(db: Db, id: string): set<string> {
    set k | k in db.messages && Get(db.messages[k], "project_session") == JStr(id)
  }

  /** The ids among `ids` whose delete does not throw. */
  function Deletable(ids: set<string>, faults: set<Call>): set<string> {
    set k | k in ids && DeleteCall(SessionMessages, k) !in faults
  }

  /** The database after the cascade: the session's messages gone, except those whose delete threw. */
  function AfterCascade(db: Db, faults: set<Call>, id: string): Db {
    db.(messages := db.messages - Deletable(SessionMessageIds(db, id), faults))
  }

  /** The message of the error the hook throws when the lookup fails. */
  function AbortMessage(id: string): string {
    "Failed to delete downstream messages for session " + id + ". Session deletion aborted."
  }

  /**
   * The cascade removes exactly the session's messages whose delete does
   * not throw; messages of other sessions and the other collections are
   * untouched; when no delete throws, none of the session's messages
   * remain.
   */
  lemma CascadeEffect(db: Db, faults: set<Call>, id: string)
    ensures var after := AfterCascade(db, faults, id);
      && after.users == db.users && after.projects == db.projects && after.sessions == db.sessions
      && after.messages.Keys <= db.messages.Keys
      && (forall k :: k in after.messages ==> after.messages[k] == db.messages[k])
      && (forall k :: k in db.messages && Get(db.messages[k], "project_session") != JStr(id) ==> k in after.messages)
      && (forall k :: k in db.messages && k !in after.messages ==>
            Get(db.messages[k], "project_session") == JStr(id) && DeleteCall(SessionMessages, k) !in faults)
    ensures (forall k :: DeleteCall(SessionMessages, k) !in faults) ==>
      SessionMessageIds(AfterCascade(db, faults, id), id) == {}
  {
  }

  /** With no messages in the session the cascade changes nothing. */
  lemma CascadeOnEmptySession(db: Db, faults: set<Call>, id: string)
    requires SessionMessageIds(db, id) == {}
    ensures AfterCascade(db, faults, id) == db
  {
    assert db.messages - Deletable(SessionMessageIds(db, id), faults) == db.messages;
  }

  /** The ids in the first `i` places of `ids`. */
  function Prefix(ids: seq<string>, i: nat): set<string>
    requires i <= |ids|
  {
    set j | 0 <= j < i :: ids[j]
  }

  /** The database once the first `i` messages of the listing have been offered for deletion. */
  function CascadeUpTo(db: Db, faults: set<Call>, ids: seq<string>, i: nat): Db
    requires i <= |ids|
  {
    db.(messages := db.messages - Deletable(Prefix(ids, i), faults))
  }

  /** One more delete moves the cascade one place on, whether it succeeds or throws. */
  lemma CascadeStep(db: Db, faults: set<Call>, ids: seq<string>, i: nat)
    requires i < |ids| && Distinct(ids) && AllIn(db.messages, ids)
    ensures var cur := CascadeUpTo(db, faults, ids, i);
      match DeleteIn(cur, faults, SessionMessages, ids[i])
      case Ok(res) => res.0 == CascadeUpTo(db, faults, ids, i + 1)
      case Fail(_) => cur == CascadeUpTo(db, faults, ids, i + 1)
  {
    var k := ids[i];
    assert k !in Prefix(ids, i) by {
      forall j | 0 <= j < i ensures ids[j] != k { }
    }
    assert Prefix(ids, i + 1) == Prefix(ids, i) + {k};
    var cur := CascadeUpTo(db, faults, ids, i);
    assert k in cur.messages;
    if DeleteCall(SessionMessages, k) in faults {
      assert Deletable(Prefix(ids, i + 1), faults) == Deletable(Prefix(ids, i), faults);
    } else {
      assert Deletable(Prefix(ids, i + 1), faults) == Deletable(Prefix(ids, i), faults) + {k};
    }
  }

  /** A listing of the session's messages covers exactly the messages the cascade is about. */
  lemma ListingCoversSession(db: Db, faults: set<Call>, id: string, ids: seq<string>)
    requires IsListing(db.messages, MessagesOf(id), None, ids)
    ensures CascadeUpTo(db, faults, ids, |ids|) == AfterCascade(db, faults, id)
  {
    ListingIsSession(db, id, None, ids);
    assert Prefix(ids, |ids|) == SessionMessageIds(db, id);
  }

  /** The listing for the hook's filter holds exactly the session's messages, whatever its order. */
  lemma ListingIsSession(db: Db, id: string, order: Option<SortSpec>, ids: seq<string>)
    requires IsListing(db.messages, MessagesOf(id), order, ids)
    ensures forall k :: k in ids <==> k in SessionMessageIds(db, id)
  {
    forall k | k in db.messages
      ensures Matches(k, db.messages[k], MessagesOf(id)) <==> Get(db.messages[k], "project_session") == JStr(id)
    {
      assert MessagesOf(id)[0] == ("project_session", JStr(id));
      assert Get(AsDoc(k, db.messages[k]), "project_session") == Get(db.messages[k], "project_session");
    }
  }

  /**
   * The `beforeDelete` hook: finds the session's messages and deletes
   * them one at a time, going on past a delete that throws. None means
   * the deletion may proceed; Some is the error that aborts it.
   */
  method BeforeDelete(cms: Cms, id: string) returns (aborted: Option<string>)
    modifies cms`db
    ensures aborted.Some? <==> FindCall(SessionMessages, MessagesOf(id)) in cms.faults
    ensures aborted.Some? ==> aborted.value == AbortMessage(id) && cms.db == old(cms.db)
    ensures aborted.None? ==> cms.db == AfterCascade(old(cms.db), cms.faults, id)
  {
    var found := cms.Find(SessionMessages, MessagesOf(id), None);
    if found.Fail? {
      return Some(AbortMessage(id));
    }
    var ids := found.value;
    ghost var db0 := cms.db;
    assert IsListing(db0.messages, MessagesOf(id), None, ids);
    DeleteEach(cms, ids);
    ListingCoversSession(db0, cms.faults, id, ids);
    aborted := None;
  }

  /** The hook's loop: each listed message deleted in turn, a delete that throws passed over. */
  method DeleteEach(cms: Cms, ids: seq<string>)
    requires Distinct(ids) && AllIn(cms.db.messages, ids)
    modifies cms`db
    ensures cms.db == CascadeUpTo(old(cms.db), cms.faults, ids, |ids|)
  {
    ghost var db0 := cms.db;
    var i := 0;
    while i < |ids|
      invariant 0 <= i <= |ids|
      invariant cms.db == CascadeUpTo(db0, cms.faults, ids, i)
    {
      CascadeStep(db0, cms.faults, ids, i);
      var _ := cms.Delete(SessionMessages, ids[i]);
      i := i + 1;
    }
  }

  /**
   * Deleting a session: the hook first, then the delete proper. The
   * messages go even when the session's own delete then fails.
   */
  method Delete(cms: Cms, id: string) returns (r: Outcome<Record>)
    modifies cms`db
    ensures FindCall(SessionMessages, MessagesOf(id)) in cms.faults ==>
      r == Fail(HookAborted(AbortMessage(id))) && cms.db == old(cms.db)
    ensures FindCall(SessionMessages, MessagesOf(id)) !in cms.faults ==>
      var mid := AfterCascade(old(cms.db), cms.faults, id);
      match DeleteIn(mid, cms.faults, ProjectSessions, id)
      case Ok(res) => cms.db == res.0 && r == Ok(res.1)
      case Fail(e) => cms.db == mid && r == Fail(e)
  {
    var aborted := BeforeDelete(cms, id);
    if aborted.Some? {
      return Fail(HookAborted(aborted.value));
    }
    r := cms.Delete(ProjectSessions, id);
  }
}
