/**
 * What the search query selects.  Each clause is given its SQL meaning over
 * the in-memory tables (`and` binds tighter than `or`; `x in (select ...)` is
 * membership in the sub-select's result), and the where-clause keeps a log
 * row when every active clause holds with the parameter map's values.
 * Beside it stand reference definitions of the visibility rules, and lemmas
 * tie the two together.
 */
module Visibility {
  import opened Wrappers
  import opened Schema
  import opened AuditLogQuery

  /** select f.FIL_ID_C from T_FILE f where f.FIL_IDDOC_C = documentId */
  function FilesOf(db: Database, documentId: string): set<string>
  {
    set f | f in db.files && f.documentId == documentId :: f.id
  }

  /** select a.ACL_ID_C from T_ACL a where a.ACL_SOURCEID_C = sourceId */
  function AclsOf(db: Database, sourceId: string): set<string>
  {
    set a | a in db.acls && a.sourceId == sourceId :: a.id
  }

  /** select t.TAG_ID_C from T_TAG t where t.TAG_IDUSER_C = userId */
  function TagsOf(db: Database, userId: string): set<string>
  {
    set t | t in db.tags && t.userId == userId :: t.id
  }

  /** select d.DOC_ID_C from T_DOCUMENT d where d.DOC_IDUSER_C = userId */
  function DocumentsOf(db: Database, userId: string): set<string>
  {
    set d | d in db.documents && d.userId == userId :: d.id
  }

  /** The SQL of a clause, read for one row with `value` bound to the clause's placeholder. */
  predicate Holds(db: Database, c: Clause, value: string, row: LogRow)
  {
    match c
    case DocumentScope =>
      || (row.entityId == value && row.entityClass == "Document")
      || (row.entityId in FilesOf(db, value) && row.entityClass == "File")
      || (row.entityId in AclsOf(db, value) && row.entityClass == "Acl")
    case UserScope =>
      || (row.entityId == value && row.entityClass == "User")
      || (row.entityId in TagsOf(db, value) && row.entityClass == "Tag")
      || (row.entityId in DocumentsOf(db, value) && row.entityClass == "Document")
  }

  /** Every clause's placeholder has a value. */
  predicate Bound(clauses: seq<Clause>, params: map<string, string>)
  {
    forall c :: c in clauses ==> Placeholder(c) in params
  }

  /** The where-clause: the clauses joined by " and ", so every one of them holds. */
  predicate Satisfies(db: Database, clauses: seq<Clause>, params: map<string, string>, row: LogRow)
    requires Bound(clauses, params)
  {
    forall k :: 0 <= k < |clauses| ==> Holds(db, clauses[k], params[Placeholder(clauses[k])], row)
  }

  /** The rows of `logs` the where-clause keeps, in table order. */
  function SelectLogs(db: Database, clauses: seq<Clause>, params: map<string, string>, logs: seq<LogRow>): seq<LogRow>
    requires Bound(clauses, params)
  {
    if logs == [] then []
    else
      var rest := SelectLogs(db, clauses, params, logs[1..]);
      if Satisfies(db, clauses, params, logs[0]) then [logs[0]] + rest else rest
  }

  /** The log rows the search query for `criteria` selects. */
  function SelectedLogs(db: Database, criteria: Criteria): seq<LogRow>
  {
    SelectLogs(db, ActiveClauses(criteria), QueryParams(criteria), db.logs)
  }

  /** Reference rule: an entry concerns the document, one of its files, or one of its ACL entries. */
  ghost predicate DocumentVisible(db: Database, documentId: string, row: LogRow)
  {
    || (row.entityClass == "Document" && row.entityId == documentId)
    || (row.entityClass == "File" && exists f :: f in db.files && f.id == row.entityId && f.documentId == documentId)
    || (row.entityClass == "Acl" && exists a :: a in db.acls && a.id == row.entityId && a.sourceId == documentId)
  }

  /** Reference rule: an entry concerns the user, one of the user's tags, or one of the user's documents. */
  ghost predicate UserVisible(db: Database, userId: string, row: LogRow)
  {
    || (row.entityClass == "User" && row.entityId == userId)
    || (row.entityClass == "Tag" && exists t :: t in db.tags && t.id == row.entityId && t.userId == userId)
    || (row.entityClass == "Document" && exists d :: d in db.documents && d.id == row.entityId && d.userId == userId)
  }

  /** Reference rule for a search: every criterion that is set is satisfied. */
  ghost predicate Visible(db: Database, criteria: Criteria, row: LogRow)
  {
    && (criteria.documentId.Some? ==> DocumentVisible(db, criteria.documentId.value, row))
    && (criteria.userId.Some? ==> UserVisible(db, criteria.userId.value, row))
  }

  /** The document clause means exactly the document visibility rule. */
  lemma DocumentClauseMeaning(db: Database, documentId: string, row: LogRow)
    ensures Holds(db, DocumentScope, documentId, row) <==> DocumentVisible(db, documentId, row)
  {
  }

  /** The user clause means exactly the user visibility rule. */
  lemma UserClauseMeaning(db: Database, userId: string, row: LogRow)
    ensures Holds(db, UserScope, userId, row) <==> UserVisible(db, userId, row)
  {
  }

  /** The user clause never shows an ACL entry, whatever the tables hold. */
  lemma UserClauseNeverMatchesAcl(db: Database, userId: string, row: LogRow)
    requires row.entityClass == "Acl"
    ensures !Holds(db, UserScope, userId, row)
  {
  }

  lemma {:induction false} SelectLogsMembership(
    db: Database, clauses: seq<Clause>, params: map<string, string>, logs: seq<LogRow>, row: LogRow)
    requires Bound(clauses, params)
    ensures row in SelectLogs(db, clauses, params, logs) <==> row in logs && Satisfies(db, clauses, params, row)
  {
    if logs != [] {
      SelectLogsMembership(db, clauses, params, logs[1..], row);
      assert logs == [logs[0]] + logs[1..];
    }
  }

  /** The where-clause over no clauses keeps every row, in order. */
  lemma {:induction false} SelectLogsWithoutClauses(db: Database, params: map<string, string>, logs: seq<LogRow>)
    ensures SelectLogs(db, [], params, logs) == logs
  {
    if logs != [] {
      SelectLogsWithoutClauses(db, params, logs[1..]);
    }
  }

  /** A row is selected exactly when it is in the log table and visible under the criteria. */
  lemma SelectedLogsMeaning(db: Database, criteria: Criteria, row: LogRow)
    ensures row in SelectedLogs(db, criteria) <==> row in db.logs && Visible(db, criteria, row)
  {
    var clauses := ActiveClauses(criteria);
    var params := QueryParams(criteria);
    SelectLogsMembership(db, clauses, params, db.logs, row);
    if criteria.documentId.Some? {
      DocumentClauseMeaning(db, criteria.documentId.value, row);
      assert clauses[0] == DocumentScope;
    }
    if criteria.userId.Some? {
      UserClauseMeaning(db, criteria.userId.value, row);
      assert clauses[|clauses| - 1] == UserScope;
    }
    assert Satisfies(db, clauses, params, row) <==> Visible(db, criteria, row);
  }

  /** With neither criterion set, every log row is selected, in table order. */
  lemma NoCriteriaSelectsEverything(db: Database)
    ensures SelectedLogs(db, Criteria(None, None)) == db.logs
  {
    SelectLogsWithoutClauses(db, map[], db.logs);
  }

  /**
   * With both criteria set, a row is selected exactly when each criterion
   * alone would select it: the clauses intersect, they do not unite.
   */
  lemma BothCriteriaIntersect(db: Database, documentId: string, userId: string, row: LogRow)
    ensures row in SelectedLogs(db, Criteria(Some(documentId), Some(userId))) <==>
              (row in SelectedLogs(db, Criteria(Some(documentId), None))
               && row in SelectedLogs(db, Criteria(None, Some(userId))))
  {
    SelectedLogsMeaning(db, Criteria(Some(documentId), Some(userId)), row);
    SelectedLogsMeaning(db, Criteria(Some(documentId), None), row);
    SelectedLogsMeaning(db, Criteria(None, Some(userId)), row);
  }

  /**
   * An ACL entry is shown only by a document-only search, and only while the
   * ACL row it names still exists with that document as its source: deleting
   * the ACL row hides its history.
   */
  lemma AclEntryNeedsLiveAcl(db: Database, criteria: Criteria, row: LogRow)
    requires row.entityClass == "Acl"
    requires criteria.documentId.Some? || criteria.userId.Some?
    requires row in SelectedLogs(db, criteria)
    ensures criteria.userId.None?
    ensures exists a :: a in db.acls && a.id == row.entityId && a.sourceId == criteria.documentId.value
  {
    SelectedLogsMeaning(db, criteria, row);
  }
}
