/**
 * The text and parameters of the audit log search query, as a function of the
 * search criteria.  The query is a sequence of pieces: constant SQL
 * fragments and named placeholders (`:name`); `Render` spells it out as the
 * SQL string.  Every value a caller supplies is bound in the parameter map
 * and never becomes part of the query.
 */
module AuditLogQuery {
  import opened Wrappers

  /** AuditLogCriteria: a `None` field is a null criterion and adds no clause. */
  datatype Criteria = Criteria(documentId: Option<string>, userId: Option<string>)

  /**
   * The constant SQL fragments the query is assembled from.  A literal piece
   * can only carry one of these, so no caller-supplied text can reach the query.
   */
  datatype Fragment =
    | SelectColumns | FromAuditLog | Where | And
    | OpenIdentityEquals
    | IsDocumentClass | InFilesOfDocument | IsFileClass | InAclsOfSource | IsAclClassClose
    | IsUserClass | InTagsOfUser | IsTagClass | InDocumentsOfUser | IsDocumentClassClose

  /**
   * The SQL text of each fragment, as the string literals of
   * `AuditLogDao.findByCriteria` spell it (each literal is written here as a
   * concatenation of short words).
   */
  function FragmentText(f: Fragment): (text: string)
  {
    match f
    // The fixed select: six columns of T_AUDIT_LOG under the aliases c0..c5.
    case SelectColumns =>
      "select " + "l.LOG_ID_C c0, " + "l.LOG_CREATEDATE_D c1, " + "l.LOG_IDENTITY_C c2, "
        + "l.LOG_CLASSENTITY_C c3, " + "l.LOG_TYPE_C c4, " + "l.LOG_MESSAGE_C c5 "
    case FromAuditLog => " from " + "T_AUDIT_LOG l "
    case Where => " where "
    case And => " and "
    case OpenIdentityEquals => " (" + "l.LOG_IDENTITY_C = "
    case IsDocumentClass => " and " + "l.LOG_CLASSENTITY_C = " + "'Document' "
    case InFilesOfDocument =>
      " or " + "l.LOG_IDENTITY_C in " + "(select " + "f.FIL_ID_C " + "from T_FILE f " + "where " + "f.FIL_IDDOC_C = "
    case IsFileClass => ")" + " and " + "l.LOG_CLASSENTITY_C = " + "'File' "
    case InAclsOfSource =>
      " or " + "l.LOG_IDENTITY_C in " + "(select " + "a.ACL_ID_C " + "from T_ACL a " + "where " + "a.ACL_SOURCEID_C = "
    case IsAclClassClose => ")" + " and " + "l.LOG_CLASSENTITY_C = " + "'Acl'" + ") "
    case IsUserClass => " and " + "l.LOG_CLASSENTITY_C = " + "'User' "
    case InTagsOfUser =>
      " or " + "l.LOG_IDENTITY_C in " + "(select " + "t.TAG_ID_C " + "from T_TAG t " + "where " + "t.TAG_IDUSER_C = "
    case IsTagClass => ")" + " and " + "l.LOG_CLASSENTITY_C = " + "'Tag' "
    case InDocumentsOfUser =>
      " or " + "l.LOG_IDENTITY_C in " + "(select " + "d.DOC_ID_C " + "from T_DOCUMENT d " + "where " + "d.DOC_IDUSER_C = "
    case IsDocumentClassClose => ")" + " and " + "l.LOG_CLASSENTITY_C = " + "'Document'" + ") "
  }

  /** A piece of the query: a constant fragment, or a named placeholder rendered as `:name`. */
  datatype Piece = Lit(fragment: Fragment) | Param(name: string)

  /** QueryParam: the query handed to the paginated execution, and its named parameters. */
  datatype QueryParam = QueryParam(query: seq<Piece>, params: map<string, string>)

  function RenderPiece(p: Piece): string
  {
    match p
    case Lit(f) => FragmentText(f)
    case Param(n) => ":" + n
  }

  /** The SQL string of a sequence of pieces. */
  function Render(pieces: seq<Piece>): string
  {
    if pieces == [] then "" else RenderPiece(pieces[0]) + Render(pieces[1..])
  }

  /** The placeholder names that occur in a sequence of pieces. */
  function ParamNames(pieces: seq<Piece>): set<string>
  {
    set p | p in pieces && p.Param? :: p.name
  }

  /** Guava's `Joiner.on(sep).join(parts)`, over sequences. */
  function Join<T>(sep: seq<T>, parts: seq<seq<T>>): seq<T>
  {
    if parts == [] then []
    else if |parts| == 1 then parts[0]
    else parts[0] + sep + Join(sep, parts[1..])
  }

  /**
   * Joining keeps every element of every part and adds only separator
   * elements, which appear once there are two parts or more.
   */
  lemma {:induction false} JoinElements<T>(sep: seq<T>, parts: seq<seq<T>>, x: T)
    ensures x in Join(sep, parts) ==> x in sep || exists k :: 0 <= k < |parts| && x in parts[k]
    ensures (exists k :: 0 <= k < |parts| && x in parts[k]) ==> x in Join(sep, parts)
    ensures |parts| > 1 && x in sep ==> x in Join(sep, parts)
  {
    if |parts| > 1 {
      JoinElements(sep, parts[1..], x);
      if exists k :: 0 <= k < |parts| && x in parts[k] {
        var k :| 0 <= k < |parts| && x in parts[k];
        if k > 0 {
          assert x in parts[1..][k - 1];
        }
      }
      if x in Join(sep, parts[1..]) && x !in sep {
        var k :| 0 <= k < |parts[1..]| && x in parts[1..][k];
        assert x in parts[k + 1];
      }
    }
  }

  const DocumentIdParam := "documentId"
  const UserIdParam := "userId"

  /** The two visibility clauses the criteria can switch on. */
  datatype Clause = DocumentScope | UserScope

  /** The one parameter a clause refers to. */
  function Placeholder(c: Clause): string
  {
    match c
    case DocumentScope => DocumentIdParam
    case UserScope => UserIdParam
  }

  // Each clause is built in three lines, one per disjunct.
  const DocumentIdentityLine := [Lit(OpenIdentityEquals), Param(DocumentIdParam), Lit(IsDocumentClass)]
  const DocumentFileLine := [Lit(InFilesOfDocument), Param(DocumentIdParam), Lit(IsFileClass)]
  const DocumentAclLine := [Lit(InAclsOfSource), Param(DocumentIdParam), Lit(IsAclClassClose)]
  const UserIdentityLine := [Lit(OpenIdentityEquals), Param(UserIdParam), Lit(IsUserClass)]
  const UserTagLine := [Lit(InTagsOfUser), Param(UserIdParam), Lit(IsTagClass)]
  const UserDocumentLine := [Lit(InDocumentsOfUser), Param(UserIdParam), Lit(IsDocumentClassClose)]

  /** The pieces of a clause: one parenthesised disjunction of three "identity and class" tests. */
  function ClauseSql(c: Clause): seq<Piece>
  {
    match c
    case DocumentScope => DocumentIdentityLine + DocumentFileLine + DocumentAclLine
    case UserScope => UserIdentityLine + UserTagLine + UserDocumentLine
  }

  /** Each clause refers to its own placeholder and to no other. */
  lemma ClauseParams(c: Clause)
    ensures ParamNames(ClauseSql(c)) == {Placeholder(c)}
  {
  }

  /**
   * Each clause's text opens with " (" and ends with ") ".  (Whether that
   * final ")" closes the opening "(" is not stated here.)
   */
  lemma ClauseIsParenthesised(c: Clause)
    ensures ClauseSql(c)[0] == Lit(OpenIdentityEquals)
    ensures FragmentText(OpenIdentityEquals)[..2] == " ("
    ensures ClauseSql(c)[|ClauseSql(c)| - 1] in [Lit(IsAclClassClose), Lit(IsDocumentClassClose)]
    ensures FragmentText(IsAclClassClose)[|FragmentText(IsAclClassClose)| - 2..] == ") "
    ensures FragmentText(IsDocumentClassClose)[|FragmentText(IsDocumentClassClose)| - 2..] == ") "
  {
  }

  /** The clauses the criteria switch on, document scope first. */
  function ActiveClauses(criteria: Criteria): (clauses: seq<Clause>)
    ensures DocumentScope in clauses <==> criteria.documentId.Some?
    ensures UserScope in clauses <==> criteria.userId.Some?
    ensures |clauses| <= 2
    ensures forall j, k :: 0 <= j < k < |clauses| ==> clauses[j] == DocumentScope && clauses[k] == UserScope
  {
    (if criteria.documentId.Some? then [DocumentScope] else [])
      + (if criteria.userId.Some? then [UserScope] else [])
  }

  /** The parameter map: a key per non-null criterion, bound to that criterion's value. */
  function QueryParams(criteria: Criteria): (params: map<string, string>)
    ensures params.Keys == (if criteria.documentId.Some? then {DocumentIdParam} else {})
                           + (if criteria.userId.Some? then {UserIdParam} else {})
    ensures criteria.documentId.Some? ==> params[DocumentIdParam] == criteria.documentId.value
    ensures criteria.userId.Some? ==> params[UserIdParam] == criteria.userId.value
  {
    var withDocument := if criteria.documentId.Some? then map[DocumentIdParam := criteria.documentId.value] else map[];
    if criteria.userId.Some? then withDocument[UserIdParam := criteria.userId.value] else withDocument
  }

  function ClauseSqls(clauses: seq<Clause>): (parts: seq<seq<Piece>>)
    ensures |parts| == |clauses|
    ensures forall k :: 0 <= k < |clauses| ==> parts[k] == ClauseSql(clauses[k])
  {
    if clauses == [] then [] else [ClauseSql(clauses[0])] + ClauseSqls(clauses[1..])
  }

  const SelectHead := [Lit(SelectColumns), Lit(FromAuditLog)]

  /** The whole query: the fixed select, then " where " and the " and "-joined clauses when there are any. */
  function QueryPieces(clauses: seq<Clause>): seq<Piece>
  {
    SelectHead + (if clauses == [] then [] else [Lit(Where)] + Join([Lit(And)], ClauseSqls(clauses)))
  }

  /** The query findByCriteria builds for the criteria. */
  function QueryFor(criteria: Criteria): QueryParam
  {
    QueryParam(QueryPieces(ActiveClauses(criteria)), QueryParams(criteria))
  }

  const SelectPrefix := FragmentText(SelectColumns) + FragmentText(FromAuditLog)

  /**
   * Whatever the criteria, the query starts with the fixed six-column select
   * from T_AUDIT_LOG, and so does its SQL text.
   */
  lemma QueryStartsWithSelect(criteria: Criteria)
    ensures QueryFor(criteria).query[..2] == SelectHead
    ensures SelectPrefix <= Render(QueryFor(criteria).query)
  {
  }

  /**
   * " where " is appended exactly when some criterion is set; with none, the
   * query is the fixed select alone.
   */
  lemma WhereIffSomeCriterion(criteria: Criteria)
    ensures Lit(Where) in QueryFor(criteria).query <==> criteria.documentId.Some? || criteria.userId.Some?
    ensures QueryFor(criteria).query == SelectHead <==> criteria.documentId.None? && criteria.userId.None?
  {
  }

  /** With both criteria the document clause comes first, then " and ", then the user clause. */
  lemma BothCriteriaOrder(documentId: string, userId: string)
    ensures QueryFor(Criteria(Some(documentId), Some(userId))).query
         == SelectHead + [Lit(Where)] + ClauseSql(DocumentScope) + [Lit(And)] + ClauseSql(UserScope)
  {
    var clauses := ActiveClauses(Criteria(Some(documentId), Some(userId)));
    assert clauses == [DocumentScope, UserScope];
    assert ClauseSqls(clauses)[1..] == [ClauseSql(UserScope)];
    assert Join([Lit(And)], ClauseSqls(clauses)) == ClauseSql(DocumentScope) + [Lit(And)] + ClauseSql(UserScope);
  }

  lemma ParamNamesAppend(a: seq<Piece>, b: seq<Piece>)
    ensures ParamNames(a + b) == ParamNames(a) + ParamNames(b)
  {
  }

  /** The query for a single criterion: the fixed select, " where ", and that one clause. */
  lemma OneCriterionQuery(criteria: Criteria, c: Clause)
    requires ActiveClauses(criteria) == [c]
    ensures QueryFor(criteria).query == SelectHead + [Lit(Where)] + ClauseSql(c)
  {
  }

  /**
   * Every placeholder in the query is bound in the parameter map, and every
   * binding is used by the query.
   */
  lemma PlaceholdersAreBound(criteria: Criteria)
    ensures ParamNames(QueryFor(criteria).query) == QueryParams(criteria).Keys
  {
    var q := QueryFor(criteria).query;
    assert ParamNames(SelectHead + [Lit(Where)]) == {} && ParamNames([Lit(And)]) == {};
    ClauseParams(DocumentScope);
    ClauseParams(UserScope);
    match (criteria.documentId, criteria.userId)
    case (None, None) =>
      assert q == SelectHead;
    case (Some(_), None) =>
      OneCriterionQuery(criteria, DocumentScope);
      ParamNamesAppend(SelectHead + [Lit(Where)], ClauseSql(DocumentScope));
    case (None, Some(_)) =>
      OneCriterionQuery(criteria, UserScope);
      ParamNamesAppend(SelectHead + [Lit(Where)], ClauseSql(UserScope));
    case (Some(d), Some(u)) =>
      BothCriteriaOrder(d, u);
      ParamNamesAppend(SelectHead + [Lit(Where)], ClauseSql(DocumentScope));
      ParamNamesAppend(SelectHead + [Lit(Where)] + ClauseSql(DocumentScope), [Lit(And)]);
      ParamNamesAppend(SelectHead + [Lit(Where)] + ClauseSql(DocumentScope) + [Lit(And)], ClauseSql(UserScope));
  }

  /**
   * Injection safety: the query, and so its SQL text, depends on which
   * criteria are set and never on their values, which reach the parameter
   * map only.
   */
  lemma QueryIgnoresValues(c1: Criteria, c2: Criteria)
    requires c1.documentId.Some? == c2.documentId.Some?
    requires c1.userId.Some? == c2.userId.Some?
    ensures QueryFor(c1).query == QueryFor(c2).query
    ensures Render(QueryFor(c1).query) == Render(QueryFor(c2).query)
  {
  }
}
