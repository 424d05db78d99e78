/**
 * The audit log DAO: `create` stamps an entry with a fresh id and the current
 * date and persists it; `findByCriteria` builds the search query, hands it to
 * the paginated execution, maps every returned row to a DTO and stores the
 * list in the paginated list.
 */
module AuditLogDao {
  import opened Wrappers
  import opened AuditLogTypes
  import opened Schema
  import opened AuditLogQuery
  import opened Visibility

  /** java.sql.Timestamp; `time` is what `getTime()` returns, in epoch milliseconds. */
  datatype Timestamp = Timestamp(time: int)

  /** One result row: the six selected columns, named by their aliases c0..c5. */
  datatype ResultRow = ResultRow(c0: string, c1: Timestamp, c2: string, c3: string, c4: string, c5: string)

  /** The columns the fixed select reads from a stored log row. */
  function Project(log: LogRow): ResultRow
  {
    ResultRow(log.id, Timestamp(log.createDate), log.entityId, log.entityClass, log.typeName, log.message)
  }

  /** AuditLogDto; `logType` is the DTO's type. */
  datatype AuditLogDto = AuditLogDto(
    id: string, createTimestamp: int, entityId: string, entityClass: string,
    logType: AuditLogType, message: string)

  /** The exception `AuditLogType.valueOf` throws for a name it does not know. */
  datatype ReadError = UnknownAuditLogType(name: string)

  /** `dto` carries the columns of `row`: c0..c5 in order, the type column parsed. */
  predicate DtoOfRow(dto: AuditLogDto, row: ResultRow)
  {
    && dto.id == row.c0
    && dto.createTimestamp == row.c1.time
    && dto.entityId == row.c2
    && dto.entityClass == row.c3
    && ValueOf(row.c4) == Some(dto.logType)
    && dto.message == row.c5
  }

  /** The DTO list for `rows`, or the error raised by the first row whose type name is unknown. */
  function MapRows(rows: seq<ResultRow>): Result<seq<AuditLogDto>, ReadError>
  {
    if rows == [] then Ok([])
    else
      match MapRows(rows[..|rows| - 1])
      case Err(e) => Err(e)
      case Ok(dtos) =>
        var o := rows[|rows| - 1];
        match ValueOf(o.c4)
        case None => Err(UnknownAuditLogType(o.c4))
        case Some(t) => Ok(dtos + [AuditLogDto(o.c0, o.c1.time, o.c2, o.c3, t, o.c5)])
  }

  /** Once a prefix of the rows fails, the whole mapping fails with the same error. */
  lemma {:induction false} MapRowsErrorPersists(rows: seq<ResultRow>, j: nat)
    requires j <= |rows|
    requires MapRows(rows[..j]).Err?
    ensures MapRows(rows) == MapRows(rows[..j])
  {
    if j < |rows| {
      assert rows[..|rows| - 1][..j] == rows[..j];
      MapRowsErrorPersists(rows[..|rows| - 1], j);
    } else {
      assert rows[..j] == rows;
    }
  }

  /**
   * Mapping succeeds exactly when every type name is known; the DTO list then
   * has the rows' length and order, each DTO carrying its row's columns.
   * Otherwise the error names the first unknown type name.
   */
  lemma {:induction false} MapRowsCharacterisation(rows: seq<ResultRow>)
    ensures MapRows(rows).Ok? <==> forall k :: 0 <= k < |rows| ==> ValueOf(rows[k].c4).Some?
    ensures MapRows(rows).Ok? ==>
      && |MapRows(rows).value| == |rows|
      && forall k :: 0 <= k < |rows| ==> DtoOfRow(MapRows(rows).value[k], rows[k])
    ensures MapRows(rows).Err? ==>
      exists k :: && 0 <= k < |rows|
                  && ValueOf(rows[k].c4).None?
                  && (forall j :: 0 <= j < k ==> ValueOf(rows[j].c4).Some?)
                  && MapRows(rows).error == UnknownAuditLogType(rows[k].c4)
  {
    if rows != [] {
      var init := rows[..|rows| - 1];
      MapRowsCharacterisation(init);
      assert forall k :: 0 <= k < |init| ==> init[k] == rows[k];
      if MapRows(init).Err? {
        var k :| && 0 <= k < |init|
                 && ValueOf(init[k].c4).None?
                 && (forall j :: 0 <= j < k ==> ValueOf(init[j].c4).Some?)
                 && MapRows(init).error == UnknownAuditLogType(init[k].c4);
        assert ValueOf(rows[k].c4).None?;
      }
    }
  }

  /**
   * QueryParam construction of findByCriteria: the fixed select, one clause
   * and one parameter per non-null criterion, " where " and the " and "-joined
   * clauses when there are any.  The query is a sequence of pieces, appended
   * in the order of `AuditLogDao.findByCriteria`.
   */
  method BuildQuery(criteria: Criteria) returns (queryParam: QueryParam)
    ensures queryParam == QueryFor(criteria)
  {
    var parameterMap: map<string, string> := map[];
    var criteriaList: seq<seq<Piece>> := [];

    var sb := [Lit(SelectColumns)];
    sb := sb + [Lit(FromAuditLog)];

    if criteria.documentId.Some? {
      // ACL on the document is not checked here: the caller has done it.
      var sb0 := DocumentIdentityLine;
      sb0 := sb0 + DocumentFileLine;
      sb0 := sb0 + DocumentAclLine;
      criteriaList := criteriaList + [sb0];
      parameterMap := parameterMap[DocumentIdParam := criteria.documentId.value];
    }

    if criteria.userId.Some? {
      var sb0 := UserIdentityLine;
      sb0 := sb0 + UserTagLine;
      sb0 := sb0 + UserDocumentLine;
      criteriaList := criteriaList + [sb0];
      parameterMap := parameterMap[UserIdParam := criteria.userId.value];
    }

    assert criteriaList == ClauseSqls(ActiveClauses(criteria));
    if criteriaList != [] {
      sb := sb + [Lit(Where)];
      sb := sb + Join([Lit(And)], criteriaList);
    }

    queryParam := QueryParam(sb, parameterMap);
  }

  /** The result-assembly loop of findByCriteria: one DTO per row, in order; an unknown type name aborts. */
  method AssembleResults(l: seq<ResultRow>) returns (result: Result<seq<AuditLogDto>, ReadError>)
    ensures result == MapRows(l)
  {
    var auditLogDtoList: seq<AuditLogDto> := [];
    for n := 0 to |l|
      invariant MapRows(l[..n]) == Ok(auditLogDtoList)
    {
      var o := l[n];
      assert l[..n + 1][..n] == l[..n];
      var t := ValueOf(o.c4);
      if t.None? {
        MapRowsErrorPersists(l, n + 1);
        return Err(UnknownAuditLogType(o.c4));
      }
      var auditLogDto := AuditLogDto(o.c0, o.c1.time, o.c2, o.c3, t.value, o.c5);
      auditLogDtoList := auditLogDtoList + [auditLogDto];
    }
    assert l[..|l|] == l;
    result := Ok(auditLogDtoList);
  }

  /** SortCriteria: the column index to sort on and the direction. */
  datatype SortCriteria = SortCriteria(column: nat, asc: bool)

  /** What the paginated execution returns: the rows of the requested page and the total row count. */
  datatype Page = Page(rows: seq<ResultRow>, resultCount: nat)

  /** PaginatedList: the requested window, the total count and the result list (null until set). */
  class PaginatedList {
    var limit: nat
    var offset: nat
    var resultCount: nat
    var resultList: Option<seq<AuditLogDto>>

    constructor (limit: nat, offset: nat)
      ensures this.limit == limit && this.offset == offset
      ensures resultCount == 0 && resultList == None
    {
      this.limit := limit;
      this.offset := offset;
      resultCount := 0;
      resultList := None;
    }
  }

  /**
   * findByCriteria.  The paginated execution is a parameter: it receives the
   * query, the sort criteria and the window, and returns the page's rows and
   * the total count, which it records in the paginated list.  An unknown type
   * name aborts the call after the count was recorded and before any result
   * list is set.
   */
  method FindByCriteria(
    paginatedList: PaginatedList, criteria: Criteria, sortCriteria: SortCriteria,
    executePaginatedQuery: (QueryParam, SortCriteria, nat, nat) -> Page)
    returns (outcome: Result<(), ReadError>)
    modifies paginatedList
    ensures paginatedList.limit == old(paginatedList.limit) && paginatedList.offset == old(paginatedList.offset)
    ensures var page := executePaginatedQuery(QueryFor(criteria), sortCriteria, old(paginatedList.offset), old(paginatedList.limit));
      && paginatedList.resultCount == page.resultCount
      && match MapRows(page.rows)
         case Ok(dtos) => outcome == Ok(()) && paginatedList.resultList == Some(dtos)
         case Err(e) => outcome == Err(e) && paginatedList.resultList == old(paginatedList.resultList)
  {
    var queryParam := BuildQuery(criteria);
    var page := executePaginatedQuery(queryParam, sortCriteria, paginatedList.offset, paginatedList.limit);
    paginatedList.resultCount := page.resultCount;
    var l := page.rows;

    var assembled := AssembleResults(l);
    match assembled
    case Err(e) =>
      outcome := Err(e);
    case Ok(auditLogDtoList) =>
      paginatedList.resultList := Some(auditLogDtoList);
      outcome := Ok(());
  }

  /** AuditLog: the entity `create` fills in; id and create date are null until then. */
  class AuditLog {
    var id: Option<string>
    var createDate: Option<int>
    var entityId: string
    var entityClass: string
    var logType: AuditLogType
    var message: string

    constructor (entityId: string, entityClass: string, logType: AuditLogType, message: string)
      ensures id == None && createDate == None
      ensures this.entityId == entityId && this.entityClass == entityClass
      ensures this.logType == logType && this.message == message
    {
      id := None;
      createDate := None;
      this.entityId := entityId;
      this.entityClass := entityClass;
      this.logType := logType;
      this.message := message;
    }
  }

  /** The persistence session, reduced to the tables it writes; the type is stored by name. */
  class EntityManager {
    var db: Database

    constructor (db: Database)
      ensures this.db == db
    {
      this.db := db;
    }

    /** persist: the entry becomes a row of T_AUDIT_LOG. */
    method Persist(auditLog: AuditLog)
      requires auditLog.id.Some? && auditLog.createDate.Some?
      modifies this
      ensures db == old(db).(logs := old(db.logs) + [LogRow(
        auditLog.id.value, auditLog.createDate.value, auditLog.entityId,
        auditLog.entityClass, Name(auditLog.logType), auditLog.message)])
    {
      db := db.(logs := db.logs + [LogRow(
        auditLog.id.value, auditLog.createDate.value, auditLog.entityId,
        auditLog.entityClass, Name(auditLog.logType), auditLog.message)]);
    }
  }

  /**
   * create: overwrites the id with `freshId` (the random UUID) and the create
   * date with `now` (the clock), persists the entry and returns its id.
   */
  method Create(auditLog: AuditLog, em: EntityManager, freshId: string, now: int) returns (id: string)
    modifies auditLog, em
    ensures id == freshId
    ensures auditLog.id == Some(freshId) && auditLog.createDate == Some(now)
    ensures auditLog.entityId == old(auditLog.entityId) && auditLog.entityClass == old(auditLog.entityClass)
    ensures auditLog.logType == old(auditLog.logType) && auditLog.message == old(auditLog.message)
    ensures em.db == old(em.db).(logs := old(em.db.logs) + [LogRow(
      freshId, now, old(auditLog.entityId), old(auditLog.entityClass),
      Name(old(auditLog.logType)), old(auditLog.message))])
  {
    auditLog.id := Some(freshId);
    auditLog.createDate := Some(now);
    em.Persist(auditLog);
    id := auditLog.id.value;
  }

  /**
   * Appending a row keeps the log ids unique exactly when its id is new; ids
   * stay unique only as long as the generator's ids are fresh.
   */
  lemma AppendKeepsIdsUnique(logs: seq<LogRow>, row: LogRow)
    ensures UniqueIds(logs + [row]) <==> UniqueIds(logs) && row.id !in LogIds(logs)
  {
    var all := logs + [row];
    if UniqueIds(logs) && row.id !in LogIds(logs) {
      forall j, k | 0 <= j < k < |all| ensures all[j].id != all[k].id {
        assert all[j] == logs[j];
        if k < |logs| {
          assert all[k] == logs[k];
        } else {
          assert LogIds(logs)[j] == logs[j].id;
        }
      }
    }
    if UniqueIds(all) {
      forall j, k | 0 <= j < k < |logs| ensures logs[j].id != logs[k].id {
        assert all[j] == logs[j] && all[k] == logs[k];
      }
      forall j | 0 <= j < |logs| ensures LogIds(logs)[j] != row.id {
        assert all[j] == logs[j] && all[|logs|] == row;
      }
    }
  }

  /** Every row of the page is a selected log row, under the select's projection. */
  ghost predicate RowsSelected(db: Database, criteria: Criteria, rows: seq<ResultRow>)
  {
    forall k :: 0 <= k < |rows| ==> exists log :: log in SelectedLogs(db, criteria) && Project(log) == rows[k]
  }

  /** Every DTO a search produces describes a log row that is visible under the criteria. */
  lemma ResultsAreVisible(db: Database, criteria: Criteria, rows: seq<ResultRow>)
    requires RowsSelected(db, criteria, rows)
    requires MapRows(rows).Ok?
    ensures forall k :: 0 <= k < |MapRows(rows).value| ==>
      exists log :: log in db.logs && Visible(db, criteria, log) && DtoOfRow(MapRows(rows).value[k], Project(log))
  {
    MapRowsCharacterisation(rows);
    var dtos := MapRows(rows).value;
    forall k | 0 <= k < |dtos|
      ensures exists log :: log in db.logs && Visible(db, criteria, log) && DtoOfRow(dtos[k], Project(log))
    {
      var log :| log in SelectedLogs(db, criteria) && Project(log) == rows[k];
      SelectedLogsMeaning(db, criteria, log);
    }
  }

  /**
   * Round trip: an entry that `create` stored with type `t` is read back by a
   * search without criteria whose execution returns every selected row, with
   * the same id, create date, entity, type and message.
   */
  lemma CreatedEntryReadBack(db: Database, row: LogRow, t: AuditLogType, rows: seq<ResultRow>)
    requires row in db.logs && row.typeName == Name(t)
    requires forall log :: log in SelectedLogs(db, Criteria(None, None)) ==> Project(log) in rows
    requires MapRows(rows).Ok?
    ensures exists k :: && 0 <= k < |MapRows(rows).value|
                        && MapRows(rows).value[k]
                           == AuditLogDto(row.id, row.createDate, row.entityId, row.entityClass, t, row.message)
  {
    NoCriteriaSelectsEverything(db);
    MapRowsCharacterisation(rows);
    var k :| 0 <= k < |rows| && rows[k] == Project(row);
    ValueOfNameRoundTrip(t, row.typeName);
    assert DtoOfRow(MapRows(rows).value[k], rows[k]);
  }
}
