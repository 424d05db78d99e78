# Audit log DAO of Teedy, in Dafny

This project models `AuditLogDao`, the data-access object of Teedy's audit trail.
Teedy is a document management system. Its audit trail records changes to
documents, files, ACL entries, users and tags. The DAO has two operations:

- `create` stamps an audit log entry with a fresh id and the current date,
  persists it and returns the id.
- `findByCriteria` turns search criteria (an optional document id and an
  optional user id) into a parameterised SQL query. It hands the query to the
  paginated execution and maps every returned row to an `AuditLogDto`. It
  then stores the DTO list in the paginated list.

Modules, one file each:

- `Wrappers` (`wrappers.dfy`): `Option` and `Result`. `None` stands for Java's `null`, `Err` for a thrown exception.
- `AuditLogTypes` (`audit_log_type.dfy`): the closed enumeration of change kinds and `valueOf`.
- `Schema` (`schema.dfy`): the tables the query reads, held in memory. These are T_AUDIT_LOG, T_FILE, T_ACL, T_TAG and T_DOCUMENT.
- `AuditLogQuery` (`query.dfy`): the query as a function of the criteria.
  - The query is a sequence of pieces. A piece is either one of a closed set of constant SQL fragments, or a named placeholder such as `:documentId`.
  - `Render` gives the SQL string that `AuditLogDao.findByCriteria` builds.
  - `QueryParams` gives the named-parameter map.
- `Visibility` (`visibility.dfy`): what the query selects.
  - Each clause gets its SQL meaning over the tables. In SQL, `and` binds tighter than `or`, and `x in (select …)` is membership in the sub-select.
  - The where-clause keeps a row when every active clause holds with the map's values.
  - Reference definitions of the two visibility rules (`DocumentVisible`, `UserVisible`) stand beside this meaning, and lemmas prove that the two agree. These reference rules are the clauses' disjunctions restated with `exists` over the tables rather than sub-select sets, so their agreement with `Holds` is close to definitional. What the search selects is stated by `SelectedLogsMeaning`, `NoCriteriaSelectsEverything`, `BothCriteriaIntersect` and `AclEntryNeedsLiveAcl`.
- `AuditLogDao` (`audit_log_dao.dfy`): the DAO itself, written imperatively.
  - `BuildQuery` appends to the query, the clause list and the parameter map in the order of `AuditLogDao.findByCriteria`.
  - `AssembleResults` is the row-mapping loop, proved against the function `MapRows`.
  - `FindByCriteria` updates a `PaginatedList` object.
  - `Create` updates an `AuditLog` object and appends a row to an `EntityManager`.

Outside inputs become parameters:

- The random UUID in `create` is the `freshId` parameter.
- The clock in `create` is the `now` parameter.
- The paginated execution in `findByCriteria` is the `executePaginatedQuery` parameter. It is a function from the query, the sort criteria and the window to a page of rows plus a total count.

Two facts about the criteria:

- Criteria values are only tested for `null` (`AuditLogDao.java:66,75`), so an empty id still adds its clause.
- When both criteria are set, the document clause and the user clause are combined with `and` (`AuditLogDao.java:86`). The selection is the intersection of the two (`Visibility.BothCriteriaIntersect`).

## Model

| member | source | states |
|---|---|---|
| AuditLogTypes.ValueOf | docs-core/src/main/java/com/sismics/docs/core/dao/jpa/AuditLogDao.java:102 | parses a type name; specified by `ValueOfNameRoundTrip` (each constant's name parses to it, and only it does) and `ValueOfRefusesUnknown` (every other name fails) |
| AuditLogQuery.FragmentText | docs-core/src/main/java/com/sismics/docs/core/dao/jpa/AuditLogDao.java:62-85 | the text of each constant SQL fragment; by construction the same literals `findByCriteria` appends; `ClauseIsParenthesised` and `QueryStartsWithSelect` state what is proved about it |
| AuditLogQuery.Render | docs-core/src/main/java/com/sismics/docs/core/dao/jpa/AuditLogDao.java:62-90 | the query string as the concatenation of the pieces' texts; `QueryStartsWithSelect` (the string starts with the select) and `QueryIgnoresValues` (it depends only on the null pattern) are proved about it |
| AuditLogQuery.Join | docs-core/src/main/java/com/sismics/docs/core/dao/jpa/AuditLogDao.java:86 | Guava's `Joiner.on(sep).join`; `JoinElements` states which elements occur in the result |
| AuditLogQuery.JoinElements | docs-core/src/main/java/com/sismics/docs/core/dao/jpa/AuditLogDao.java:86 | an element of a join comes from the separator or from a part; every element of a part and, with two or more parts, of the separator occurs in the join |
| AuditLogQuery.QueryFor | docs-core/src/main/java/com/sismics/docs/core/dao/jpa/AuditLogDao.java:59-90 | the QueryParam `findByCriteria` builds; specified by `QueryStartsWithSelect`, `WhereIffSomeCriterion`, `OneCriterionQuery`, `BothCriteriaOrder`, `PlaceholdersAreBound` and `QueryIgnoresValues`, and matched step by step by `BuildQuery` |
| Visibility.Holds | docs-core/src/main/java/com/sismics/docs/core/dao/jpa/AuditLogDao.java:68-79 | the SQL meaning of one clause over the tables; `DocumentClauseMeaning`, `UserClauseMeaning` and `UserClauseNeverMatchesAcl` state it |
| Visibility.SelectedLogs | docs-core/src/main/java/com/sismics/docs/core/dao/jpa/AuditLogDao.java:66-87 | the log rows the query selects; specified by `SelectedLogsMeaning`, `NoCriteriaSelectsEverything`, `BothCriteriaIntersect` and `AclEntryNeedsLiveAcl` |
| AuditLogDao.MapRows | docs-core/src/main/java/com/sismics/docs/core/dao/jpa/AuditLogDao.java:94-105 | the row-to-DTO mapping; specified by `MapRowsCharacterisation` and `MapRowsErrorPersists`, and computed by `AssembleResults` |
| AuditLogTypes.ValueOfNameRoundTrip | docs-core/src/main/java/com/sismics/docs/core/dao/jpa/AuditLogDao.java:102 | `valueOf` of a constant's name gives that constant, and a name parses to a constant exactly when it is that constant's name |
| AuditLogTypes.ValueOfRefusesUnknown | docs-core/src/main/java/com/sismics/docs/core/dao/jpa/AuditLogDao.java:102 | `valueOf` fails exactly on names that are no constant's name |
| AuditLogQuery.ActiveClauses | docs-core/src/main/java/com/sismics/docs/core/dao/jpa/AuditLogDao.java:66-82 | the document clause is present iff documentId is non-null, the user clause iff userId is non-null, and the document clause comes first |
| AuditLogQuery.QueryParams | docs-core/src/main/java/com/sismics/docs/core/dao/jpa/AuditLogDao.java:59-81 | the map's keys are exactly "documentId" when documentId is non-null and "userId" when userId is non-null, each bound to that criterion's value |
| AuditLogQuery.ClauseParams | docs-core/src/main/java/com/sismics/docs/core/dao/jpa/AuditLogDao.java:68-79 | each clause refers to its own placeholder and to no other |
| AuditLogQuery.ClauseIsParenthesised | docs-core/src/main/java/com/sismics/docs/core/dao/jpa/AuditLogDao.java:68-79 | each clause's text opens with " (" and ends with ") " |
| AuditLogQuery.QueryStartsWithSelect | docs-core/src/main/java/com/sismics/docs/core/dao/jpa/AuditLogDao.java:62-63 | whatever the criteria, the query starts with the six-column select from T_AUDIT_LOG, and so does its SQL string |
| AuditLogQuery.WhereIffSomeCriterion | docs-core/src/main/java/com/sismics/docs/core/dao/jpa/AuditLogDao.java:84-87 | " where " is appended iff some criterion is non-null; with none, the query is exactly the fixed select |
| AuditLogQuery.OneCriterionQuery | docs-core/src/main/java/com/sismics/docs/core/dao/jpa/AuditLogDao.java:84-87 | with one criterion, the query is the fixed select, " where " and that criterion's clause |
| AuditLogQuery.BothCriteriaOrder | docs-core/src/main/java/com/sismics/docs/core/dao/jpa/AuditLogDao.java:66-87 | with both criteria, the query is the select, " where ", the document clause, " and ", then the user clause |
| AuditLogQuery.PlaceholdersAreBound | docs-core/src/main/java/com/sismics/docs/core/dao/jpa/AuditLogDao.java:66-82 | the placeholders in the query are exactly the keys of the parameter map |
| AuditLogQuery.QueryIgnoresValues | docs-core/src/main/java/com/sismics/docs/core/dao/jpa/AuditLogDao.java:66-87 | two criteria with the same null pattern give the same query and the same SQL string; the values reach only the map |
| Visibility.DocumentClauseMeaning | docs-core/src/main/java/com/sismics/docs/core/dao/jpa/AuditLogDao.java:68-70 | the document clause holds iff the entry is the Document itself, a File of the document, or an Acl whose source is the document |
| Visibility.UserClauseMeaning | docs-core/src/main/java/com/sismics/docs/core/dao/jpa/AuditLogDao.java:76-79 | the user clause holds iff the entry is the User itself, a Tag the user owns, or a Document the user owns |
| Visibility.UserClauseNeverMatchesAcl | docs-core/src/main/java/com/sismics/docs/core/dao/jpa/AuditLogDao.java:78-79 | the user clause never shows an Acl entry |
| Visibility.SelectLogsMembership | docs-core/src/main/java/com/sismics/docs/core/dao/jpa/AuditLogDao.java:84-86 | a row is selected iff it is in the table and every clause joined by " and " holds for it |
| Visibility.SelectLogsWithoutClauses | docs-core/src/main/java/com/sismics/docs/core/dao/jpa/AuditLogDao.java:84-87 | with no where-clause, every row is kept, in table order |
| Visibility.SelectedLogsMeaning | docs-core/src/main/java/com/sismics/docs/core/dao/jpa/AuditLogDao.java:66-87 | the search selects a row iff it is in T_AUDIT_LOG and visible under every non-null criterion |
| Visibility.NoCriteriaSelectsEverything | docs-core/src/main/java/com/sismics/docs/core/dao/jpa/AuditLogDao.java:84-87 | with neither criterion set, the search selects the whole log table |
| Visibility.BothCriteriaIntersect | docs-core/src/main/java/com/sismics/docs/core/dao/jpa/AuditLogDao.java:84-86 | with both criteria set, a row is selected iff each criterion alone would select it (intersection, not union) |
| Visibility.AclEntryNeedsLiveAcl | docs-core/src/main/java/com/sismics/docs/core/dao/jpa/AuditLogDao.java:67-79 | of the searches with a criterion set, only a document-only one shows an Acl entry, and only while its ACL row exists with that document as source, so deleting the ACL hides its history |
| AuditLogDao.MapRowsErrorPersists | docs-core/src/main/java/com/sismics/docs/core/dao/jpa/AuditLogDao.java:95-105 | once a prefix of the rows fails to map, the whole call fails with the same error |
| AuditLogDao.MapRowsCharacterisation | docs-core/src/main/java/com/sismics/docs/core/dao/jpa/AuditLogDao.java:94-105 | mapping succeeds iff every type name is known; the DTOs then have the rows' length and order and carry columns 0..5; otherwise the error names the first unknown type |
| AuditLogDao.BuildQuery | docs-core/src/main/java/com/sismics/docs/core/dao/jpa/AuditLogDao.java:59-90 | appending step by step in the order of `AuditLogDao.findByCriteria` yields exactly the query and parameter map of `QueryFor` |
| AuditLogDao.AssembleResults | docs-core/src/main/java/com/sismics/docs/core/dao/jpa/AuditLogDao.java:94-105 | the loop returns `MapRows` of the rows: one DTO per row in order, or the first row's unknown-type error |
| AuditLogDao.FindByCriteria | docs-core/src/main/java/com/sismics/docs/core/dao/jpa/AuditLogDao.java:58-108 | the execution receives `QueryFor(criteria)`; its count is recorded; the result list becomes the mapped DTOs, or stays unset when a type name is unknown |
| AuditLogDao.EntityManager.Persist | docs-core/src/main/java/com/sismics/docs/core/dao/jpa/AuditLogDao.java:44 | persisting appends the entry as a T_AUDIT_LOG row, with the type stored by name, and changes nothing else |
| AuditLogDao.Create | docs-core/src/main/java/com/sismics/docs/core/dao/jpa/AuditLogDao.java:37-47 | id and create date are overwritten with the fresh id and the clock, the other fields are unchanged, the row is appended, and the stored id is returned |
| AuditLogDao.AppendKeepsIdsUnique | docs-core/src/main/java/com/sismics/docs/core/dao/jpa/AuditLogDao.java:39 | appending keeps log ids unique iff the new id is not already in the table |
| AuditLogDao.ResultsAreVisible | docs-core/src/main/java/com/sismics/docs/core/dao/jpa/AuditLogDao.java:89-107 | when the execution returns selected rows, every DTO describes a log row that is visible under the criteria |
| AuditLogDao.CreatedEntryReadBack | docs-core/src/main/java/com/sismics/docs/core/dao/jpa/AuditLogDao.java:37-107 | an entry stored with type t is read back by a search without criteria with the same id, date, entity, class, type and message |

## Left out

- Query text. The lemmas about the query's structure are stated on the piece sequence, not on the rendered string. The string is `Render` of the pieces. At the piece level, the top-level " where " is its own fragment. In the rendered string the same characters also occur inside the four sub-selects (on T_FILE, T_ACL, T_TAG and T_DOCUMENT).
- Query text. The agreement between `Render` of the pieces and the string literals of `AuditLogDao.findByCriteria` is by construction: each fragment spells its literal as a concatenation of short words. No lemma restates the whole string, because the solver cannot afford literals that long.
- SQL. The model gives each clause its meaning directly and does not parse or execute SQL. SQL `NULL` semantics in the comparisons and sub-selects are not modelled.
- Random UUID and clock. `UUID.randomUUID()` and `new Date()` are the caller-supplied parameters `freshId` and `now`. Uniqueness of ids holds only as far as `AppendKeepsIdsUnique` goes: the ids stay unique when the fresh id is new.
- Persistence session. `ThreadLocalContext` and the `EntityManager` are reduced to appending a snapshot row to an in-memory table. Not modelled: JPA's managed-entity behaviour (later changes to the object being flushed), transactions, and persistence failures.
- Pagination. `PaginatedLists.executePaginatedQuery` and `SortCriteria` are an opaque function parameter. Limit, offset, sorting, the count query and failures of the execution itself (the exception `executePaginatedQuery` may throw at `AuditLogDao.java:91`) are not modelled. Only `ResultsAreVisible` and `CreatedEntryReadBack` assume anything about the rows it returns, and they state that assumption as a precondition.
- Result rows. A row (`Object[]`) is a typed record whose fields are named after the select aliases c0..c5. The casts, `null` columns, and the exceptions they would raise (`ClassCastException`, `NullPointerException` in `getTime` or `valueOf(null)`) are not modelled. `Timestamp.getTime()` is the `time` field.
- AuditLogType. Its constants are taken to be CREATE, UPDATE and DELETE; the enumeration's source file is not part of this model. The entity is taken to store its type by constant name.
