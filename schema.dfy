/**
 * An in-memory picture of the tables the audit log query reads:
 * T_AUDIT_LOG and the four tables its visibility clauses join against.
 */
module Schema {
  import opened AuditLogTypes

  /** A stored T_AUDIT_LOG row; the type column holds a symbolic name, which storage drift may corrupt. */
  datatype LogRow = LogRow(
    id: string,          // LOG_ID_C
    createDate: int,     // LOG_CREATEDATE_D, in epoch milliseconds
    entityId: string,    // LOG_IDENTITY_C
    entityClass: string, // LOG_CLASSENTITY_C
    typeName: string,    // LOG_TYPE_C
    message: string)     // LOG_MESSAGE_C

  /** T_FILE: FIL_ID_C and the document it belongs to, FIL_IDDOC_C. */
  datatype FileRow = FileRow(id: string, documentId: string)

  /** T_ACL: ACL_ID_C and the object it protects, ACL_SOURCEID_C. */
  datatype AclRow = AclRow(id: string, sourceId: string)

  /** T_TAG: TAG_ID_C and its owner, TAG_IDUSER_C. */
  datatype TagRow = TagRow(id: string, userId: string)

  /** T_DOCUMENT: DOC_ID_C and its owner, DOC_IDUSER_C. */
  datatype DocumentRow = DocumentRow(id: string, userId: string)

  datatype Database = Database(
    logs: seq<LogRow>,
    files: seq<FileRow>,
    acls: seq<AclRow>,
    tags: seq<TagRow>,
    documents: seq<DocumentRow>)

  /** The log ids, in table order. */
  function LogIds(logs: seq<LogRow>): (ids: seq<string>)
    ensures |ids| == |logs|
    ensures forall k :: 0 <= k < |logs| ==> ids[k] == logs[k].id
  {
    if logs == [] then [] else [logs[0].id] + LogIds(logs[1..])
  }

  /** No two log rows share an id (LOG_ID_C is the primary key). */
  predicate UniqueIds(logs: seq<LogRow>)
  {
    forall j, k :: 0 <= j < k < |logs| ==> logs[j].id != logs[k].id
  }
}
