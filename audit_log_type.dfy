/**
 * The closed enumeration of audit log change kinds and its parse from the
 * symbolic name stored in the LOG_TYPE_C column (Java's `Enum.valueOf`).
 */
module AuditLogTypes {
  import opened Wrappers

  datatype AuditLogType = CREATE | UPDATE | DELETE

  /** The symbolic name of a constant, as the enumeration stores it. */
  function Name(t: AuditLogType): (name: string)
    ensures name != []
  {
    match t
    case CREATE => "CREATE"
    case UPDATE => "UPDATE"
    case DELETE => "DELETE"
  }

  /** `AuditLogType.valueOf`: exact, case-sensitive match; `None` where Java throws. */
  function ValueOf(name: string): (t: Option<AuditLogType>)
  {
    if name == "CREATE" then Some(CREATE)
    else if name == "UPDATE" then Some(UPDATE)
    else if name == "DELETE" then Some(DELETE)
    else None
  }

  /** Parsing recognises exactly the names of the constants, each as its own constant. */
  lemma ValueOfNameRoundTrip(t: AuditLogType, name: string)
    ensures ValueOf(Name(t)) == Some(t)
    ensures ValueOf(name) == Some(t) <==> name == Name(t)
  {
  }

  /** A name that is not one of the constants' names is refused. */
  lemma ValueOfRefusesUnknown(name: string)
    ensures ValueOf(name).None? <==> forall t: AuditLogType :: Name(t) != name
  {
    if ValueOf(name).None? {
      forall t: AuditLogType ensures Name(t) != name {
        ValueOfNameRoundTrip(t, name);
      }
    } else {
      ValueOfNameRoundTrip(ValueOf(name).value, name);
    }
  }
}
