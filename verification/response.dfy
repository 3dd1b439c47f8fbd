/** `wrap_record` (resolver/response.py): a copy of a record, with `@context`
    set only when asked for and only when the record's type is in the table. */
module Response {
  import opened Wrappers
  import opened Json
  import opened Contexts

  const ContextKey := "@context"

  /** Dafny values are immutable, so the copy `wrap_record` takes with
      `deepcopy` is the value itself and the caller's record cannot change.
      As in `wrap_record`, no context is added unless it is asked for. */
  function WrapRecord(record: map<string, Json>, includeContext: bool := false): (response: map<string, Json>)
    ensures !includeContext ==> response == record
    ensures response.Keys - {ContextKey} == record.Keys - {ContextKey}
    ensures forall k :: k in record && k != ContextKey ==> k in response && response[k] == record[k]
    ensures includeContext && ContextForRecord(record).Some? ==>
      ContextKey in response && response[ContextKey] == JStr(ContextForRecord(record).value)
    ensures includeContext && ContextForRecord(record).None? ==> response == record
    ensures TypeField(response) == TypeField(record)
  {
    if includeContext then
      match ContextForRecord(record)
      case Some(url) => record[ContextKey := JStr(url)]
      case None => record
    else
      record
  }

  /** Called without the flag, `wrap_record` returns an equal copy of its input. */
  lemma WrapRecordDefaultIsCopy(record: map<string, Json>)
    ensures WrapRecord(record) == record
  {
  }

  /** Wrapping an already-wrapped record again changes nothing: the `type`
      field, and so the looked-up context, is the same. */
  lemma WrapRecordIdempotent(record: map<string, Json>)
    ensures WrapRecord(WrapRecord(record, true), true) == WrapRecord(record, true)
  {
  }
}
