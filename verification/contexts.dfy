/** The fixed table from a record's `type` to its JSON-LD context URL
    (resolver/contexts.py). */
module Contexts {
  import opened Wrappers
  import opened Json

  const NamespaceContext := "https://openindex.id/contexts/namespace.jsonld"
  const WorkContext := "https://openindex.id/contexts/work.jsonld"
  const EditionContext := "https://openindex.id/contexts/edition.jsonld"
  const DigitalObjectContext := "https://openindex.id/contexts/digital-object.jsonld"

  /** The four entries of the table, built once and never changed. */
  const ContextMap: map<string, string> := map[
    "namespace" := NamespaceContext,
    "Work" := WorkContext,
    "Edition" := EditionContext,
    "DigitalObject" := DigitalObjectContext
  ]

  /** The `type` field of a record, if it has one. */
  function TypeField(record: map<string, Json>): (t: Option<Json>)
    ensures t.Some? <==> "type" in record
    ensures t.Some? ==> t.value == record["type"]
  {
    Lookup(record, "type")
  }

  /** The context URL for a record, or None when its type is absent or not in the table. */
  function ContextForRecord(record: map<string, Json>): (url: Option<string>)
    ensures TypeField(record) == Some(JStr("namespace")) ==> url == Some(NamespaceContext)
    ensures TypeField(record) == Some(JStr("Work")) ==> url == Some(WorkContext)
    ensures TypeField(record) == Some(JStr("Edition")) ==> url == Some(EditionContext)
    ensures TypeField(record) == Some(JStr("DigitalObject")) ==> url == Some(DigitalObjectContext)
    ensures url.None? <==>
      TypeField(record).None? ||
      TypeField(record).value !in
        {JStr("namespace"), JStr("Work"), JStr("Edition"), JStr("DigitalObject")}
    ensures url.Some? ==>
      url.value in {NamespaceContext, WorkContext, EditionContext, DigitalObjectContext}
  {
    match TypeField(record)
    case Some(JStr(t)) => Lookup(ContextMap, t)
    case _ => None
  }

  /** The result depends on nothing but the `type` field. */
  lemma ContextDependsOnlyOnType(a: map<string, Json>, b: map<string, Json>)
    requires TypeField(a) == TypeField(b)
    ensures ContextForRecord(a) == ContextForRecord(b)
  {
  }

  /** No two types of the table share a context URL. */
  lemma ContextMapInjective(t: string, u: string)
    requires t in ContextMap && u in ContextMap && t != u
    ensures ContextMap[t] != ContextMap[u]
  {
  }
}
