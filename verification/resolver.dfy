/** The two request handlers of app/main.py with their I/O abstracted:
    the records tree is a map from path to parsed JSON, the directory glob is
    a given sequence of file names, and the HTML template is an opaque value
    carrying its inputs. */
module Resolver {
  import opened Wrappers
  import opened Json
  import opened Contexts
  import opened Response
  import opened Negotiation

  /** A file `records/{namespace}/{name}`. */
  datatype FilePath = FilePath(namespace: string, name: string)

  /** The records tree: a path present in the map exists and holds that parsed value. */
  type FileSystem = map<FilePath, Json>

  const DescriptorName := "_namespace.json"
  const NamespaceNotFound := "Namespace not found"
  const RecordNotFound := "Record not found"

  /** What a handler hands back to the web framework. */
  datatype Reply =
    | JsonReply(body: Json)                                   // JSONResponse, status 200
    | TemplateReply(template: string, context: map<string, Json>) // TemplateResponse, status 200
    | HttpError(status: int, detail: string)                  // HTTPException raised by the handler
    | ServerError                                             // an uncaught exception: status 500

  /** The HTTP status the framework sends for a reply. */
  function StatusOf(reply: Reply): int
  {
    match reply
    case JsonReply(_) => 200
    case TemplateReply(_, _) => 200
    case HttpError(status, _) => status
    case ServerError => 500
  }

  /** `load_json`: None exactly when the path does not exist, the parsed value otherwise. */
  function LoadJson(fs: FileSystem, path: FilePath): (loaded: Option<Json>)
    ensures loaded.None? <==> path !in fs
    ensures loaded.Some? ==> loaded.value == fs[path]
  {
    Lookup(fs, path)
  }

  /** A name from the glob whose loaded value the listing keeps. */
  predicate Listed(fs: FileSystem, namespace: string, name: string)
    ensures Listed(fs, namespace, name) <==>
      && name != DescriptorName
      && FilePath(namespace, name) in fs
      && fs[FilePath(namespace, name)] !in FalsyValues
  {
    && name != DescriptorName
    && LoadJson(fs, FilePath(namespace, name)).Some?
    && Truthy(LoadJson(fs, FilePath(namespace, name)).value)
  }

  /** The `records` list built by the loop of `resolve_namespace`, one glob entry at a time. */
  function Listing(fs: FileSystem, namespace: string, names: seq<string>): (records: seq<Json>)
    ensures |records| <= |names|
    ensures forall j :: 0 <= j < |records| ==> Truthy(records[j])
    decreases |names|
  {
    if names == [] then []
    else
      var last := names[|names| - 1];
      Listing(fs, namespace, names[..|names| - 1])
        + (if Listed(fs, namespace, last) then [fs[FilePath(namespace, last)]] else [])
  }

  /** The `hasPart` list: the `openindex` of every record, `null` where it has none. */
  function OpenindexOf(records: seq<Json>): (parts: seq<Json>)
    requires forall j :: 0 <= j < |records| ==> records[j].JObj?
    ensures |parts| == |records|
    ensures forall j :: 0 <= j < |records| ==> parts[j] == Get(records[j].fields, "openindex")
  {
    if records == [] then []
    else [Get(records[0].fields, "openindex")] + OpenindexOf(records[1..])
  }

  /** The JSON-LD body of a namespace; `.get` on a descriptor or record that
      is not an object raises, which the framework turns into a 500. */
  function NamespaceLinkedData(descriptor: Json, records: seq<Json>): (reply: Reply)
    ensures reply == ServerError <==>
      !descriptor.JObj? || exists j :: 0 <= j < |records| && !records[j].JObj?
    ensures reply != ServerError ==>
      && reply.JsonReply? && reply.body.JObj?
      && reply.body.fields.Keys == {"@id", "@type", "name", "hasPart"}
      && reply.body.fields["@type"] == JStr("Collection")
  {
    if !descriptor.JObj? then ServerError
    else if exists j :: 0 <= j < |records| && !records[j].JObj? then ServerError
    else
      JsonReply(JObj(map[
        "@id" := Get(descriptor.fields, "openindex"),
        "@type" := JStr("Collection"),
        "name" := Get(descriptor.fields, "name"),
        "hasPart" := JArr(OpenindexOf(records))
      ]))
  }

  /** `resolve_namespace`: `names` stands for the glob of `*.json` in the namespace directory. */
  function ResolveNamespace(fs: FileSystem, namespace: string, names: seq<string>, accept: Option<string>)
    : (reply: Reply)
    ensures reply == HttpError(404, NamespaceNotFound) <==> FilePath(namespace, DescriptorName) !in fs
    ensures reply.HttpError? ==> reply == HttpError(404, NamespaceNotFound)
    ensures reply.ServerError? ==> Negotiate(accept) == LinkedData
  {
    var descriptorPath := FilePath(namespace, DescriptorName);
    if descriptorPath !in fs then HttpError(404, NamespaceNotFound)
    else
      var descriptor := LoadJson(fs, descriptorPath).value;
      var records := Listing(fs, namespace, names);
      match Negotiate(accept)
      case PlainJson => JsonReply(JObj(map["namespace" := descriptor, "records" := JArr(records)]))
      case LinkedData => NamespaceLinkedData(descriptor, records)
      case Html => TemplateReply("namespace.html", map["namespace" := descriptor, "records" := JArr(records)])
  }

  /** The path `resolve_record` reads: the slug followed by `.json`, in the namespace directory. */
  function RecordPath(namespace: string, slug: string): (path: FilePath)
    ensures path.namespace == namespace
    ensures |path.name| == |slug| + 5
    ensures path.name[..|slug|] == slug && path.name[|slug|..] == ".json"
  {
    FilePath(namespace, slug + ".json")
  }

  /** The placeholder JSON-LD body of a record. */
  function RecordLinkedData(record: Json): (reply: Reply)
    ensures reply == ServerError <==> !record.JObj?
    ensures reply != ServerError ==>
      && reply.JsonReply? && reply.body.JObj?
      && reply.body.fields.Keys == {"@id", "@type", "name"}
  {
    if !record.JObj? then ServerError
    else
      JsonReply(JObj(map[
        "@id" := Get(record.fields, "openindex"),
        "@type" := Get(record.fields, "type"),
        "name" := Get(record.fields, "title")
      ]))
  }

  /** `resolve_record`. */
  function ResolveRecord(fs: FileSystem, namespace: string, slug: string, accept: Option<string>)
    : (reply: Reply)
    ensures reply == HttpError(404, RecordNotFound) <==>
      RecordPath(namespace, slug) !in fs || !Truthy(fs[RecordPath(namespace, slug)])
    ensures reply.HttpError? ==> reply == HttpError(404, RecordNotFound)
    ensures reply.ServerError? ==> Negotiate(accept) == LinkedData
  {
    var loaded := LoadJson(fs, RecordPath(namespace, slug));
    if loaded.None? || !Truthy(loaded.value) then HttpError(404, RecordNotFound)
    else
      var record := loaded.value;
      match Negotiate(accept)
      case PlainJson => JsonReply(record)
      case LinkedData => RecordLinkedData(record)
      case Html => TemplateReply("record.html", map["record" := record])
  }
}
