/** What the handlers of app/main.py promise, stated over the model in Resolver. */
module ResolverProperties {
  import opened Wrappers
  import opened Json
  import opened Contexts
  import opened Response
  import opened Negotiation
  import opened Resolver

  /** The listing keeps glob order: listing two runs of names is listing
      each and concatenating. */
  lemma {:induction false} ListingAppend(fs: FileSystem, namespace: string, a: seq<string>, b: seq<string>)
    ensures Listing(fs, namespace, a + b) == Listing(fs, namespace, a) + Listing(fs, namespace, b)
    decreases |b|
  {
    if b == [] {
      assert a + b == a;
    } else {
      var front := b[..|b| - 1];
      var last := b[|b| - 1];
      assert (a + b)[..|a + b| - 1] == a + front;
      assert (a + b)[|a + b| - 1] == last;
      ListingAppend(fs, namespace, a, front);
    }
  }

  /** One glob entry contributes its loaded value exactly when it is listed. */
  lemma ListingSingle(fs: FileSystem, namespace: string, name: string)
    ensures Listing(fs, namespace, [name]) ==
      if Listed(fs, namespace, name) then [fs[FilePath(namespace, name)]] else []
  {
  }

  /** The descriptor never shows up in the listing, wherever the glob puts it. */
  lemma ListingSkipsDescriptor(fs: FileSystem, namespace: string, a: seq<string>, b: seq<string>)
    ensures Listing(fs, namespace, a + [DescriptorName] + b) == Listing(fs, namespace, a + b)
  {
    ListingAppend(fs, namespace, a + [DescriptorName], b);
    ListingAppend(fs, namespace, a, [DescriptorName]);
    ListingSingle(fs, namespace, DescriptorName);
    ListingAppend(fs, namespace, a, b);
  }

  /** A glob entry that is missing or holds a falsy value (`{}`, `null`, `[]`,
      `""`, `0`, `false`) is dropped without affecting the rest. */
  lemma ListingDropsFalsy(fs: FileSystem, namespace: string, a: seq<string>, name: string, b: seq<string>)
    requires FilePath(namespace, name) !in fs || fs[FilePath(namespace, name)] in FalsyValues
    ensures Listing(fs, namespace, a + [name] + b) == Listing(fs, namespace, a + b)
  {
    ListingAppend(fs, namespace, a + [name], b);
    ListingAppend(fs, namespace, a, [name]);
    ListingSingle(fs, namespace, name);
    ListingAppend(fs, namespace, a, b);
  }

  /** A value is in the listing exactly when some listed glob entry loads to it. */
  lemma {:induction false} ListingMembers(fs: FileSystem, namespace: string, names: seq<string>, v: Json)
    ensures v in Listing(fs, namespace, names) <==>
      exists i :: 0 <= i < |names| && Listed(fs, namespace, names[i]) && fs[FilePath(namespace, names[i])] == v
    decreases |names|
  {
    if names != [] {
      var front := names[..|names| - 1];
      var last := names[|names| - 1];
      ListingMembers(fs, namespace, front, v);
      if v in Listing(fs, namespace, front) {
        var i :| 0 <= i < |front| && Listed(fs, namespace, front[i]) && fs[FilePath(namespace, front[i])] == v;
        assert names[i] == front[i];
      }
      if exists i :: 0 <= i < |names| && Listed(fs, namespace, names[i]) && fs[FilePath(namespace, names[i])] == v {
        var i :| 0 <= i < |names| && Listed(fs, namespace, names[i]) && fs[FilePath(namespace, names[i])] == v;
        if i < |front| {
          assert front[i] == names[i];
        }
      }
    }
  }

  /** A namespace request is refused with 404 "Namespace not found" exactly
      when the descriptor file is absent, whatever the header and the glob. */
  lemma NamespaceNotFoundIff(fs: FileSystem, namespace: string, names: seq<string>, accept: Option<string>)
    ensures StatusOf(ResolveNamespace(fs, namespace, names, accept)) == 404 <==>
      FilePath(namespace, DescriptorName) !in fs
    ensures FilePath(namespace, DescriptorName) !in fs ==>
      ResolveNamespace(fs, namespace, names, accept) == HttpError(404, NamespaceNotFound)
  {
  }

  /** The JSON branch of a namespace request returns the descriptor and the listing verbatim. */
  lemma NamespacePlainJson(fs: FileSystem, namespace: string, names: seq<string>, accept: Option<string>)
    requires FilePath(namespace, DescriptorName) in fs
    requires OccursIn(JsonMediaType, accept.GetOr(""))
    ensures ResolveNamespace(fs, namespace, names, accept) ==
      JsonReply(JObj(map[
        "namespace" := fs[FilePath(namespace, DescriptorName)],
        "records" := JArr(Listing(fs, namespace, names))]))
  {
  }

  /** The JSON-LD branch of a namespace request: a `Collection` whose
      `hasPart` lists, in order, the `openindex` of each listed record. */
  lemma NamespaceLinkedDataShape(fs: FileSystem, namespace: string, names: seq<string>, header: string)
    requires FilePath(namespace, DescriptorName) in fs
    requires fs[FilePath(namespace, DescriptorName)].JObj?
    requires forall v :: v in Listing(fs, namespace, names) ==> v.JObj?
    requires !OccursIn(JsonMediaType, header) && OccursIn(JsonLdMediaType, header)
    ensures var reply := ResolveNamespace(fs, namespace, names, Some(header));
      var records := Listing(fs, namespace, names);
      var descriptor := fs[FilePath(namespace, DescriptorName)].fields;
      && reply.JsonReply? && reply.body.JObj?
      && reply.body.fields.Keys == {"@id", "@type", "name", "hasPart"}
      && reply.body.fields["@type"] == JStr("Collection")
      && reply.body.fields["@id"] == Get(descriptor, "openindex")
      && reply.body.fields["name"] == Get(descriptor, "name")
      && reply.body.fields["hasPart"].JArr?
      && |reply.body.fields["hasPart"].items| == |records|
      && forall j :: 0 <= j < |records| ==>
           reply.body.fields["hasPart"].items[j] == Get(records[j].fields, "openindex")
  {
  }

  /** The JSON-LD branch of a namespace request fails with 500 when the
      descriptor or some listed record is not a JSON object. */
  lemma NamespaceLinkedDataFails(fs: FileSystem, namespace: string, names: seq<string>, header: string)
    requires FilePath(namespace, DescriptorName) in fs
    requires !fs[FilePath(namespace, DescriptorName)].JObj? ||
      exists v :: v in Listing(fs, namespace, names) && !v.JObj?
    requires !OccursIn(JsonMediaType, header) && OccursIn(JsonLdMediaType, header)
    ensures ResolveNamespace(fs, namespace, names, Some(header)) == ServerError
  {
  }

  /** Without either media type in the header a namespace is rendered
      through `namespace.html` with the descriptor and the listing. */
  lemma NamespaceHtml(fs: FileSystem, namespace: string, names: seq<string>, accept: Option<string>)
    requires FilePath(namespace, DescriptorName) in fs
    requires !OccursIn(JsonMediaType, accept.GetOr("")) && !OccursIn(JsonLdMediaType, accept.GetOr(""))
    ensures ResolveNamespace(fs, namespace, names, accept) ==
      TemplateReply("namespace.html", map[
        "namespace" := fs[FilePath(namespace, DescriptorName)],
        "records" := JArr(Listing(fs, namespace, names))])
  {
  }

  /** A record request is refused with 404 "Record not found" exactly when the
      file is missing or holds a falsy value such as `{}`. */
  lemma RecordNotFoundIff(fs: FileSystem, namespace: string, slug: string, accept: Option<string>)
    ensures StatusOf(ResolveRecord(fs, namespace, slug, accept)) == 404 <==>
      RecordPath(namespace, slug) !in fs || fs[RecordPath(namespace, slug)] in FalsyValues
  {
  }

  /** The JSON branch of a record request returns the stored record unchanged. */
  lemma RecordPlainJson(fs: FileSystem, namespace: string, slug: string, accept: Option<string>)
    requires RecordPath(namespace, slug) in fs && Truthy(fs[RecordPath(namespace, slug)])
    requires OccursIn(JsonMediaType, accept.GetOr(""))
    ensures ResolveRecord(fs, namespace, slug, accept) == JsonReply(fs[RecordPath(namespace, slug)])
  {
  }

  /** The JSON-LD branch of a record request is the three-key placeholder:
      exactly `@id`, `@type` and `name`, and no `@context`. */
  lemma RecordLinkedDataShape(fs: FileSystem, namespace: string, slug: string, header: string)
    requires RecordPath(namespace, slug) in fs && fs[RecordPath(namespace, slug)].JObj?
    requires Truthy(fs[RecordPath(namespace, slug)])
    requires !OccursIn(JsonMediaType, header) && OccursIn(JsonLdMediaType, header)
    ensures var reply := ResolveRecord(fs, namespace, slug, Some(header));
      var record := fs[RecordPath(namespace, slug)].fields;
      && reply.JsonReply? && reply.body.JObj?
      && reply.body.fields.Keys == {"@id", "@type", "name"}
      && ContextKey !in reply.body.fields
      && reply.body.fields["@id"] == Get(record, "openindex")
      && reply.body.fields["@type"] == Get(record, "type")
      && reply.body.fields["name"] == Get(record, "title")
  {
  }

  /** The record JSON-LD branch does not go through `wrap_record`: a record
      whose type has a context gets one from WrapRecord, yet the reply has none. */
  lemma RecordLinkedDataSkipsWrap(fs: FileSystem, namespace: string, slug: string, header: string)
    requires RecordPath(namespace, slug) in fs && fs[RecordPath(namespace, slug)].JObj?
    requires ContextForRecord(fs[RecordPath(namespace, slug)].fields).Some?
    requires !OccursIn(JsonMediaType, header) && OccursIn(JsonLdMediaType, header)
    ensures ContextKey in WrapRecord(fs[RecordPath(namespace, slug)].fields, true)
    ensures var reply := ResolveRecord(fs, namespace, slug, Some(header));
      reply.JsonReply? && reply.body.JObj? && ContextKey !in reply.body.fields
  {
  }

  /** A truthy record that is not an object (a non-empty list, say) makes the
      JSON-LD branch fail with 500. */
  lemma RecordLinkedDataFailsOnNonObject(fs: FileSystem, namespace: string, slug: string, header: string)
    requires RecordPath(namespace, slug) in fs
    requires Truthy(fs[RecordPath(namespace, slug)]) && !fs[RecordPath(namespace, slug)].JObj?
    requires !OccursIn(JsonMediaType, header) && OccursIn(JsonLdMediaType, header)
    ensures ResolveRecord(fs, namespace, slug, Some(header)) == ServerError
  {
  }

  /** Without either media type in the header a record is rendered through `record.html`. */
  lemma RecordHtml(fs: FileSystem, namespace: string, slug: string, accept: Option<string>)
    requires RecordPath(namespace, slug) in fs && Truthy(fs[RecordPath(namespace, slug)])
    requires !OccursIn(JsonMediaType, accept.GetOr("")) && !OccursIn(JsonLdMediaType, accept.GetOr(""))
    ensures ResolveRecord(fs, namespace, slug, accept) ==
      TemplateReply("record.html", map["record" := fs[RecordPath(namespace, slug)]])
  {
  }

  /** Distinct slugs of one namespace read distinct files. */
  lemma RecordPathInjective(namespace: string, a: string, b: string)
    requires a != b
    ensures RecordPath(namespace, a) != RecordPath(namespace, b)
  {
  }

  /** The slug `_namespace` reads the namespace descriptor as if it were a record. */
  lemma DescriptorServedAsRecord(fs: FileSystem, namespace: string, accept: Option<string>)
    ensures RecordPath(namespace, "_namespace") == FilePath(namespace, DescriptorName)
    ensures ResolveRecord(fs, namespace, "_namespace", accept).HttpError? <==>
      FilePath(namespace, DescriptorName) !in fs || !Truthy(fs[FilePath(namespace, DescriptorName)])
  {
  }

  /** The `earthpress` example record. */
  function EarthpressRecord(): map<string, Json>
  {
    map[
      "openindex" := JStr("oi:earthpress/tartarian-world"),
      "type" := JStr("Work"),
      "title" := JStr("The Tartarian World")]
  }

  /** The `earthpress` example: the record JSON-LD reply carries the
      placeholder keys and no context, although `Work` has one in the table. */
  lemma EarthpressExample(fs: FileSystem)
    requires fs == map[RecordPath("earthpress", "tartarian-world") := JObj(EarthpressRecord())]
    ensures ResolveRecord(fs, "earthpress", "tartarian-world", Some(JsonLdMediaType)) ==
      JsonReply(JObj(map[
        "@id" := JStr("oi:earthpress/tartarian-world"),
        "@type" := JStr("Work"),
        "name" := JStr("The Tartarian World")]))
  {
    EarthpressNegotiated(fs);
    EarthpressPlaceholder();
  }

  /** The `earthpress` record is found, and an `application/ld+json` request takes the JSON-LD branch. */
  lemma EarthpressNegotiated(fs: FileSystem)
    requires fs == map[RecordPath("earthpress", "tartarian-world") := JObj(EarthpressRecord())]
    ensures ResolveRecord(fs, "earthpress", "tartarian-world", Some(JsonLdMediaType)) ==
      RecordLinkedData(JObj(EarthpressRecord()))
  {
    NegotiateLinkedDataOnly();
    assert "type" in EarthpressRecord();
    RecordLinkedDataBranch(fs, "earthpress", "tartarian-world", Some(JsonLdMediaType));
  }

  /** A found record requested with a header that negotiates JSON-LD gets the placeholder body. */
  lemma RecordLinkedDataBranch(fs: FileSystem, namespace: string, slug: string, accept: Option<string>)
    requires RecordPath(namespace, slug) in fs && Truthy(fs[RecordPath(namespace, slug)])
    requires Negotiate(accept) == LinkedData
    ensures ResolveRecord(fs, namespace, slug, accept) == RecordLinkedData(fs[RecordPath(namespace, slug)])
  {
  }

  /** The placeholder body built from the `earthpress` record. */
  lemma EarthpressPlaceholder()
    ensures RecordLinkedData(JObj(EarthpressRecord())) ==
      JsonReply(JObj(map[
        "@id" := JStr("oi:earthpress/tartarian-world"),
        "@type" := JStr("Work"),
        "name" := JStr("The Tartarian World")]))
  {
  }

  /** Wrapping the `earthpress` record with a context adds the `Work` context URL. */
  lemma EarthpressWrapped()
    ensures WrapRecord(EarthpressRecord(), true) == EarthpressRecord()[ContextKey := JStr(WorkContext)]
  {
  }
}
