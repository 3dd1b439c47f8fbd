# OpenIndex resolver: a Dafny model

The OpenIndex resolver serves namespaced identifiers (`/earthpress`,
`/earthpress/tartarian-world`) from JSON files kept under `records/`. Each
response is HTML, JSON or JSON-LD, and the choice is made by substring tests
on the `Accept` header. This project models the logic-bearing part of that
service as pure Dafny functions over an immutable JSON datatype:

- `wrappers.dfy` (`Wrappers`): `Option` and a `dict.get`-style `Lookup`.
- `json.dfy` (`Json`): parsed JSON values, Python truthiness (`Truthy`) and
  `dict.get` (`Get`).
- `contexts.dfy` (`Contexts`): the fixed `CONTEXT_MAP` table and
  `get_context_for_record`.
- `response.dfy` (`Response`): `wrap_record`.
- `negotiation.dfy` (`Negotiation`): Python's substring test `in`, stated
  declaratively (`OccursIn`) and computed (`Contains`), and the order in
  which both handlers test the header (`Negotiate`).
- `resolver.dfy` (`Resolver`): `load_json`, the record listing of a
  namespace, and the two handlers `resolve_namespace` and `resolve_record`.
- `resolver_properties.dfy` (`ResolverProperties`): what the handlers
  promise, as lemmas over the model.

The records tree is a map from `FilePath(namespace, name)` to the parsed
value. A path that is absent from the map is a file that does not exist. The
directory glob is a given sequence of file names, kept in the order the
file system returns them and never sorted. The HTML branch is a
`TemplateReply` that carries the template name and the values handed to the
template. An exception that the handlers do not catch is `ServerError`
(status 500).

Behaviour of the handlers worth knowing:

- Negotiation tests `application/json` first and `application/ld+json` second.
  A header that contains both therefore gets plain JSON.
  `application/ld+json` does not itself contain `application/json`
  (`Negotiation.JsonLdTypeLacksJsonType`), so the JSON-LD branch is reachable.
- The record JSON-LD branch does not call `wrap_record` and emits no
  `@context`. It emits a three-key placeholder: `@id`, `@type` and `name`.
  `wrap_record` is modelled on its own, and
  `ResolverProperties.RecordLinkedDataSkipsWrap` states the difference.
- The namespace JSON-LD body carries no `@context` either.
- The namespace listing keeps only truthy loaded values: `{}`, `null`, `[]`,
  `""`, `0` and `false` are dropped. A malformed file makes the request
  fail with 500 (see Left out).

## Model

| member | source | states |
|---|---|---|
| Json.Get | app/main.py:68-71 | `.get(key)` on an object gives the key's value when present and null when absent |
| Json.Truthy | app/main.py:52-54 | a loaded value is kept by `if record:` exactly when it is not one of Python's falsy JSON values: null, false, zero, "", [] or {} |
| Contexts.TypeField | resolver/contexts.py:9 | the record's `type` is present exactly when the key is in the record, and is then that key's value |
| Contexts.ContextForRecord | resolver/contexts.py:1-10 | `namespace`, `Work`, `Edition` and `DigitalObject` map to their own URLs; a missing type, a non-string type or a type not in the table gives none; every result is one of the four table URLs |
| Contexts.ContextDependsOnlyOnType | resolver/contexts.py:8-10 | two records with the same `type` field (or both without one) get the same context |
| Contexts.ContextMapInjective | resolver/contexts.py:1-6 | distinct types in the table have distinct context URLs |
| Response.WrapRecord | resolver/response.py:4-12 | `include_context` defaults to false; without it the result is the input; every key other than `@context` keeps its value and no other key is added; with a recognised type, `@context` is set to that type's URL, overwriting any earlier one; with an unrecognised or absent type the input comes back as is, keeping any `@context` it had; the `type` field is unchanged |
| Response.WrapRecordDefaultIsCopy | resolver/response.py:4-7 | called without the flag, the result equals the input |
| Response.WrapRecordIdempotent | resolver/response.py:4-12 | wrapping an already-wrapped record with a context gives the same record again |
| Negotiation.Contains | app/main.py:59 | the computed substring test holds exactly when the media type occurs at some position of the header |
| Negotiation.Negotiate | app/main.py:56-75 | JSON exactly when the header (or "" when it is absent) contains `application/json`; JSON-LD exactly when it contains `application/ld+json` but not `application/json`; HTML exactly when it contains neither |
| Negotiation.JsonLdTypeLacksJsonType | app/main.py:59-66 | `application/ld+json` does not contain `application/json` as a substring |
| Negotiation.NegotiateLinkedDataOnly | app/main.py:59-66 | the header `application/ld+json` alone is answered with JSON-LD |
| Negotiation.NegotiateBothPrefersJson | app/main.py:59-63 | a header that contains both media types is answered with plain JSON |
| Negotiation.NegotiateAbsentHeaderIsHtml | app/main.py:56-75 | a request without an `Accept` header reads it as "" and is answered with HTML |
| Negotiation.NegotiateFallsBackToHtml | app/main.py:59-75 | a header too short to hold either media type, such as `text/plain`, is answered with HTML |
| Negotiation.NegotiateBrowserHeaderIsHtml | app/main.py:59-75 | the browser header `text/html,*/*;q=0.8` is answered with HTML: the wildcard matches neither substring test |
| Resolver.LoadJson | app/main.py:25-29 | none exactly when the path does not exist; otherwise the parsed value stored at that path |
| Resolver.Listed | app/main.py:50-53 | a glob entry is kept exactly when its name is not `_namespace.json`, the file exists, and its value is not falsy |
| Resolver.Listing | app/main.py:48-54 | the listing is never longer than the glob and holds only truthy values |
| Resolver.OpenindexOf | app/main.py:71 | `hasPart` has one entry per record, and entry i is record i's `openindex` or null |
| Resolver.NamespaceLinkedData | app/main.py:66-72 | the namespace JSON-LD body fails with 500 exactly when the descriptor or some record is not a JSON object; otherwise it has exactly the keys `@id`, `@type`, `name` and `hasPart`, and `@type` is `Collection` |
| Resolver.ResolveNamespace | app/main.py:37-82 | 404 "Namespace not found" exactly when `_namespace.json` is absent, and no other HTTP error; a 500 can only come from the JSON-LD branch |
| Resolver.RecordPath | app/main.py:92 | the record file is in the namespace directory and is named by the slug followed by `.json` |
| Resolver.RecordLinkedData | app/main.py:104-110 | the record JSON-LD body fails with 500 exactly when the record is not a JSON object; otherwise it has exactly the keys `@id`, `@type` and `name` |
| Resolver.ResolveRecord | app/main.py:90-119 | 404 "Record not found" exactly when the file is missing or its value is falsy, and no other HTTP error; a 500 can only come from the JSON-LD branch |
| ResolverProperties.ListingAppend | app/main.py:48-54 | the listing keeps glob order: the listing of two runs of names is the two listings concatenated |
| ResolverProperties.ListingSingle | app/main.py:49-54 | one glob entry contributes its loaded value exactly when it is not `_namespace.json`, exists and is truthy |
| ResolverProperties.ListingSkipsDescriptor | app/main.py:50-51 | `_namespace.json` contributes nothing to the listing, wherever the glob places it |
| ResolverProperties.ListingDropsFalsy | app/main.py:52-54 | a missing or falsy entry (`{}` or `null`, for instance) is dropped and the rest of the listing is unchanged |
| ResolverProperties.ListingMembers | app/main.py:48-54 | a value is in the listing exactly when some listed glob entry loads to it |
| ResolverProperties.NamespaceNotFoundIff | app/main.py:42-43 | a namespace request gets status 404 exactly when the descriptor file is absent, and then the detail is "Namespace not found" |
| ResolverProperties.NamespacePlainJson | app/main.py:59-63 | the JSON branch returns the descriptor and the listing verbatim under `namespace` and `records` |
| ResolverProperties.NamespaceLinkedDataShape | app/main.py:66-72 | the JSON-LD body has exactly the keys `@id`, `@type`, `name` and `hasPart`; `@type` is always `Collection`; `@id` and `name` come from the descriptor; `hasPart` has one entry per listed record, in order, with that record's `openindex` or null |
| ResolverProperties.NamespaceLinkedDataFails | app/main.py:66-72 | the JSON-LD branch fails with 500 when the descriptor or some listed record is not a JSON object |
| ResolverProperties.NamespaceHtml | app/main.py:74-82 | with neither media type in the header, `namespace.html` is rendered with the descriptor and the listing |
| ResolverProperties.RecordNotFoundIff | app/main.py:93-96 | a record request gets status 404 exactly when the file is missing or holds a falsy value such as `{}` |
| ResolverProperties.RecordPlainJson | app/main.py:101-102 | the JSON branch returns the stored record unchanged |
| ResolverProperties.RecordLinkedDataShape | app/main.py:105-110 | the record JSON-LD body has exactly the keys `@id`, `@type` and `name`, taken from `openindex`, `type` and `title`, and no `@context` |
| ResolverProperties.RecordLinkedDataSkipsWrap | app/main.py:105-110 | even for a record whose type has a context, which `wrap_record` would add, the JSON-LD reply has no `@context` |
| ResolverProperties.RecordLinkedDataFailsOnNonObject | app/main.py:105-110 | a truthy record that is not an object, such as a non-empty list, makes the JSON-LD branch fail with 500 |
| ResolverProperties.RecordHtml | app/main.py:112-119 | with neither media type in the header, `record.html` is rendered with the record |
| ResolverProperties.RecordPathInjective | app/main.py:92 | distinct slugs of one namespace read distinct files |
| ResolverProperties.DescriptorServedAsRecord | app/main.py:92-96 | the slug `_namespace` reads the namespace descriptor file as a record, and it is found exactly when the descriptor exists and is truthy |
| ResolverProperties.EarthpressExample | app/main.py:104-110 | the `earthpress/tartarian-world` record requested as `application/ld+json` gives `@id`, `@type: Work` and `name`, with no context |
| ResolverProperties.EarthpressWrapped | resolver/response.py:8-10 | wrapping the same record with a context adds the `Work` context URL |

## Left out

- HTTP routing, the `Request` object, `HTTPException` and `JSONResponse`: replies are the `Reply` datatype, and `StatusOf` gives each one's status code.
- Jinja2 rendering: `TemplateReply` records the template name and the JSON values passed to it. The `request` entry of the template context is not modelled.
- Real file I/O, `Path` resolution and the order of `glob("*.json")`: the records tree is a map, and the glob is a sequence given by the caller, with no ordering assumed.
- JSON parsing: files are already-parsed values. A malformed file makes `json.load` raise, and neither handler catches it, so the request ends in a 500. This holds on the record path, the descriptor and every listed file alike. The model has no malformed files.
- `load_json` returns Python's `None` both for a missing file and for a file that holds `null`. The model returns `Some(JNull)` for the latter. Every caller treats the two cases alike: the record path and the listing see a falsy value, and the descriptor's existence is checked before it is loaded.
- JSON numbers are `real`. Non-finite values such as `NaN`, which Python's parser accepts, and the difference between integers and floats are not modelled.
- Object key order is not kept, because objects are maps.
- Contexts.ContextForRecord: a `type` that is a list or an object makes Python raise `TypeError` (unhashable key). The model returns none for every non-string type.
- The app's title and version metadata (app/main.py:7-10) are not modelled. Static file routes are not part of this code.
- `deepcopy` is not modelled: Dafny values are immutable, so `wrap_record` cannot change its input. Repeated plain-JSON responses for one record are therefore identical by construction.
