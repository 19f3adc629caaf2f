/**
 * The per-service configuration document: a dictionary from field names to
 * field values, as kept in the `services` collection of the document store.
 */
module Documents {

  import opened Wrappers

  /** A stored field value: a string, or a list of strings (the Tumblr access token pair). */
  datatype Value = Text(s: string) | List(items: seq<string>)

  type Document = map<string, Value>

  const ServiceIdKey: string := "service_id"
  const AccessTokenKey: string := "access_token"
  const RequestTokenKey: string := "request_token"
  const RequestSecretKey: string := "request_secret"

  /** Python truthiness of a looked-up field: `None`, `''` and `[]` are false. */
  predicate Truthy(v: Option<Value>)
  {
    match v
    case None => false
    case Some(Text(s)) => s != ""
    case Some(List(xs)) => xs != []
  }

  /** `dict.get`: the value stored under `key`, or `None` when the key is absent. */
  function Get(doc: Document, key: string): Option<Value>
  {
    if key in doc then Some(doc[key]) else None
  }

  /** The document after `doc[key] = v`. */
  function Put(doc: Document, key: string, v: Value): (r: Document)
    ensures Get(r, key) == Some(v)
    ensures forall k :: k != key ==> Get(r, k) == Get(doc, k)
    ensures r.Keys == doc.Keys + {key}
  {
    doc[key := v]
  }

  /** The document after `del doc[key]`; a key that is absent leaves it as it was. */
  function Remove(doc: Document, key: string): (r: Document)
    ensures Get(r, key) == None
    ensures forall k :: k != key ==> Get(r, k) == Get(doc, k)
    ensures r.Keys == doc.Keys - {key}
    ensures key !in doc ==> r == doc
  {
    doc - {key}
  }

  /** The document created for a service seen for the first time: only its identifier. */
  function NewDocument(id: string): (r: Document)
    ensures r.Keys == {ServiceIdKey}
    ensures Get(r, ServiceIdKey) == Some(Text(id))
    ensures forall k :: k != ServiceIdKey ==> Get(r, k) == None
  {
    map[ServiceIdKey := Text(id)]
  }
}
