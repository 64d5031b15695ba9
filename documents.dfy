/** The values that flow through the backend: the JSON-like documents that the
    request layer validates, the document store keeps and the live channel
    sends. Timestamps and store identifiers are opaque. */
module Documents {

  /** A `datetime`, as an opaque point on a line; 0 stands for `datetime.min`. */
  type Time = nat

  const DatetimeMin: Time := 0

  /** The identifier the store generates for an inserted document (an ObjectId). */
  datatype DocId = DocId(serial: nat)

  datatype Value =
    | Null
    | Bool(b: bool)
    | Number(n: real)
    | Text(s: string)
    | DateTime(t: Time)          // a `datetime` object
    | IsoText(t: Time)           // the string `datetime.isoformat()` gives for it
    | Oid(id: DocId)             // an ObjectId as the store returns it
    | OidText(id: DocId)         // `str(ObjectId)`
    | List(items: seq<Value>)
    | Object(fields: map<string, Value>)

  /** Whether `json.dumps` (with no `default=`) can encode the value: a
      `datetime` or an `ObjectId` anywhere inside makes it raise `TypeError`. */
  predicate Encodable(v: Value)
  {
    match v
    case DateTime(_) => false
    case Oid(_) => false
    case List(items) => forall i :: 0 <= i < |items| ==> Encodable(items[i])
    case Object(fields) => forall k :: k in fields ==> Encodable(fields[k])
    case _ => true
  }

  /** A `dict` with string keys: a model dump, a stored document, a payload. */
  type Record = map<string, Value>

  /** One stored document and the collection it was inserted into. */
  datatype Document = Document(collection: string, id: DocId, record: Record)

  /** The document store is an external collaborator: it is reduced to an
      insert that hands back a fresh identifier and keeps what was inserted. */
  class DocumentStore {
    var docs: seq<Document>

    ghost predicate Valid()
      reads this
    {
      forall i :: 0 <= i < |docs| ==> docs[i].id == DocId(i)
    }

    ghost function Ids(): set<DocId>
      reads this
    {
      set i | 0 <= i < |docs| :: docs[i].id
    }

    constructor ()
      ensures Valid() && docs == []
    {
      docs := [];
    }

    /** `create_document(collection, record)`. */
    method Create(collection: string, record: Record) returns (id: DocId)
      requires Valid()
      modifies this
      ensures Valid()
      ensures id !in old(Ids())
      ensures docs == old(docs) + [Document(collection, id, record)]
    {
      id := DocId(|docs|);
      docs := docs + [Document(collection, id, record)];
    }
  }
}
