/**
 * `MongoEncoder.encode`: turns a document read from the store into the shape
 * returned to HTTP clients. The store's identifier field `_id` becomes a
 * string field `id`, and every other top-level ObjectId value becomes its
 * string form. An absent (`None`) or empty document is returned as it is.
 */
module MongoEncoder {
  import opened Wrappers
  import opened Bson

  /** The field under which the store keeps a document's identifier. */
  const StoreKey: string := "_id"
  /** The field under which clients see that identifier. */
  const PublicKey: string := "id"

  /** One value after the ObjectId pass: references become strings. */
  function Stringified(v: Value): (r: Value)
    ensures !r.ObjectId?
    ensures v.ObjectId? <==> r != v
    ensures v.ObjectId? ==> r == Str(ToStr(v))
  {
    if v.ObjectId? then Str(ToStr(v)) else v
  }

  /** The document after `_id` has been popped and stored, stringified, under `id`. */
  function Renamed(d: Doc): Doc {
    if StoreKey in d then (d - {StoreKey})[PublicKey := Str(ToStr(d[StoreKey]))] else d
  }

  /** What `encode` returns for a document that is present. */
  function Normalize(d: Doc): (r: Doc)
    // an empty document is returned unchanged
    ensures d == map[] ==> r == d
    // the key set: `_id` replaced by `id` when present, otherwise unchanged
    ensures StoreKey in d ==> r.Keys == d.Keys - {StoreKey} + {PublicKey}
    ensures StoreKey !in d ==> r.Keys == d.Keys
    // the identifier, stringified, lands under `id` and overrides any earlier `id`
    ensures StoreKey in d ==> r[PublicKey] == Str(ToStr(d[StoreKey]))
    // no reference-typed value survives
    ensures forall k :: k in r ==> !r[k].ObjectId?
    // every other field keeps its value, an ObjectId replaced by its string
    ensures forall k :: k in d && k != StoreKey && (k != PublicKey || StoreKey !in d) ==>
              r[k] == if d[k].ObjectId? then Str(ToStr(d[k])) else d[k]
  {
    if d == map[] then d
    else
      var e := Renamed(d);
      map k | k in e :: Stringified(e[k])
  }

  /** What `encode` returns, for an absent or a present document. */
  function Encoded(doc: Option<Doc>): (r: Option<Doc>)
    ensures doc == None || doc == Some(map[]) ==> r == doc
    ensures r.Some? <==> doc.Some?
    ensures doc.Some? ==> r == Some(Normalize(doc.value))
  {
    match doc
    case None => None
    case Some(d) => Some(Normalize(d))
  }

  /**
   * `MongoEncoder.encode(doc)`. It works on a copy `d` of the document
   * (the caller's map is a value and cannot change), renames `_id`, then
   * visits a snapshot of `d`'s items and rewrites each ObjectId in place.
   */
  method Encode(doc: Option<Doc>) returns (r: Option<Doc>)
    ensures r == Encoded(doc)
  {
    if doc.None? || doc.value == map[] {
      return doc;
    }
    var d := doc.value;
    if StoreKey in d {
      var id := d[StoreKey];
      d := d - {StoreKey};
      d := d[PublicKey := Str(ToStr(id))];
    }
    ghost var renamed := d;
    var items := d;
    var pending := items.Keys;
    while pending != {}
      invariant pending <= items.Keys
      invariant d.Keys == items.Keys
      invariant forall k :: k in items && k !in pending ==> d[k] == Stringified(items[k])
      invariant forall k :: k in pending ==> d[k] == items[k]
      decreases pending
    {
      var k :| k in pending;
      var v := items[k];
      if v.ObjectId? {
        d := d[k := Str(ToStr(v))];
      }
      pending := pending - {k};
    }
    assert renamed == Renamed(doc.value);
    assert d == map k | k in renamed :: Stringified(renamed[k]);
    r := Some(d);
  }

  /** Encoding twice gives the same record as encoding once. */
  lemma NormalizeIdempotent(d: Doc)
    ensures Normalize(Normalize(d)) == Normalize(d)
  {
  }

  lemma EncodedIdempotent(doc: Option<Doc>)
    ensures Encoded(Encoded(doc)) == Encoded(doc)
  {
    if doc.Some? {
      NormalizeIdempotent(doc.value);
    }
  }
}
