/**
 * The two listing endpoints, `GET /api/projects` and `GET /api/blogs`.
 * Each builds an exact-match filter from an optional boolean query
 * parameter, asks the store for at most a fixed number of documents of one
 * collection, and encodes every document returned, in order.
 *
 * The store's `get_documents(collection, filter, limit)` is not part of this
 * model: a handler receives it as the function `getDocuments` and nothing
 * is assumed about it, except in the lemmas that say what a caller sees when
 * the store honours the filter and the limit.
 */
module PortfolioApi {
  import opened Wrappers
  import opened Bson
  import opened MongoEncoder

  /** The arguments of one `get_documents` call. */
  datatype Query = Query(collection: string, filter: Doc, limit: nat)

  const ProjectsLimit: nat := 50
  const BlogsLimit: nat := 20

  /** Exact-match filtering: every field named by the filter has the required value. */
  predicate Matches(d: Doc, filter: Doc) {
    forall k :: k in filter ==> k in d && d[k] == filter[k]
  }

  /** The store answered `q` as promised: no more than the limit, only matching documents. */
  predicate Honours(q: Query, docs: seq<Doc>) {
    |docs| <= q.limit && forall i :: 0 <= i < |docs| ==> Matches(docs[i], q.filter)
  }

  /** The query `list_projects` sends; `featured` defaults to `None`. */
  function ProjectsQuery(featured: Arg<Option<bool>>): (q: Query)
    ensures q.collection == "project" && q.limit == ProjectsLimit
    ensures q.filter.Keys <= {"featured"}
    ensures "featured" in q.filter <==> featured.Or(None).Some?
    ensures q.filter == map[] <==> featured.Or(None).None?
    ensures forall d :: Matches(d, q.filter) <==>
              (featured.Or(None).Some? ==> "featured" in d && d["featured"] == Bool(featured.Or(None).value))
  {
    var f := featured.Or(None);
    Query("project", if f.Some? then map["featured" := Bool(f.value)] else map[], ProjectsLimit)
  }

  /** The query `list_blogs` sends; `published` defaults to `True`. */
  function BlogsQuery(published: Arg<Option<bool>>): (q: Query)
    ensures q.collection == "blogpost" && q.limit == BlogsLimit
    ensures q.filter.Keys <= {"published"}
    ensures "published" in q.filter <==> published != Passed(None)
    ensures q.filter == map[] <==> published == Passed(None)
    ensures published == Omitted ==> q.filter == map["published" := Bool(true)]
    ensures forall d :: Matches(d, q.filter) <==>
              (published != Passed(None) ==> "published" in d && d["published"] == Bool(published.Or(Some(true)).value))
  {
    var p := published.Or(Some(true));
    Query("blogpost", if p.Some? then map["published" := Bool(p.value)] else map[], BlogsLimit)
  }

  /** The list comprehension `[MongoEncoder.encode(d) for d in docs]`. */
  function NormalizeAll(docs: seq<Doc>): (r: seq<Doc>)
    ensures |r| == |docs|
    ensures forall i :: 0 <= i < |docs| ==> r[i] == Normalize(docs[i])
  {
    if docs == [] then [] else [Normalize(docs[0])] + NormalizeAll(docs[1..])
  }

  /** Encodes every document of a result, in order. */
  method EncodeAll(docs: seq<Doc>) returns (out: seq<Doc>)
    ensures out == NormalizeAll(docs)
  {
    out := [];
    var i := 0;
    while i < |docs|
      invariant 0 <= i <= |docs|
      invariant |out| == i
      invariant forall j :: 0 <= j < i ==> out[j] == Normalize(docs[j])
    {
      var e := Encode(Some(docs[i]));
      out := out + [e.value];
      i := i + 1;
    }
  }

  /** `list_projects(featured)`. */
  method ListProjects(featured: Arg<Option<bool>>, getDocuments: Query -> seq<Doc>) returns (listed: seq<Doc>)
    ensures listed == NormalizeAll(getDocuments(ProjectsQuery(featured)))
  {
    var f := featured.Or(None);
    var flt: Doc := map[];
    if f.Some? {
      flt := flt["featured" := Bool(f.value)];
    }
    var docs := getDocuments(Query("project", flt, ProjectsLimit));
    listed := EncodeAll(docs);
  }

  /** `list_blogs(published)`. */
  method ListBlogs(published: Arg<Option<bool>>, getDocuments: Query -> seq<Doc>) returns (listed: seq<Doc>)
    ensures listed == NormalizeAll(getDocuments(BlogsQuery(published)))
  {
    var p := published.Or(Some(true));
    var flt: Doc := map[];
    if p.Some? {
      flt := flt["published" := Bool(p.value)];
    }
    var docs := getDocuments(Query("blogpost", flt, BlogsLimit));
    listed := EncodeAll(docs);
  }

  /**
   * Encoding keeps a document matching a filter that names neither `_id`
   * nor `id` and asks for no ObjectId.
   */
  lemma NormalizeKeepsMatch(d: Doc, filter: Doc)
    requires Matches(d, filter)
    requires StoreKey !in filter && PublicKey !in filter
    requires forall k :: k in filter ==> !filter[k].ObjectId?
    ensures Matches(Normalize(d), filter)
  {
  }

  /**
   * When the store honours a query whose filter names neither `_id` nor `id`
   * and asks for no ObjectId, the encoded listing honours it too.
   */
  lemma ListingHonoursQuery(q: Query, docs: seq<Doc>)
    requires Honours(q, docs)
    requires StoreKey !in q.filter && PublicKey !in q.filter
    requires forall k :: k in q.filter ==> !q.filter[k].ObjectId?
    ensures Honours(q, NormalizeAll(docs))
  {
  }

  /**
   * `GET /api/projects?featured=x`, against a store that honours its query,
   * lists at most 50 records, each with `featured == x`.
   */
  lemma ProjectsListing(featured: Arg<Option<bool>>, getDocuments: Query -> seq<Doc>)
    requires Honours(ProjectsQuery(featured), getDocuments(ProjectsQuery(featured)))
    ensures var listed := NormalizeAll(getDocuments(ProjectsQuery(featured)));
      |listed| <= ProjectsLimit &&
      forall i :: 0 <= i < |listed| && featured.Or(None).Some? ==>
        "featured" in listed[i] && listed[i]["featured"] == Bool(featured.Or(None).value)
  {
  }

  /**
   * `GET /api/blogs`, against a store that honours its query, lists at most
   * 20 records; without a parameter, only published ones.
   */
  lemma BlogsListing(published: Arg<Option<bool>>, getDocuments: Query -> seq<Doc>)
    requires Honours(BlogsQuery(published), getDocuments(BlogsQuery(published)))
    ensures var listed := NormalizeAll(getDocuments(BlogsQuery(published)));
      |listed| <= BlogsLimit &&
      forall i :: 0 <= i < |listed| && published != Passed(None) ==>
        "published" in listed[i] && listed[i]["published"] == Bool(published.Or(Some(true)).value)
    ensures var listed := NormalizeAll(getDocuments(BlogsQuery(published)));
      forall i :: 0 <= i < |listed| && published == Omitted ==>
        "published" in listed[i] && listed[i]["published"] == Bool(true)
  {
  }
}
