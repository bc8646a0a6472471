# Portfolio backend: document encoding and listing filters

A model of the data-handling core of a small portfolio web backend (projects
and blog posts kept in a MongoDB-style document store). Two pieces of logic are
modelled:

- `MongoEncoder.encode` turns a stored document into the shape returned to
  clients. An absent or empty document comes back as it is. Otherwise the
  function works on a copy. It renames the store's identifier `_id` to `id` and
  stringifies its value. Then it replaces every other top-level `ObjectId`
  value with its string form.
- The two listing endpoints build an exact-match filter from an optional
  boolean query parameter. `GET /api/projects` filters on `featured`, which
  defaults to none. `GET /api/blogs` filters on `published`, which defaults to
  `True`. Each endpoint asks the store for at most 50 (projects) or 20 (blog
  posts) documents and encodes every document returned, in order.

Files:

- `wrappers.dfy` (`Wrappers`): `Option` (Python's `Optional`) and `Arg`. `Arg`
  is a keyword argument that the caller either omitted or passed.
- `bson.dfy` (`Bson`): stored values and Python's `str()` on them. An
  `ObjectId` is a 96-bit number, and its `str()` is 24 lower-case hex digits.
  Every other non-string, non-boolean, non-`None` value is carried with its
  `str()` text.
- `encoder.dfy` (`MongoEncoder`): the functional specification `Normalize` and
  `Encoded`. The method `Encode` follows the source's copy, pop and in-place
  loop, and is proved equal to that specification.
- `api.dfy` (`PortfolioApi`): the queries the handlers send, the handler
  methods, and lemmas about what a client sees when the store honours a query.

Documents are `map<string, Value>`. Python's falsy `doc` is either `None` or
`Some(map[])`. A Dafny map is a value, so `encode` cannot change the caller's
record. This matches the source, which copies the dict before changing it.

The store function `get_documents` lives in a `database` module that is not
part of this model. Each handler takes it as a function parameter
`getDocuments: Query -> seq<Doc>`. A handler's contract says only which query
it sends and what it does with the answer. The listing lemmas add one
hypothesis, `Honours`: the store returned no more than the limit, and only
matching documents. `Honours` reads "matching" as the whole field value being
equal to the filter's value. The store's own rule that an equality filter also
matches an array field containing the value is outside this hypothesis, so
array-valued `featured` or `published` fields are not covered by the listing
lemmas.

## Model

| member | source | states |
|---|---|---|
| `Bson.ObjectIdText` | main.py:35-39 | `str()` of an ObjectId is 24 hex digits, and two ObjectIds give the same string exactly when they are equal |
| `MongoEncoder.Stringified` | main.py:38-39 | an ObjectId becomes the string `str(v)`; the result is never an ObjectId, and it differs from the original exactly when the original was one |
| `MongoEncoder.Normalize` | main.py:31-40 | an empty document comes back unchanged. With `_id`, the key set loses `_id` and gains `id`; without it, the key set is unchanged. `id` holds `str(_id)` and overrides any earlier `id`. No value is an ObjectId. Every other field keeps its value, except that an ObjectId becomes its string |
| `MongoEncoder.Encoded` | main.py:30-32 | `None` and the empty document are returned as they are; a present document is present after encoding and is normalised |
| `MongoEncoder.Encode` | main.py:30-40 | the copy, pop-and-assign, and in-place loop over a snapshot of the items compute exactly `Encoded(doc)` |
| `MongoEncoder.NormalizeIdempotent` | main.py:31-40 | encoding an encoded record changes nothing |
| `MongoEncoder.EncodedIdempotent` | main.py:30-40 | `encode(encode(doc)) == encode(doc)`, including for `None` |
| `PortfolioApi.ProjectsQuery` | main.py:75-79 | collection `project` with limit 50. The filter has at most the key `featured` and is empty exactly when `featured` is `None` or omitted. A document matches it exactly when it has the requested `featured` value |
| `PortfolioApi.BlogsQuery` | main.py:93-97 | collection `blogpost` with limit 20. Omitting `published` gives the filter `{"published": True}`. The filter is empty only for an explicit `None`. A document matches exactly when it has the requested `published` value |
| `PortfolioApi.NormalizeAll` | main.py:80 | the encoded list has as many entries as the store's answer, and entry `i` is the encoding of document `i` |
| `PortfolioApi.EncodeAll` | main.py:80 | the loop that encodes each document in turn computes `NormalizeAll` |
| `PortfolioApi.ListProjects` | main.py:74-80 | the handler returns the in-order encoding of the store's answer to `ProjectsQuery(featured)` |
| `PortfolioApi.ListBlogs` | main.py:92-98 | the handler returns the in-order encoding of the store's answer to `BlogsQuery(published)` |
| `PortfolioApi.NormalizeKeepsMatch` | main.py:37-39 | encoding keeps a document matching any filter that avoids `_id` and `id` and asks for no ObjectId |
| `PortfolioApi.ListingHonoursQuery` | main.py:79-80 | if the store honours such a query (limit and filter), the encoded listing honours it too |
| `PortfolioApi.ProjectsListing` | main.py:75-80 | against a store that honours its query, the projects listing has at most 50 records, each with the requested `featured` value when one is given |
| `PortfolioApi.BlogsListing` | main.py:93-98 | against a store that honours its query, the blogs listing has at most 20 records. Each has the requested `published` value, and with no parameter every record is published |

## Left out

- `schemas.py`: the `Project`, `BlogPost`, `User` and `Product` request schemas. Their checks (required fields, defaults, URL parsing, range limits) are done inside the validation library, which is not part of this model.
- `create_project` and `create_blog` (main.py:83-89, main.py:101-107): they hand a validated record to the store's `create_document` and turn any exception into HTTP 500. Both the store call and the exception mapping belong to code that is not part of this model.
- The `database` module (`db`, `create_document`, `get_documents`) is not part of this model. That includes its policy of answering a failed read with an empty list. `get_documents` is a function parameter about which nothing is assumed, except the `Honours` hypothesis of the listing lemmas.
- The `/test` diagnostic endpoint (main.py:43-69): it reads the environment, probes the database and formats status text. It is input/output, not logic.
- The application setup, CORS middleware, root message and server start-up (main.py:11-24, main.py:110-113).
- Key order: Python dicts keep insertion order, so `id` moves to the end of the encoded document. Documents here are unordered maps, and the order in which the loop visits keys is left unspecified. Each step rewrites only its own key, so the order does not affect the result.
- `Bson.ToStr`: `str()` is exact for strings, booleans, `None` and ObjectIds. Any other value is modelled only by the text `str()` gives for it. Values nested inside lists or sub-documents are not inspected, and neither is that done by the source.
