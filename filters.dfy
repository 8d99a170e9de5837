/** The (collection, filter) targets a lock-and-read writes its lock token to. */
module Filters {
  import opened JsValues
  import opened Exceptions

  /** One entry of the lock-data hook's `collections` option: the collection
      name, the document field to match, and the query parameter holding the
      value to match it with. */
  datatype CollectionSpec = CollectionSpec(collection: string, field: string, query: string)

  /** A collection handle: `getDatabase().collection(name)` or a service's `Model`. */
  datatype CollectionRef = CollectionRef(name: string)

  datatype FilterQuery = FilterQuery(collection: CollectionRef, filter: Doc)

  /** The service options the hooks read: `Model`, `id` and the keys of
      `schema.dbSchema` (`None` when any of those objects is missing). */
  datatype ServiceOptions = ServiceOptions(model: Option<CollectionRef>, idField: string, dbSchemaKeys: Option<seq<string>>)

  /** `collections.map(...)` with `query` defined: one filter per entry, in order. */
  function QueryFilters(collections: seq<CollectionSpec>, query: Doc): (r: seq<FilterQuery>)
    ensures |r| == |collections|
    ensures forall i :: 0 <= i < |r| ==>
      && r[i].collection == CollectionRef(collections[i].collection)
      && r[i].filter.Keys == {collections[i].field}
      && r[i].filter[collections[i].field] == Get(query, collections[i].query)
  {
    if collections == [] then []
    else
      var c := collections[0];
      [FilterQuery(CollectionRef(c.collection), map[c.field := Get(query, c.query)])]
        + QueryFilters(collections[1..], query)
  }

  /** `_getFilterQueriesFromQuery(collections, params)`: no filters for a
      missing or empty `collections`; otherwise one per entry, and reading a
      parameter of an undefined `params.query` throws. */
  function FromQuery(collections: Option<seq<CollectionSpec>>, query: Option<Doc>): (r: Result<seq<FilterQuery>>)
    ensures (collections.None? || collections.value == []) ==> r == Success([])
    ensures r.Failure? <==> collections.Some? && collections.value != [] && query.None?
    ensures r.Failure? ==> r.error == TypeError
    ensures r.Success? && collections.Some? && collections.value != [] ==>
      r.value == QueryFilters(collections.value, query.value)
  {
    match collections
    case None => Success([])
    case Some(cs) =>
      if |cs| > 0 then
        match query
        case None => Failure(TypeError)
        case Some(q) => Success(QueryFilters(cs, q))
      else Success([])
  }

  /** `{ ...query }`: spreading undefined gives an empty object. */
  function Spread(query: Option<Doc>): Doc {
    match query
    case None => map[]
    case Some(q) => q
  }

  /** `_getFilterQueriesFromModel(context)`: without a `Model` no filter;
      otherwise one, on the `Model`, matching the query parameters with the
      service's id field overridden by the request's id. */
  function FromModel(service: Option<ServiceOptions>, query: Option<Doc>, id: JsValue): (r: seq<FilterQuery>)
    ensures |r| <= 1
    ensures r == [] <==> service.None? || service.value.model.None?
    ensures r != [] ==>
      && r[0].collection == service.value.model.value
      && r[0].filter.Keys == Spread(query).Keys + {service.value.idField}
      && r[0].filter[service.value.idField] == id
      && forall k :: k in Spread(query) && k != service.value.idField ==> r[0].filter[k] == Spread(query)[k]
  {
    if service.Some? && service.value.model.Some? then
      [FilterQuery(service.value.model.value, Spread(query)[service.value.idField := id])]
    else
      []
  }
}
