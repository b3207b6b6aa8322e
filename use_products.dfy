/**
 * The product queries: their cache keys, the query string of the list request,
 * how a response becomes data, null or an error, and the invalidations requested
 * after adding to the cart.
 */
module UseProducts {
  import opened Wrappers
  import opened QueryCache
  import JsString
  import SearchParams
  import ApiTypes

  const All: QueryKey := [Atom("products")]

  function Lists(): QueryKey { All + [Atom("list")] }

  function List(filters: map<string, JsValue>): QueryKey { Lists() + [Record(filters)] }

  function Details(): QueryKey { All + [Atom("detail")] }

  function Detail(id: string): QueryKey { Details() + [Atom(id)] }

  /** Every product key extends ["products"]; list keys extend the lists key and detail
      keys the details key, and neither kind extends the other's. */
  lemma KeyHierarchy(filters: map<string, JsValue>, id: string)
    ensures Extends(Lists(), All) && Extends(Details(), All)
    ensures Extends(List(filters), Lists()) && Extends(Detail(id), Details())
    ensures Extends(List(filters), All) && Extends(Detail(id), All)
    ensures !Extends(List(filters), Details()) && !Extends(Detail(id), Lists())
  {
    assert List(filters)[1] == Atom("list");
    assert Detail(id)[1] == Atom("detail");
  }

  /** Different filter objects or ids get different cache entries. */
  lemma KeysInjective(f: map<string, JsValue>, g: map<string, JsValue>, id1: string, id2: string)
    ensures List(f) == List(g) ==> f == g
    ensures Detail(id1) == Detail(id2) ==> id1 == id2
    ensures List(f) != Detail(id1)
  {
    if List(f) == List(g) {
      assert List(f)[2] == Record(f);
      assert List(g)[2] == Record(g);
    }
    if Detail(id1) == Detail(id2) {
      assert Detail(id1)[2] == Atom(id1);
      assert Detail(id2)[2] == Atom(id2);
    }
    assert List(f)[1] != Detail(id1)[1];
  }

  /** The optional filters of `useProducts`; None is an absent property. */
  datatype ProductQuery = ProductQuery(
    search: Option<string>, sortBy: Option<string>, sortOrder: Option<string>,
    inStock: Option<bool>, page: Option<int>, limit: Option<int>)

  const NoFilters: ProductQuery := ProductQuery(None, None, None, None, None, None)

  const PropertyNames: set<string> := {"search", "sortBy", "sortOrder", "inStock", "page", "limit"}

  /** The value of one property of the filter object, None when it is undefined. */
  function Property(q: ProductQuery, name: string): Option<JsValue> {
    if name == "search" then (if q.search.Some? then Some(Str(q.search.value)) else None)
    else if name == "sortBy" then (if q.sortBy.Some? then Some(Str(q.sortBy.value)) else None)
    else if name == "sortOrder" then (if q.sortOrder.Some? then Some(Str(q.sortOrder.value)) else None)
    else if name == "inStock" then (if q.inStock.Some? then Some(Bool(q.inStock.value)) else None)
    else if name == "page" then (if q.page.Some? then Some(Num(q.page.value)) else None)
    else if name == "limit" then (if q.limit.Some? then Some(Num(q.limit.value)) else None)
    else None
  }

  /** The filter object as part of a key: its defined properties. */
  function KeyRecord(q: ProductQuery): (m: map<string, JsValue>)
    ensures m.Keys <= PropertyNames
    ensures forall name :: name in m <==> Property(q, name).Some?
    ensures forall name :: name in m ==> m[name] == Property(q, name).value
  {
    map name | name in PropertyNames && Property(q, name).Some? :: Property(q, name).value
  }

  /** The key of `useProducts(filters)`: `filters || {}`. */
  function ListKey(filters: Option<ProductQuery>): QueryKey {
    List(KeyRecord(filters.GetOr(NoFilters)))
  }

  /** The filter object can be read back from its key record. */
  lemma KeyRecordReadsBack(q: ProductQuery)
    ensures StrOf(KeyRecord(q), "search") == q.search
    ensures StrOf(KeyRecord(q), "sortBy") == q.sortBy
    ensures StrOf(KeyRecord(q), "sortOrder") == q.sortOrder
    ensures BoolOf(KeyRecord(q), "inStock") == q.inStock
    ensures NumOf(KeyRecord(q), "page") == q.page
    ensures NumOf(KeyRecord(q), "limit") == q.limit
  {
  }

  /** Two different filter objects never share a cache entry. */
  lemma KeyRecordInjective(a: ProductQuery, b: ProductQuery)
    requires KeyRecord(a) == KeyRecord(b)
    ensures a == b
  {
    KeyRecordReadsBack(a);
    KeyRecordReadsBack(b);
  }

  /** The parameters the list request appends, in this order, each only when truthy;
      inStock is written "true" and the numbers in decimal. */
  function QueryEntries(filters: Option<ProductQuery>): seq<SearchParams.Conditional> {
    var q := filters.GetOr(NoFilters);
    [(JsString.TruthyString(q.search), "search", q.search.GetOr("")),
     (JsString.TruthyString(q.sortBy), "sortBy", q.sortBy.GetOr("")),
     (JsString.TruthyString(q.sortOrder), "sortOrder", q.sortOrder.GetOr("")),
     (q.inStock == Some(true), "inStock", "true"),
     (JsString.TruthyInt(q.page), "page", JsString.IntToString(q.page.GetOr(0))),
     (JsString.TruthyInt(q.limit), "limit", JsString.IntToString(q.limit.GetOr(0)))]
  }

  function QueryParams(filters: Option<ProductQuery>): SearchParams.Params {
    SearchParams.Written(QueryEntries(filters))
  }

  /** The URL of the list request. */
  function ListUrl(filters: Option<ProductQuery>): string {
    "/api/products?" + SearchParams.ToString(QueryParams(filters))
  }

  /** The list `queryFn`'s parameter building, one conditional `append` at a time. */
  method BuildQueryParams(filters: Option<ProductQuery>) returns (params: SearchParams.Params)
    ensures params == QueryParams(filters)
  {
    var q := filters.GetOr(NoFilters);
    params := [];
    params := SearchParams.AppendWhen(params, JsString.TruthyString(q.search), "search", q.search.GetOr(""));
    params := SearchParams.AppendWhen(params, JsString.TruthyString(q.sortBy), "sortBy", q.sortBy.GetOr(""));
    params := SearchParams.AppendWhen(params, JsString.TruthyString(q.sortOrder), "sortOrder", q.sortOrder.GetOr(""));
    params := SearchParams.AppendWhen(params, q.inStock == Some(true), "inStock", "true");
    params := SearchParams.AppendWhen(params, JsString.TruthyInt(q.page), "page", JsString.IntToString(q.page.GetOr(0)));
    params := SearchParams.AppendWhen(params, JsString.TruthyInt(q.limit), "limit", JsString.IntToString(q.limit.GetOr(0)));
    QueryParamsEntries(filters);
  }

  lemma QueryParamsEntries(filters: Option<ProductQuery>)
    ensures var es := QueryEntries(filters);
            QueryParams(filters)
            == [] + SearchParams.Entry(es[0]) + SearchParams.Entry(es[1]) + SearchParams.Entry(es[2])
               + SearchParams.Entry(es[3]) + SearchParams.Entry(es[4]) + SearchParams.Entry(es[5])
  {
    var es := QueryEntries(filters);
    SearchParams.WrittenPrefixes(es);
  }

  lemma QueryNamesDistinct(filters: Option<ProductQuery>)
    ensures SearchParams.DistinctNames(QueryEntries(filters))
  {
  }

  /** What the server reads back from the list request's query string: each parameter
      that was appended, with its value, and nothing for the others. */
  lemma QueryParamReadsBack(filters: Option<ProductQuery>, k: nat)
    requires k < |QueryEntries(filters)|
    ensures SearchParams.Get(SearchParams.FromString(SearchParams.ToString(QueryParams(filters))), QueryEntries(filters)[k].1)
            == if QueryEntries(filters)[k].0 then Some(QueryEntries(filters)[k].2) else None
  {
    SearchParams.FromToString(QueryParams(filters));
    QueryNamesDistinct(filters);
    SearchParams.GetWritten(QueryEntries(filters), k);
  }

  /** The same, parameter by parameter. */
  lemma ListUrlCarries(filters: Option<ProductQuery>)
    ensures var ps := SearchParams.FromString(SearchParams.ToString(QueryParams(filters)));
            var q := filters.GetOr(NoFilters);
            && SearchParams.Get(ps, "search") == (if JsString.TruthyString(q.search) then q.search else None)
            && SearchParams.Get(ps, "sortBy") == (if JsString.TruthyString(q.sortBy) then q.sortBy else None)
            && SearchParams.Get(ps, "sortOrder") == (if JsString.TruthyString(q.sortOrder) then q.sortOrder else None)
            && SearchParams.Get(ps, "inStock") == (if q.inStock == Some(true) then Some("true") else None)
            && SearchParams.Get(ps, "page")
               == (if JsString.TruthyInt(q.page) then Some(JsString.IntToString(q.page.value)) else None)
            && SearchParams.Get(ps, "limit")
               == (if JsString.TruthyInt(q.limit) then Some(JsString.IntToString(q.limit.value)) else None)
  {
    SearchParams.FromToString(QueryParams(filters));
    QueryNamesDistinct(filters);
    SearchParams.GetWritten(QueryEntries(filters), 0);
    SearchParams.GetWritten(QueryEntries(filters), 1);
    SearchParams.GetWritten(QueryEntries(filters), 2);
    SearchParams.GetWritten(QueryEntries(filters), 3);
    SearchParams.GetWritten(QueryEntries(filters), 4);
    SearchParams.GetWritten(QueryEntries(filters), 5);
  }

  /** The list `queryFn`: a response that is not ok is an error; otherwise the envelope's
      data on success and an empty list when it reports failure. */
  function ListResult(fetched: ApiTypes.Fetched<seq<ApiTypes.Product>>)
    : (r: Result<Option<seq<ApiTypes.Product>>, ApiTypes.Thrown>)
    ensures r.Failure? <==>
              fetched.Rejected? || !ApiTypes.Ok(fetched.reply.status) || fetched.reply.body.None?
    ensures fetched.Responded? && !ApiTypes.Ok(fetched.reply.status) ==>
              r == Failure(ApiTypes.Error("Failed to fetch products"))
    ensures r.Success? && !fetched.reply.body.value.success ==> r.value == Some([])
    ensures r.Success? && fetched.reply.body.value.success ==> r.value == fetched.reply.body.value.data
  {
    match fetched
    case Rejected => Failure(ApiTypes.NetworkFailure)
    case Responded(reply) =>
      if !ApiTypes.Ok(reply.status) then Failure(ApiTypes.Error("Failed to fetch products"))
      else if reply.body.None? then Failure(ApiTypes.NotJson)
      else if reply.body.value.success then Success(reply.body.value.data)
      else Success(Some([]))
  }

  /** The detail `queryFn`: 404 is "no such product" (null), any other status that is not
      ok is an error; an ok response gives the data on success and null otherwise. */
  function DetailResult(fetched: ApiTypes.Fetched<ApiTypes.Product>)
    : (r: Result<Option<ApiTypes.Product>, ApiTypes.Thrown>)
    ensures fetched.Responded? && fetched.reply.status == 404 ==> r == Success(None)
    ensures fetched.Responded? && !ApiTypes.Ok(fetched.reply.status) && fetched.reply.status != 404 ==>
              r == Failure(ApiTypes.Error("Failed to fetch product"))
    ensures r.Success? && r.value.Some? ==>
              fetched.Responded? && ApiTypes.Ok(fetched.reply.status) && fetched.reply.body.Some?
              && fetched.reply.body.value.success && r.value == fetched.reply.body.value.data
    ensures fetched.Responded? && ApiTypes.Ok(fetched.reply.status) && fetched.reply.body.Some? ==>
              r == Success(if fetched.reply.body.value.success then fetched.reply.body.value.data else None)
    ensures fetched.Responded? && ApiTypes.Ok(fetched.reply.status) && fetched.reply.body.None? ==>
              r == Failure(ApiTypes.NotJson)
    ensures fetched.Rejected? ==> r == Failure(ApiTypes.NetworkFailure)
  {
    match fetched
    case Rejected => Failure(ApiTypes.NetworkFailure)
    case Responded(reply) =>
      if !ApiTypes.Ok(reply.status) then
        if reply.status == 404 then Success(None) else Failure(ApiTypes.Error("Failed to fetch product"))
      else if reply.body.None? then Failure(ApiTypes.NotJson)
      else if reply.body.value.success then Success(reply.body.value.data)
      else Success(None)
  }

  /** The list and the detail differ on a 404: the list fails, the detail gives null. */
  lemma NotFoundRules(list: ApiTypes.Reply<seq<ApiTypes.Product>>, detail: ApiTypes.Reply<ApiTypes.Product>)
    requires list.status == 404 && detail.status == 404
    ensures ListResult(ApiTypes.Responded(list)).Failure?
    ensures DetailResult(ApiTypes.Responded(detail)) == Success(None)
  {
  }

  const ListStaleTime: int := 2 * 60 * 1000
  const DetailStaleTime: int := 5 * 60 * 1000

  /** The options of a query: its key, whether it runs, and how long its data stays fresh. */
  datatype QueryOptions = QueryOptions(key: QueryKey, enabled: bool, staleTime: int)

  function ProductsQuery(filters: Option<ProductQuery>): QueryOptions {
    QueryOptions(ListKey(filters), true, ListStaleTime)
  }

  /** `enabled: !!id` */
  function ProductQueryOptions(id: string): QueryOptions {
    QueryOptions(Detail(id), id != "", DetailStaleTime)
  }

  lemma QueryOptionsRules(filters: Option<ProductQuery>, id: string)
    ensures ProductsQuery(filters).staleTime == 120000 && ProductQueryOptions(id).staleTime == 300000
    ensures ProductQueryOptions(id).enabled <==> id != ""
    ensures ProductsQuery(filters).enabled
  {
  }

  /** The keys invalidated after adding to the cart. */
  function AddToCartInvalidations(): seq<QueryKey> {
    [All, [Atom("cart")]]
  }

  /** Adding to the cart asks to refresh every product query, lists and details alike. */
  lemma AddToCartCoversProducts(key: QueryKey)
    requires Extends(key, All)
    ensures exists k :: k in AddToCartInvalidations() && Extends(key, k)
  {
    assert All in AddToCartInvalidations();
  }

  /** `useAddToCart`'s `onSuccess` */
  method AddToCartOnSuccess(client: QueryClient)
    modifies client
    ensures client.requested == old(client.requested) + [Invalidate(All), Invalidate([Atom("cart")])]
  {
    client.InvalidateQueries(All);
    client.InvalidateQueries([Atom("cart")]);
  }
}
