/**
 * The blog queries: their cache keys, the query string of the list request, how a
 * response becomes data, null or an error, and the invalidations requested by the
 * like and bookmark mutations.
 */
module UseBlog {
  import opened Wrappers
  import opened QueryCache
  import JsString
  import SearchParams
  import ApiTypes

  const All: QueryKey := [Atom("blog")]

  function Lists(): QueryKey { All + [Atom("list")] }

  function List(filters: map<string, JsValue>): QueryKey { Lists() + [Record(filters)] }

  function Details(): QueryKey { All + [Atom("detail")] }

  function Detail(slug: string): QueryKey { Details() + [Atom(slug)] }

  /** Every blog key extends ["blog"]; list and detail keys stay apart. */
  lemma KeyHierarchy(filters: map<string, JsValue>, slug: string)
    ensures Extends(Lists(), All) && Extends(Details(), All)
    ensures Extends(List(filters), Lists()) && Extends(Detail(slug), Details())
    ensures Extends(List(filters), All) && Extends(Detail(slug), All)
    ensures !Extends(List(filters), Details()) && !Extends(Detail(slug), Lists())
  {
    assert List(filters)[1] == Atom("list");
    assert Detail(slug)[1] == Atom("detail");
  }

  /** Different slugs get different cache entries. */
  lemma DetailInjective(a: string, b: string)
    ensures Detail(a) == Detail(b) ==> a == b
  {
    if Detail(a) == Detail(b) {
      assert Detail(a)[2] == Atom(a);
      assert Detail(b)[2] == Atom(b);
    }
  }

  /** The optional filters of `useBlogPosts`; None is an absent property. */
  datatype BlogQuery = BlogQuery(search: Option<string>, author: Option<string>, page: Option<int>, limit: Option<int>)

  const NoFilters: BlogQuery := BlogQuery(None, None, None, None)

  /** Search and author, then page and limit in decimal, each only when truthy. */
  function QueryEntries(filters: Option<BlogQuery>): seq<SearchParams.Conditional> {
    var q := filters.GetOr(NoFilters);
    [(JsString.TruthyString(q.search), "search", q.search.GetOr("")),
     (JsString.TruthyString(q.author), "author", q.author.GetOr("")),
     (JsString.TruthyInt(q.page), "page", JsString.IntToString(q.page.GetOr(0))),
     (JsString.TruthyInt(q.limit), "limit", JsString.IntToString(q.limit.GetOr(0)))]
  }

  function QueryParams(filters: Option<BlogQuery>): SearchParams.Params {
    SearchParams.Written(QueryEntries(filters))
  }

  function ListUrl(filters: Option<BlogQuery>): string {
    "/api/blog?" + SearchParams.ToString(QueryParams(filters))
  }

  function DetailUrl(slug: string): string {
    "/api/blog/" + slug
  }

  /** The list `queryFn`'s parameter building, one conditional `append` at a time. */
  method BuildQueryParams(filters: Option<BlogQuery>) returns (params: SearchParams.Params)
    ensures params == QueryParams(filters)
  {
    var q := filters.GetOr(NoFilters);
    params := [];
    params := SearchParams.AppendWhen(params, JsString.TruthyString(q.search), "search", q.search.GetOr(""));
    params := SearchParams.AppendWhen(params, JsString.TruthyString(q.author), "author", q.author.GetOr(""));
    params := SearchParams.AppendWhen(params, JsString.TruthyInt(q.page), "page", JsString.IntToString(q.page.GetOr(0)));
    params := SearchParams.AppendWhen(params, JsString.TruthyInt(q.limit), "limit", JsString.IntToString(q.limit.GetOr(0)));
    SearchParams.WrittenFour(QueryEntries(filters));
  }

  lemma QueryNamesDistinct(filters: Option<BlogQuery>)
    ensures SearchParams.DistinctNames(QueryEntries(filters))
  {
  }

  /** What the server reads back for one parameter: its value when it was appended,
      nothing otherwise. */
  lemma QueryParamReadsBack(filters: Option<BlogQuery>, k: nat)
    requires k < |QueryEntries(filters)|
    ensures SearchParams.Get(SearchParams.FromString(SearchParams.ToString(QueryParams(filters))), QueryEntries(filters)[k].1)
            == if QueryEntries(filters)[k].0 then Some(QueryEntries(filters)[k].2) else None
  {
    SearchParams.FromToString(QueryParams(filters));
    QueryNamesDistinct(filters);
    SearchParams.GetWritten(QueryEntries(filters), k);
  }

  /** What the server reads back from the list request's query string. */
  lemma ListUrlCarries(filters: Option<BlogQuery>)
    ensures var ps := SearchParams.FromString(SearchParams.ToString(QueryParams(filters)));
            var q := filters.GetOr(NoFilters);
            && SearchParams.Get(ps, "search") == (if JsString.TruthyString(q.search) then q.search else None)
            && SearchParams.Get(ps, "author") == (if JsString.TruthyString(q.author) then q.author else None)
            && SearchParams.Get(ps, "page")
               == (if JsString.TruthyInt(q.page) then Some(JsString.IntToString(q.page.value)) else None)
            && SearchParams.Get(ps, "limit")
               == (if JsString.TruthyInt(q.limit) then Some(JsString.IntToString(q.limit.value)) else None)
  {
    SearchParams.FromToString(QueryParams(filters));
    QueryNamesDistinct(filters);
    SearchParams.GetWritten(QueryEntries(filters), 0);
    SearchParams.GetWritten(QueryEntries(filters), 1);
    SearchParams.GetWritten(QueryEntries(filters), 2);
    SearchParams.GetWritten(QueryEntries(filters), 3);
  }

  /** With no filters the list request has an empty query string. */
  lemma NoFiltersUrl()
    ensures ListUrl(None) == "/api/blog?"
  {
    SearchParams.WrittenEmpty(QueryEntries(None));
    SearchParams.ToStringEmpty(QueryParams(None));
  }

  /** The list `queryFn`: not ok is an error; otherwise the data on success and an empty
      list when the envelope reports failure. */
  function ListResult(fetched: ApiTypes.Fetched<seq<ApiTypes.BlogPost>>)
    : (r: Result<Option<seq<ApiTypes.BlogPost>>, ApiTypes.Thrown>)
    ensures r.Failure? <==>
              fetched.Rejected? || !ApiTypes.Ok(fetched.reply.status) || fetched.reply.body.None?
    ensures fetched.Responded? && !ApiTypes.Ok(fetched.reply.status) ==>
              r == Failure(ApiTypes.Error("Failed to fetch blog posts"))
    ensures r.Success? && !fetched.reply.body.value.success ==> r.value == Some([])
    ensures r.Success? && fetched.reply.body.value.success ==> r.value == fetched.reply.body.value.data
  {
    match fetched
    case Rejected => Failure(ApiTypes.NetworkFailure)
    case Responded(reply) =>
      if !ApiTypes.Ok(reply.status) then Failure(ApiTypes.Error("Failed to fetch blog posts"))
      else if reply.body.None? then Failure(ApiTypes.NotJson)
      else if reply.body.value.success then Success(reply.body.value.data)
      else Success(Some([]))
  }

  /** The detail `queryFn`: 404 is null, any other status that is not ok an error; an
      ok response gives the data on success and null otherwise. */
  function DetailResult(fetched: ApiTypes.Fetched<ApiTypes.BlogPost>)
    : (r: Result<Option<ApiTypes.BlogPost>, ApiTypes.Thrown>)
    ensures fetched.Responded? && fetched.reply.status == 404 ==> r == Success(None)
    ensures fetched.Responded? && !ApiTypes.Ok(fetched.reply.status) && fetched.reply.status != 404 ==>
              r == Failure(ApiTypes.Error("Failed to fetch blog post"))
    ensures r.Success? && r.value.Some? ==>
              fetched.Responded? && ApiTypes.Ok(fetched.reply.status) && fetched.reply.body.Some?
              && fetched.reply.body.value.success && r.value == fetched.reply.body.value.data
    ensures fetched.Responded? && ApiTypes.Ok(fetched.reply.status) && fetched.reply.body.Some? ==>
              r == Success(if fetched.reply.body.value.success then fetched.reply.body.value.data else None)
    ensures fetched.Responded? && ApiTypes.Ok(fetched.reply.status) && fetched.reply.body.None? ==>
              r == Failure(ApiTypes.NotJson)
    ensures fetched.Rejected? ==> r == Failure(ApiTypes.NetworkFailure)
  {
    match fetched
    case Rejected => Failure(ApiTypes.NetworkFailure)
    case Responded(reply) =>
      if !ApiTypes.Ok(reply.status) then
        if reply.status == 404 then Success(None) else Failure(ApiTypes.Error("Failed to fetch blog post"))
      else if reply.body.None? then Failure(ApiTypes.NotJson)
      else if reply.body.value.success then Success(reply.body.value.data)
      else Success(None)
  }

  const ListStaleTime: int := 5 * 60 * 1000
  const DetailStaleTime: int := 10 * 60 * 1000

  datatype QueryOptions = QueryOptions(key: QueryKey, enabled: bool, staleTime: int)

  const PropertyNames: set<string> := {"search", "author", "page", "limit"}

  /** The value of one property of the filter object, None when it is undefined. */
  function Property(q: BlogQuery, name: string): Option<JsValue> {
    if name == "search" then (if q.search.Some? then Some(Str(q.search.value)) else None)
    else if name == "author" then (if q.author.Some? then Some(Str(q.author.value)) else None)
    else if name == "page" then (if q.page.Some? then Some(Num(q.page.value)) else None)
    else if name == "limit" then (if q.limit.Some? then Some(Num(q.limit.value)) else None)
    else None
  }

  /** The key of `useBlogPosts(filters)` holds the filter object's defined properties,
      `{}` when there are none. */
  function FilterRecord(filters: Option<BlogQuery>): (m: map<string, JsValue>)
    ensures m.Keys <= PropertyNames
    ensures forall name :: name in m <==> Property(filters.GetOr(NoFilters), name).Some?
    ensures forall name :: name in m ==> m[name] == Property(filters.GetOr(NoFilters), name).value
  {
    var q := filters.GetOr(NoFilters);
    map name | name in PropertyNames && Property(q, name).Some? :: Property(q, name).value
  }

  /** Every defined filter property can be read back from the key's record, and no
      filters give `{}`. */
  lemma FilterRecordReadsBack(q: BlogQuery)
    ensures StrOf(FilterRecord(Some(q)), "search") == q.search
    ensures StrOf(FilterRecord(Some(q)), "author") == q.author
    ensures NumOf(FilterRecord(Some(q)), "page") == q.page
    ensures NumOf(FilterRecord(Some(q)), "limit") == q.limit
    ensures FilterRecord(None) == map[]
  {
    assert forall name :: name !in FilterRecord(None) by {
      forall name ensures Property(NoFilters, name).None? {}
    }
  }

  /** Two different filter objects never share a cache entry; a missing filter object
      shares the entry of one with no property defined. */
  lemma FilterRecordInjective(a: BlogQuery, b: BlogQuery)
    requires FilterRecord(Some(a)) == FilterRecord(Some(b))
    ensures a == b
  {
    FilterRecordReadsBack(a);
    FilterRecordReadsBack(b);
  }

  function BlogPostsQuery(filters: Option<BlogQuery>): QueryOptions {
    QueryOptions(List(FilterRecord(filters)), true, ListStaleTime)
  }

  /** `enabled: !!slug` */
  function BlogPostQuery(slug: string): QueryOptions {
    QueryOptions(Detail(slug), slug != "", DetailStaleTime)
  }

  lemma QueryOptionsRules(filters: Option<BlogQuery>, slug: string)
    ensures BlogPostsQuery(filters).staleTime == 300000 && BlogPostQuery(slug).staleTime == 600000
    ensures BlogPostQuery(slug).enabled <==> slug != ""
    ensures BlogPostsQuery(filters).enabled
  {
  }

  /** The keys each mutation invalidates. */
  function LikeInvalidations(slug: string): seq<QueryKey> {
    [Detail(slug), Lists()]
  }

  function BookmarkInvalidations(slug: string): seq<QueryKey> {
    [Detail(slug)]
  }

  /** A like refreshes that post and every list, but no other post; a bookmark refreshes
      only that post. */
  lemma InvalidationScope(slug: string, other: string, filters: map<string, JsValue>)
    requires other != slug
    ensures exists k :: k in LikeInvalidations(slug) && Extends(List(filters), k)
    ensures exists k :: k in LikeInvalidations(slug) && Extends(Detail(slug), k)
    ensures forall k :: k in LikeInvalidations(slug) ==> !Extends(Detail(other), k)
    ensures forall k :: k in BookmarkInvalidations(slug) ==> !Extends(List(filters), k)
    ensures forall k :: k in BookmarkInvalidations(slug) ==> !Extends(Detail(other), k)
  {
    KeyHierarchy(filters, slug);
    KeyHierarchy(filters, other);
    assert Lists() in LikeInvalidations(slug);
    assert Detail(slug) in LikeInvalidations(slug);
    assert Detail(other)[2] != Detail(slug)[2];
    assert |Detail(other)| == |Detail(slug)|;
  }

  /** `useLikeBlogPost`'s `onSuccess` */
  method LikeOnSuccess(client: QueryClient, slug: string)
    modifies client
    ensures client.requested == old(client.requested) + InvalidateEach(LikeInvalidations(slug))
  {
    client.InvalidateQueries(Detail(slug));
    client.InvalidateQueries(Lists());
  }

  /** `useBookmarkBlogPost`'s `onSuccess` */
  method BookmarkOnSuccess(client: QueryClient, slug: string)
    modifies client
    ensures client.requested == old(client.requested) + InvalidateEach(BookmarkInvalidations(slug))
  {
    client.InvalidateQueries(Detail(slug));
  }
}
