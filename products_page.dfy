/**
 * The product list page: its filter and page state, the two handlers that change
 * them, the arguments of the product query, and what the page shows.
 */
module ProductsPage {
  import opened Wrappers
  import JsString
  import SearchParams
  import ProductFilters
  import UseProducts
  import Pagination
  import ApiTypes

  const PageSize: int := 12

  /** The route's `searchParams` prop; None for an absent property. */
  datatype PageSearchParams = PageSearchParams(
    search: Option<string>, sortBy: Option<string>, sortOrder: Option<string>,
    inStock: Option<string>, page: Option<string>)

  /** The prop as the framework fills it from a query with one value per name. */
  function FromQuery(ps: SearchParams.Params): PageSearchParams {
    PageSearchParams(
      SearchParams.Get(ps, "search"), SearchParams.Get(ps, "sortBy"), SearchParams.Get(ps, "sortOrder"),
      SearchParams.Get(ps, "inStock"), SearchParams.Get(ps, "page"))
  }

  function InitialFilters(sp: PageSearchParams): ProductFilters.FilterOptions {
    ProductFilters.FilterOptions(
      JsString.OrElse(sp.search, ""),
      JsString.OrElse(sp.sortBy, "name"),
      JsString.OrElse(sp.sortOrder, "asc"),
      sp.inStock == Some("true"))
  }

  /** The `||` defaults leave neither sort field of the initial filters empty. */
  lemma InitialSortFieldsSet(sp: PageSearchParams)
    ensures InitialFilters(sp).sortBy != "" && InitialFilters(sp).sortOrder != ""
    ensures sp.sortBy in {None, Some("")} ==> InitialFilters(sp).sortBy == "name"
    ensures sp.sortOrder in {None, Some("")} ==> InitialFilters(sp).sortOrder == "asc"
  {
  }

  /** The page starts from the same filters as the filter panel reading the same query. */
  lemma InitialFiltersAgree(ps: SearchParams.Params)
    ensures InitialFilters(FromQuery(ps)) == ProductFilters.ParseFilters(ps)
  {
  }

  /** The defaults: no search, sorted by name ascending, all stock. */
  lemma InitialDefaults(sp: PageSearchParams)
    requires sp.search.None? && sp.sortBy.None? && sp.sortOrder.None? && sp.inStock.None?
    ensures InitialFilters(sp) == ProductFilters.Defaults
  {
  }

  /** A partial update of the filters: None for a field it does not name. */
  datatype PartialFilters = PartialFilters(
    search: Option<string>, sortBy: Option<string>, sortOrder: Option<string>, inStock: Option<bool>)

  /** `{ ...prev, ...newFilters }` */
  function Merge(f: ProductFilters.FilterOptions, p: PartialFilters): ProductFilters.FilterOptions {
    ProductFilters.FilterOptions(
      p.search.GetOr(f.search), p.sortBy.GetOr(f.sortBy), p.sortOrder.GetOr(f.sortOrder), p.inStock.GetOr(f.inStock))
  }

  /** Two updates one after the other, the later one winning where both name a field. */
  function Then(p: PartialFilters, q: PartialFilters): PartialFilters {
    PartialFilters(
      if q.search.Some? then q.search else p.search,
      if q.sortBy.Some? then q.sortBy else p.sortBy,
      if q.sortOrder.Some? then q.sortOrder else p.sortOrder,
      if q.inStock.Some? then q.inStock else p.inStock)
  }

  /** Merging keeps every field the update does not name, an empty update changes nothing,
      merging the same update twice is merging it once, and two merges are one merge of
      the combined update. */
  lemma MergeLaws(f: ProductFilters.FilterOptions, p: PartialFilters, q: PartialFilters)
    ensures p.search.None? ==> Merge(f, p).search == f.search
    ensures p.sortBy.None? ==> Merge(f, p).sortBy == f.sortBy
    ensures p.sortOrder.None? ==> Merge(f, p).sortOrder == f.sortOrder
    ensures p.inStock.None? ==> Merge(f, p).inStock == f.inStock
    ensures Merge(f, PartialFilters(None, None, None, None)) == f
    ensures Merge(Merge(f, p), p) == Merge(f, p)
    ensures Merge(Merge(f, p), q) == Merge(f, Then(p, q))
  {
  }

  /** The arguments of the product query: the filters, the current page and 12 per page. */
  function QueryArgs(f: ProductFilters.FilterOptions, currentPage: int): UseProducts.ProductQuery {
    UseProducts.ProductQuery(
      Some(f.search), Some(f.sortBy), Some(f.sortOrder), Some(f.inStock), Some(currentPage), Some(PageSize))
  }

  /** The page's request always asks for 12 items of the current page (for a page other
      than 0, which is falsy); the search and the sort fields are sent only when not
      empty, which the sort fields of the initial filters never are, and inStock only
      when set. */
  lemma QueryCarriesPage(f: ProductFilters.FilterOptions, currentPage: int)
    requires currentPage != 0
    ensures var ps := SearchParams.FromString(SearchParams.ToString(UseProducts.QueryParams(Some(QueryArgs(f, currentPage)))));
            && SearchParams.Get(ps, "page") == Some(JsString.IntToString(currentPage))
            && SearchParams.Get(ps, "limit") == Some("12")
            && SearchParams.Get(ps, "search") == (if f.search != "" then Some(f.search) else None)
            && SearchParams.Get(ps, "inStock") == (if f.inStock then Some("true") else None)
            && SearchParams.Get(ps, "sortBy") == (if f.sortBy != "" then Some(f.sortBy) else None)
            && SearchParams.Get(ps, "sortOrder") == (if f.sortOrder != "" then Some(f.sortOrder) else None)
  {
    var q := QueryArgs(f, currentPage);
    assert q.page == Some(currentPage) && q.limit == Some(12);
    assert q.search == Some(f.search) && q.inStock == Some(f.inStock);
    assert q.sortBy == Some(f.sortBy) && q.sortOrder == Some(f.sortOrder);
    UseProducts.ListUrlCarries(Some(q));
    PageSizeWritten();
  }

  /** The page size goes into the query string as "12". */
  lemma PageSizeWritten()
    ensures JsString.IntToString(PageSize) == "12"
  {
    JsString.TwoDigits(PageSize);
    assert JsString.DigitChar(1) == '1' && JsString.DigitChar(2) == '2';
  }

  /** The page's state. */
  class ProductsPageState {
    var currentPage: int
    var filters: ProductFilters.FilterOptions

    constructor (sp: PageSearchParams)
      ensures currentPage == 1
      ensures filters == InitialFilters(sp)
    {
      currentPage := 1;
      filters := InitialFilters(sp);
    }

    /** A filter change merges the update and goes back to the first page. */
    method HandleFilterChange(p: PartialFilters)
      modifies this
      ensures filters == Merge(old(filters), p)
      ensures currentPage == 1
    {
      filters := Merge(filters, p);
      currentPage := 1;
    }

    /** A page change moves to the page and keeps the filters. */
    method HandlePageChange(page: int)
      modifies this
      ensures currentPage == page
      ensures filters == old(filters)
    {
      currentPage := page;
    }

    function Query(): UseProducts.ProductQuery
      reads this
    {
      QueryArgs(filters, currentPage)
    }
  }

  /** `Math.ceil(n / 12)`: the fewest pages of 12 that hold n items. */
  function TotalPages(n: nat): (r: nat)
    ensures r * PageSize >= n
    ensures r == 0 || (r - 1) * PageSize < n
    ensures r == 0 <==> n == 0
  {
    (n + PageSize - 1) / PageSize
  }

  /** "<n> product found" for one product, "<n> products found" otherwise. */
  function ResultsLabel(n: nat): string {
    JsString.NatToString(n) + " product" + (if n != 1 then "s" else "") + " found"
  }

  lemma LabelPlural(n: nat)
    ensures var l := ResultsLabel(n); |l| >= 7 && (l[|l| - 7..] == "s found" <==> n != 1)
  {
    var l := ResultsLabel(n);
    if n == 1 {
      assert l == "1 product found";
    } else {
      assert l == JsString.NatToString(n) + " products found";
    }
  }

  /** What the page shows. Results carry the count line, the bar's (currentPage,
      totalPages) when it is given one, and whether the "No products found" state is
      shown. */
  datatype View =
    | Loading
    | LoadError
    | Results(countLine: string, pagination: Option<(int, int)>, emptyState: bool)

  /** `data: products = []` then the three returns of the page: loading first, then the
      error, then the results. */
  function Render(isLoading: bool, error: Option<ApiTypes.Thrown>, data: Option<seq<ApiTypes.Product>>, currentPage: int): View {
    var products := data.GetOr([]);
    if isLoading then Loading
    else if error.Some? then LoadError
    else Results(
      ResultsLabel(|products|),
      if |products| > 0 then Some((currentPage, TotalPages(|products|))) else None,
      |products| == 0)
  }

  /** Loading wins over an error and an error over results; with results, exactly one
      of the bar and the empty state is given, and the bar draws its controls only when
      there are more than 12 products. */
  lemma RenderRules(isLoading: bool, error: Option<ApiTypes.Thrown>, data: Option<seq<ApiTypes.Product>>, currentPage: int)
    ensures isLoading ==> Render(isLoading, error, data, currentPage) == Loading
    ensures !isLoading && error.Some? ==> Render(isLoading, error, data, currentPage) == LoadError
    ensures var v := Render(isLoading, error, data, currentPage);
            v.Results? ==> (v.pagination.Some? <==> !v.emptyState)
    ensures var v := Render(isLoading, error, data, currentPage);
            v.Results? && v.pagination.Some? ==>
              (Pagination.Rendered(v.pagination.value.1) <==> |data.GetOr([])| > PageSize)
  {
  }

  /** End to end: a finished list query shows the error view when it failed, and the
      empty state when the server answered with an unsuccessful envelope. */
  lemma ResponseToView(fetched: ApiTypes.Fetched<seq<ApiTypes.Product>>, currentPage: int)
    ensures var r := UseProducts.ListResult(fetched);
            r.Failure? ==> Render(false, Some(r.error), None, currentPage) == LoadError
    ensures var r := UseProducts.ListResult(fetched);
            r.Success? && !fetched.reply.body.value.success ==>
              Render(false, None, r.value, currentPage).emptyState
  {
  }
}
