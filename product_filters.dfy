/**
 * The product filter panel: the filter state read from the page's query string,
 * the query string written back after every change, and the edits the panel offers
 * (change one field, clear all).
 */
module ProductFilters {
  import opened Wrappers
  import SearchParams
  import JsString

  type Params = SearchParams.Params

  /** `sortBy` is meant to be "name", "price" or "created_at" and `sortOrder` "asc"
      or "desc", but the values read from the URL are not checked. */
  datatype FilterOptions = FilterOptions(search: string, sortBy: string, sortOrder: string, inStock: bool)

  const Defaults: FilterOptions := FilterOptions("", "name", "asc", false)

  predicate ValidSortBy(s: string) {
    s == "name" || s == "price" || s == "created_at"
  }

  predicate ValidSortOrder(s: string) {
    s == "asc" || s == "desc"
  }

  /** The initial state taken from the URL's search parameters. */
  function ParseFilters(ps: Params): FilterOptions {
    FilterOptions(
      JsString.OrElse(SearchParams.Get(ps, "search"), ""),
      JsString.OrElse(SearchParams.Get(ps, "sortBy"), "name"),
      JsString.OrElse(SearchParams.Get(ps, "sortOrder"), "asc"),
      SearchParams.Get(ps, "inStock") == Some("true"))
  }

  /** Missing or empty parameters take the defaults; inStock holds only for the exact
      string "true"; a sort field is never empty after parsing. */
  lemma ParseDefaults(ps: Params)
    ensures SearchParams.Get(ps, "search").None? ==> ParseFilters(ps).search == ""
    ensures SearchParams.Get(ps, "sortBy") in {None, Some("")} ==> ParseFilters(ps).sortBy == "name"
    ensures SearchParams.Get(ps, "sortOrder") in {None, Some("")} ==> ParseFilters(ps).sortOrder == "asc"
    ensures ParseFilters(ps).inStock <==> SearchParams.Get(ps, "inStock") == Some("true")
    ensures ParseFilters(ps).sortBy != "" && ParseFilters(ps).sortOrder != ""
    ensures ParseFilters([]) == Defaults
  {
  }

  /** The parameters the URL effect writes, in this order: a non-empty search, a sortBy
      other than "name", a sortOrder other than "asc", and inStock=true when set. */
  function FilterEntries(f: FilterOptions): seq<SearchParams.Conditional> {
    [(f.search != "", "search", f.search),
     (f.sortBy != "name", "sortBy", f.sortBy),
     (f.sortOrder != "asc", "sortOrder", f.sortOrder),
     (f.inStock, "inStock", "true")]
  }

  function FilterParams(f: FilterOptions): Params {
    SearchParams.Written(FilterEntries(f))
  }

  /** The URL pushed after every change of the filters. */
  function FilterUrl(f: FilterOptions): string {
    if FilterParams(f) == [] then "/products" else "/products?" + SearchParams.ToString(FilterParams(f))
  }

  predicate HasActiveFilters(f: FilterOptions) {
    f.search != "" || f.sortBy != "name" || f.sortOrder != "asc" || f.inStock
  }

  /** A filter is active iff some parameter is written, iff the URL carries a query. */
  lemma ActiveIffWritten(f: FilterOptions)
    ensures HasActiveFilters(f) <==> FilterParams(f) != []
    ensures HasActiveFilters(f) <==> FilterUrl(f) != "/products"
  {
    var es := FilterEntries(f);
    SearchParams.WrittenEmpty(es);
    assert HasActiveFilters(f) <==> es[0].0 || es[1].0 || es[2].0 || es[3].0;
    if FilterParams(f) != [] {
      assert |FilterUrl(f)| > |"/products"|;
    }
  }

  /** The cleared state is the default state, which writes no query at all. */
  lemma ClearedUrl()
    ensures !HasActiveFilters(Defaults)
    ensures FilterParams(Defaults) == []
    ensures FilterUrl(Defaults) == "/products"
  {
    ActiveIffWritten(Defaults);
  }

  lemma FilterNamesDistinct(f: FilterOptions)
    ensures SearchParams.DistinctNames(FilterEntries(f))
  {
  }

  /** What `get` finds in the written parameters. */
  lemma GetFilterParams(f: FilterOptions)
    ensures SearchParams.Get(FilterParams(f), "search") == if f.search != "" then Some(f.search) else None
    ensures SearchParams.Get(FilterParams(f), "sortBy") == if f.sortBy != "name" then Some(f.sortBy) else None
    ensures SearchParams.Get(FilterParams(f), "sortOrder") == if f.sortOrder != "asc" then Some(f.sortOrder) else None
    ensures SearchParams.Get(FilterParams(f), "inStock") == if f.inStock then Some("true") else None
  {
    var es := FilterEntries(f);
    FilterNamesDistinct(f);
    SearchParams.GetWritten(es, 0);
    SearchParams.GetWritten(es, 1);
    SearchParams.GetWritten(es, 2);
    SearchParams.GetWritten(es, 3);
  }

  /** Reading back the written URL gives the same filters exactly when neither sort
      field is the empty string, which holds for every value the panel's selects offer. */
  lemma FilterRoundTrip(f: FilterOptions)
    ensures ParseFilters(SearchParams.FromString(SearchParams.ToString(FilterParams(f)))) == f
            <==> f.sortBy != "" && f.sortOrder != ""
  {
    SearchParams.FromToString(FilterParams(f));
    GetFilterParams(f);
  }

  lemma ValidFilterRoundTrip(f: FilterOptions)
    requires ValidSortBy(f.sortBy) && ValidSortOrder(f.sortOrder)
    ensures ParseFilters(SearchParams.FromString(SearchParams.ToString(FilterParams(f)))) == f
  {
    FilterRoundTrip(f);
  }

  /** A change of one field of the panel. */
  datatype FieldUpdate = Search(s: string) | SortBy(s: string) | SortOrder(s: string) | InStock(b: bool)

  /** `{ ...prev, [key]: value }` */
  function Apply(f: FilterOptions, u: FieldUpdate): FilterOptions {
    match u
    case Search(s) => f.(search := s)
    case SortBy(s) => f.(sortBy := s)
    case SortOrder(s) => f.(sortOrder := s)
    case InStock(b) => f.(inStock := b)
  }

  /** A field change sets the named field and leaves the other three as they were. */
  lemma ApplyOnlyNamedField(f: FilterOptions, u: FieldUpdate)
    ensures u.Search? ==> Apply(f, u) == FilterOptions(u.s, f.sortBy, f.sortOrder, f.inStock)
    ensures u.SortBy? ==> Apply(f, u) == FilterOptions(f.search, u.s, f.sortOrder, f.inStock)
    ensures u.SortOrder? ==> Apply(f, u) == FilterOptions(f.search, f.sortBy, u.s, f.inStock)
    ensures u.InStock? ==> Apply(f, u) == FilterOptions(f.search, f.sortBy, f.sortOrder, u.b)
  {
  }

  /** The panel's state. */
  class FilterPanel {
    var filters: FilterOptions

    constructor (ps: Params)
      ensures filters == ParseFilters(ps)
    {
      filters := ParseFilters(ps);
    }

    method HandleFilterChange(u: FieldUpdate)
      modifies this
      ensures filters == Apply(old(filters), u)
    {
      filters := Apply(filters, u);
    }

    method ClearFilters()
      modifies this
      ensures filters == Defaults
    {
      filters := FilterOptions("", "name", "asc", false);
    }

    function Active(): bool
      reads this
    {
      HasActiveFilters(filters)
    }

    /** The URL effect: push "/products", followed by "?" and the query when it is
        not empty. */
    method UrlEffect() returns (url: string)
      ensures url == FilterUrl(filters)
      ensures url == "/products" <==> !Active()
    {
      var params := BuildParams(filters);
      var queryString := SearchParams.ToString(params);
      SearchParams.ToStringEmpty(params);
      url := if queryString != "" then "/products?" + queryString else "/products";
      ActiveIffWritten(filters);
    }
  }

  /** The parameters written before each conditional `set` do not hold its name yet,
      so each `set` appends. */
  lemma FilterSteps(f: FilterOptions)
    ensures var es := FilterEntries(f);
            && !SearchParams.Has(SearchParams.Entry(es[0]), "sortBy")
            && !SearchParams.Has(SearchParams.Entry(es[0]) + SearchParams.Entry(es[1]), "sortOrder")
            && !SearchParams.Has(SearchParams.Entry(es[0]) + SearchParams.Entry(es[1]) + SearchParams.Entry(es[2]), "inStock")
            && FilterParams(f) == [] + SearchParams.Entry(es[0]) + SearchParams.Entry(es[1])
                                  + SearchParams.Entry(es[2]) + SearchParams.Entry(es[3])
  {
    var es := FilterEntries(f);
    SearchParams.WrittenFour(es);
    var p1 := SearchParams.Entry(es[0]);
    var p2 := p1 + SearchParams.Entry(es[1]);
    var p3 := p2 + SearchParams.Entry(es[2]);
    assert forall i :: 0 <= i < |p1| ==> p1[i].0 == "search";
    assert forall i :: 0 <= i < |p2| ==> p2[i].0 in {"search", "sortBy"};
    assert forall i :: 0 <= i < |p3| ==> p3[i].0 in {"search", "sortBy", "sortOrder"};
  }

  /** Fill an empty parameter list with the effect's conditional `set` calls. */
  method BuildParams(f: FilterOptions) returns (params: Params)
    ensures params == FilterParams(f)
  {
    FilterSteps(f);
    params := [];
    params := SearchParams.SetWhen(params, f.search != "", "search", f.search);
    params := SearchParams.SetWhen(params, f.sortBy != "name", "sortBy", f.sortBy);
    params := SearchParams.SetWhen(params, f.sortOrder != "asc", "sortOrder", f.sortOrder);
    params := SearchParams.SetWhen(params, f.inStock, "inStock", "true");
  }
}
