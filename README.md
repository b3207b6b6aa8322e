# Storefront and blog: the rules of the front-end and the gateway's Directus service

This project models the checkable logic of a storefront-and-blog web application.
It covers the Next.js front-end and the Directus-backed API gateway. The model is
written in Dafny, and Dafny proves the properties stated about it.

What is modelled:

- **Pagination bar.** The product list's bar builds a window of page numbers with
  "..." markers, computes the "Showing x-y of n" bounds, decides which buttons are
  disabled, and builds the query string a page change navigates to.
- **Filter panel.** It reads the filter state from the URL's search parameters and
  writes the non-default fields back to the URL. It also detects active filters,
  changes one field, and clears all.
- **Product list page.** It holds its own filter and page state. It queries the
  products with the current page and 12 per page, and chooses between the loading
  view, the error view, the results, the pagination bar and the empty state.
- **Blog text rules.**
  - The post body is cut into chunks at blank lines. Each chunk is classified as
    h1/h2/h3, list, paragraph or nothing.
  - The read time is `ceil(pieces / 200)`, where the pieces come from splitting on
    single spaces.
  - The excerpt is the first 150 characters (Unicode code points) plus "...".
  - The card links to `/blog/<slug>`.
- **Product card.** The stock rule (`stock_quantity > 0`) and the status text,
  overlay and button state it decides.
- **Query layer.**
  - The hierarchical cache keys of products, blog posts and the session user.
  - The query strings of the list requests.
  - How an HTTP status and the `{ success, data, error }` envelope become data, an
    empty list, null or an error.
  - The cache operations each mutation requests when it succeeds.
  - The client-wide retry rule and cache timings.
  - The context's adapters that turn a mutation's outcome into a boolean.
- **API client.**
  - Composing a request: the URL, the header layering and the bearer token held in
    a mutable field.
  - The error message chosen for a failed response.
  - The endpoint table.
  - The helpers that fall back to an empty list or null.
- **Session cookie relay.** The `auth-token` cookie is:
  - set by the login and register routes on a successful envelope;
  - expired by the logout route;
  - read by the current-user route.

  A lemma follows the cookie through a browser's cookie store, from login to logout.
- **Gateway service account.** The Directus service prefers a static token over
  email and password. Its `isAuthenticated` flag is never reset once set. Its
  reads authenticate first, and its failures map to fixed messages. Calls are taken
  one after another; overlapping requests are not modelled.

JavaScript's own semantics are modelled where the rules depend on them:

- `split` works left to right, without overlaps, and always gives at least one
  piece.
- `replace` with a string pattern replaces only the first occurrence.
- `trim` uses the ECMAScript white-space set.
- Truthiness and `||` are modelled for strings and numbers.
- `URLSearchParams` follows the WHATWG URL standard:
  - `get`, `set` and `append`;
  - serialisation as `application/x-www-form-urlencoded` over UTF-8;
  - a parser, with the round trip proved.

Network replies, SDK results, environment variables and the cookie sent by the
browser are parameters of the model. Cache and cookie effects are recorded in
objects (`QueryCache.QueryClient.requested`, `SessionCookies.ResponseCookies.written`,
`Directus.DirectusService.sdkCalls`), so methods can state exactly what they
requested.

Things the code does that a reader might not expect; the model follows the code in
each case:

- The product list page never reads the `page` search parameter: the page always
  starts at 1. The page hands the pagination bar an `onPageChange` prop that the bar
  does not take, so a page change goes through the URL only.
- The filter panel takes no props. The `filters` and `onFilterChange` the page passes
  it are ignored, and nothing else calls the page's filter handler. So the page's
  filters, and with them its product query, stay as they were read when the page
  mounted; the panel only pushes URLs. `ProductsPage.ProductsPageState.HandleFilterChange`
  models the handler as written, although no caller invokes it.
- The page gives the pagination bar neither `totalItems` nor `itemsPerPage`, which the
  bar takes. At that call site the "Showing x-y of n products" line is computed from
  undefined values and shows `NaN`. `Pagination.ShowingBounds` and
  `Pagination.ShowingAdjacent` describe the bar when it is given numbers.
- The page always passes its sort fields to the product query. The initial filters
  never leave them empty (`ProductsPage.InitialSortFieldsSet`), so the request carries
  `sortBy` and `sortOrder` (`ProductsPage.QueryCarriesPage`).
- The retry rule reads the error's `status`. No query function attaches one, so in
  this application the rule reduces to "retry while fewer than three failures".
  `QueryProvider.ShouldRetry` keeps the status argument so that the 401/403 branch
  is modelled.
- The login and register routes answer 500 with their fixed message when the gateway
  reports success without `data`, because reading `data.data.access_token` throws.
- `request` in the API client parses the body before it looks at the status. A
  failed response whose body is not JSON therefore fails with the parse error, not
  with "HTTP error! status: N".
- `sortBy` and `sortOrder` read from the URL are not checked against the values the
  selects offer. The filter round trip therefore holds exactly when neither is the
  empty string.

## Model

| member | source | states |
|---|---|---|
| Pagination.GetPageNumbers | front-end/src/components/Pagination.tsx:35-72 | the list built by pushing entries one by one is the page list: all pages for at most five, else 1, an optional "...", the window around the current page, an optional "..." and the last page |
| Pagination.PageListIncreasing | front-end/src/components/Pagination.tsx:45-68 | page numbers strictly increase (no page twice) and are all between 1 and totalPages |
| Pagination.SmallPageList | front-end/src/components/Pagination.tsx:39-43 | with at most five pages the list is exactly 1..totalPages in order |
| Pagination.LargePageListEnds | front-end/src/components/Pagination.tsx:45-68 | with more than five pages the list starts with page 1 and ends with the last page |
| Pagination.LargePageListShape | front-end/src/components/Pagination.tsx:45-68 | the entry at every index of the list for more than five pages, with a window of at most three pages |
| Pagination.EllipsisRule | front-end/src/components/Pagination.tsx:47-63 | left "..." iff currentPage > 3, right "..." iff currentPage < totalPages-2, no "..." elsewhere, at most 7 entries |
| Pagination.PageListGapsMarked | front-end/src/components/Pagination.tsx:47-63 | adjacent shown pages are consecutive; every "..." stands between two shown pages and hides at least one page |
| Pagination.PageListConsecutive | front-end/src/components/Pagination.tsx:45-68 | two shown pages next to each other in the list are consecutive page numbers |
| Pagination.PageListEllipsisHides | front-end/src/components/Pagination.tsx:47-63 | every "..." has a shown page on each side and at least one page hidden between them |
| Pagination.PushWindow | front-end/src/components/Pagination.tsx:52-59 | the loop appends exactly the pages from start to end, in order |
| Pagination.CurrentPageShown | front-end/src/components/Pagination.tsx:45-68 | the current page is among the entries iff 1 <= currentPage <= totalPages |
| Pagination.ShowingBounds | front-end/src/components/Pagination.tsx:28-29 | "Showing x-y": 1 <= x <= y <= totalItems, at most itemsPerPage items, a full page unless it is the last |
| Pagination.ShowingAdjacent | front-end/src/components/Pagination.tsx:28-29 | the next page's first item follows this page's last item |
| Pagination.EntryTarget | front-end/src/components/Pagination.tsx:96-97 | a click navigates nowhere exactly for a disabled "..." entry |
| Pagination.EnabledTargetsInRange | front-end/src/components/Pagination.tsx:84-107 | Previous enabled unless on page 1, Next unless on the last page, and every enabled button leads to a page in 1..totalPages |
| Pagination.OneActiveEntry | front-end/src/components/Pagination.tsx:93-95 | at most one entry is highlighted as the current page |
| Pagination.PageChangeKeepsOthers | front-end/src/components/Pagination.tsx:22-24 | a page change sets `page` to the new page and keeps every other parameter, in order |
| Pagination.PageChangeUrlReadsBack | front-end/src/components/Pagination.tsx:25 | the navigated URL is "/products?" and a query that parses back to exactly the new parameters |
| ProductFilters.ParseDefaults | front-end/src/components/ProductFilters.tsx:18-24 | missing search gives "", missing or empty sortBy "name", sortOrder "asc"; inStock iff the exact string "true"; an empty query gives the defaults |
| ProductFilters.ActiveIffWritten | front-end/src/components/ProductFilters.tsx:31-59 | a filter is active iff some parameter is written iff the URL differs from "/products" |
| ProductFilters.ClearedUrl | front-end/src/components/ProductFilters.tsx:36-53 | the cleared state is not active, writes no parameter and gives "/products" |
| ProductFilters.GetFilterParams | front-end/src/components/ProductFilters.tsx:31-34 | search written iff non-empty, sortBy iff not "name", sortOrder iff not "asc", inStock="true" iff set |
| ProductFilters.FilterRoundTrip | front-end/src/components/ProductFilters.tsx:18-37 | parsing the written URL gives back the filters iff neither sort field is empty |
| ProductFilters.ValidFilterRoundTrip | front-end/src/components/ProductFilters.tsx:18-37 | the round trip for every sortBy/sortOrder the selects offer |
| ProductFilters.ApplyOnlyNamedField | front-end/src/components/ProductFilters.tsx:42-44 | a field change sets that field and leaves the other three unchanged |
| ProductFilters.FilterPanel.constructor | front-end/src/components/ProductFilters.tsx:18-24 | the panel starts from the parsed URL |
| ProductFilters.FilterPanel.HandleFilterChange | front-end/src/components/ProductFilters.tsx:42-44 | the state becomes the old state with the one field replaced |
| ProductFilters.FilterPanel.ClearFilters | front-end/src/components/ProductFilters.tsx:46-53 | the state becomes the defaults |
| ProductFilters.FilterPanel.UrlEffect | front-end/src/components/ProductFilters.tsx:28-37 | the pushed URL is the filters' URL, and it is plain "/products" iff no filter is active |
| ProductFilters.BuildParams | front-end/src/components/ProductFilters.tsx:29-34 | the parameters filled by the conditional `set` calls are the written parameters |
| ProductsPage.InitialFiltersAgree | front-end/src/app/products/page.tsx:21-27 | the page's initial filters equal the panel's parse of the same query |
| ProductsPage.InitialDefaults | front-end/src/app/products/page.tsx:21-27 | without search parameters the page starts from the defaults |
| ProductsPage.ProductsPageState.constructor | front-end/src/app/products/page.tsx:21-27 | the page starts on page 1 with the initial filters |
| ProductsPage.ProductsPageState.HandleFilterChange | front-end/src/app/products/page.tsx:39-42 | the update is merged over the old filters and the page goes back to 1 |
| ProductsPage.ProductsPageState.HandlePageChange | front-end/src/app/products/page.tsx:44-45 | the page becomes the requested one and the filters are unchanged |
| ProductsPage.MergeLaws | front-end/src/app/products/page.tsx:40 | fields the update does not name are kept; an empty update is the identity; merging is idempotent; two merges are one merge of the combined update |
| ProductsPage.QueryCarriesPage | front-end/src/app/products/page.tsx:29-37 | the request reads back page = currentPage and limit = "12", with search, sortBy and sortOrder each only when non-empty, and inStock only when set |
| ProductsPage.InitialSortFieldsSet | front-end/src/app/products/page.tsx:21-26 | the initial sortBy and sortOrder are never empty, and they default to "name" and "asc" |
| ProductsPage.PageSizeWritten | front-end/src/app/products/page.tsx:36 | the page size 12 goes into the query string as "12" |
| ProductsPage.TotalPages | front-end/src/app/products/page.tsx:101 | the fewest pages of 12 that hold the products; zero exactly for no products |
| ProductsPage.LabelPlural | front-end/src/app/products/page.tsx:92 | the label ends in "products found" iff the count is not 1 |
| ProductsPage.RenderRules | front-end/src/app/products/page.tsx:50-113 | loading wins over error and error over results; exactly one of the bar and the empty state; the bar draws iff more than 12 products |
| ProductsPage.ResponseToView | front-end/src/app/products/page.tsx:30-113 | a failed list query shows the error view; an unsuccessful envelope shows the empty state |
| BlogPostContent.ParseContentChunks | front-end/src/components/BlogPostContent.tsx:11-13 | one block per "\n\n"-separated chunk, in order; the chunks joined back give the content; no chunk holds a blank line |
| BlogPostContent.ClassifyRules | front-end/src/components/BlogPostContent.tsx:15-62 | h1/h2/h3 iff the chunk starts with "# "/"## "/"### ", the text is the chunk without that prefix; list iff "- " or "* "; paragraph (text unchanged) iff unmarked and not blank; nothing iff unmarked and blank |
| BlogPostContent.PrefixesExclusive | front-end/src/components/BlogPostContent.tsx:15-40 | no chunk starts with two of "# ", "## ", "### ", "- " and "* " |
| BlogPostContent.ListItemsRules | front-end/src/components/BlogPostContent.tsx:40-50 | one item per non-blank line, each the line with one leading marker removed; never more items than lines |
| BlogPostContent.NonBlank | front-end/src/components/BlogPostContent.tsx:41 | every kept line is an input line that is not blank, and every such line is kept |
| BlogPostContent.NonBlankFilter | front-end/src/components/BlogPostContent.tsx:41 | a filter: one line is kept iff it is not blank, and a concatenation is filtered part by part, so order and repetitions are kept |
| BlogPostContent.NonBlankConcat | front-end/src/components/BlogPostContent.tsx:41 | filtering a concatenation gives the filtered parts, concatenated in order |
| BlogPostCard.ReadTime | front-end/src/components/BlogPostCard.tsx:18 | the least number of minutes at 200 pieces a minute, at least 1 even for empty content |
| BlogPostCard.ReadTimeBySpaces | front-end/src/components/BlogPostCard.tsx:18 | pieces are the spaces plus one, so the read time counts spaces |
| BlogPostCard.ShortReadTime | front-end/src/components/BlogPostCard.tsx:18 | content under 200 characters takes one minute |
| BlogPostCard.ReadTimeMonotone | front-end/src/components/BlogPostCard.tsx:18 | appending text never lowers the read time |
| BlogPostCard.MockPostReadTime | front-end/src/__tests__/components/BlogPostCard.test.tsx:52-60 | the fixture post reads in one minute |
| BlogPostCard.Excerpt | front-end/src/components/BlogPostCard.tsx:25 | a prefix of the content of min(150, length) code points followed by "...", appended to short content too |
| BlogPostCard.Link | front-end/src/components/BlogPostCard.tsx:22 | "/blog/" followed by exactly the slug |
| BlogPostCard.LinkInjective | front-end/src/components/BlogPostCard.tsx:22 | different slugs link to different pages |
| BlogPostCard.ShortPostCard | front-end/src/components/BlogPostCard.tsx:18-25 | a post of at most 150 code points shows its whole content plus "..." and "1 min read" |
| BlogPostCard.LongPostCard | front-end/src/components/BlogPostCard.tsx:25 | content over 150 code points shows its first 150 and "...", so never the whole content |
| BlogPostCard.ExcerptKeepsOpening | front-end/src/components/BlogPostCard.tsx:25 | any opening of the content of at most 150 code points stays at the start of the excerpt |
| BlogPostCard.LongTestPost | front-end/src/__tests__/components/BlogPostCard.test.tsx:62-76 | the test's sentence repeated 20 times is cut to 150 code points, keeps "This is a very long content" at the start and ends in "..." |
| BlogPostMeta.ReadTime | front-end/src/components/BlogPostMeta.tsx:30 | the header's read time is at least one minute |
| BlogPostMeta.SameAsCard | front-end/src/components/BlogPostMeta.tsx:30 | the header and the card report the same read time for every post |
| BlogPostMeta.RepeatedWordReadTime | front-end/src/__tests__/components/BlogPostMeta.test.tsx:29-39 | `"word ".repeat(500)` splits into 501 pieces, three minutes |
| BlogPostMeta.MockPostReadTime | front-end/src/__tests__/components/BlogPostMeta.test.tsx:20-27 | the fixture post reads in one minute |
| ProductCard.StockRules | front-end/src/components/ProductCard.tsx:15-51 | "In Stock" iff stock > 0; the button is disabled iff stock <= 0 and reads "Add to Cart" iff enabled |
| ProductCard.OutOfStockCount | front-end/src/components/ProductCard.tsx:24-50 | out of stock the text "Out of Stock" appears three times, in stock never |
| ProductCard.ClickRules | front-end/src/components/ProductCard.tsx:47-48 | a click hands the same product to the handler iff in stock and a handler exists |
| UseProducts.KeyHierarchy | front-end/src/hooks/useProducts.ts:7-14 | every key extends ["products"]; list keys extend lists(), detail keys details(), and neither extends the other's |
| UseProducts.KeysInjective | front-end/src/hooks/useProducts.ts:10-13 | different filter objects or ids give different keys, and a list key is never a detail key |
| UseProducts.KeyRecordReadsBack | front-end/src/hooks/useProducts.ts:26 | every defined filter property can be read back from the key |
| UseProducts.KeyRecordInjective | front-end/src/hooks/useProducts.ts:26 | different filter objects never share a cache entry |
| UseProducts.BuildQueryParams | front-end/src/hooks/useProducts.ts:28-35 | the conditional appends give the written parameters |
| UseProducts.QueryParamReadsBack | front-end/src/hooks/useProducts.ts:28-37 | each parameter reads back from the query string exactly when it was appended |
| UseProducts.ListUrlCarries | front-end/src/hooks/useProducts.ts:28-37 | search, sortBy, sortOrder, inStock="true", page, limit each read back iff truthy |
| UseProducts.ListResult | front-end/src/hooks/useProducts.ts:41-46 | not ok is an error; ok and success give the data; ok and not success give [] |
| UseProducts.DetailResult | front-end/src/hooks/useProducts.ts:61-67 | 404 gives null; any other non-ok status an error; an ok reply gives the data of a successful envelope and null for an unsuccessful one; no JSON body or a rejected fetch is an error |
| UseProducts.NotFoundRules | front-end/src/hooks/useProducts.ts:41-62 | a 404 fails the list but gives null for the detail |
| UseProducts.QueryOptionsRules | front-end/src/hooks/useProducts.ts:48-70 | staleTime 120000 for the list and 300000 for the detail; the detail runs iff the id is non-empty |
| UseProducts.AddToCartCoversProducts | front-end/src/hooks/useProducts.ts:86-91 | every product key is covered by an add-to-cart invalidation |
| UseProducts.AddToCartOnSuccess | front-end/src/hooks/useProducts.ts:86-91 | requests the invalidation of ["products"] then ["cart"] |
| UseBlog.KeyHierarchy | front-end/src/hooks/useBlog.ts:7-14 | every key extends ["blog"]; list and detail keys stay apart |
| UseBlog.DetailInjective | front-end/src/hooks/useBlog.ts:13 | different slugs get different keys |
| UseBlog.BuildQueryParams | front-end/src/hooks/useBlog.ts:26-30 | the conditional appends give the written parameters |
| UseBlog.QueryParamReadsBack | front-end/src/hooks/useBlog.ts:26-32 | each parameter reads back from the query string exactly when it was appended |
| UseBlog.ListUrlCarries | front-end/src/hooks/useBlog.ts:26-32 | search, author, page, limit each read back iff truthy |
| UseBlog.NoFiltersUrl | front-end/src/hooks/useBlog.ts:24-32 | without filters the request is "/api/blog?" with an empty query |
| UseBlog.ListResult | front-end/src/hooks/useBlog.ts:34-39 | not ok is an error; else the data on success and [] otherwise |
| UseBlog.DetailResult | front-end/src/hooks/useBlog.ts:52-58 | 404 gives null; any other non-ok status an error; an ok reply gives the data of a successful envelope and null for an unsuccessful one; no JSON body or a rejected fetch is an error |
| UseBlog.FilterRecord | front-end/src/hooks/useBlog.ts:24 | the key record holds exactly the defined filter properties, each with its value |
| UseBlog.FilterRecordReadsBack | front-end/src/hooks/useBlog.ts:24 | every defined filter property reads back from the key with its value; no filters give `{}` |
| UseBlog.FilterRecordInjective | front-end/src/hooks/useBlog.ts:24 | different filter objects never share a cache entry |
| UseBlog.QueryOptionsRules | front-end/src/hooks/useBlog.ts:41-61 | staleTime 300000 for the list and 600000 for the detail; the detail runs iff the slug is non-empty |
| UseBlog.InvalidationScope | front-end/src/hooks/useBlog.ts:75-96 | a like covers that post and every list but no other post; a bookmark covers only that post |
| UseBlog.LikeOnSuccess | front-end/src/hooks/useBlog.ts:75-79 | requests one invalidation per key of the like's invalidation list (detail(slug), then lists()), in order |
| UseBlog.BookmarkOnSuccess | front-end/src/hooks/useBlog.ts:93-96 | requests one invalidation per key of the bookmark's invalidation list (detail(slug) only) |
| UseAuth.UserKey | front-end/src/hooks/useAuth.ts:7-10 | the user key strictly extends ["auth"] |
| UseAuth.UserResult | front-end/src/hooks/useAuth.ts:16-26 | a non-ok response gives null, not an error; an ok one with a body gives the data of a successful envelope and null otherwise; no body or a rejected fetch is an error |
| UseAuth.MutationResult | front-end/src/hooks/useAuth.ts:46-102 | resolves with the envelope iff it reports success; otherwise fails with its error or the fallback |
| UseAuth.StatusIgnored | front-end/src/hooks/useAuth.ts:46-50 | the HTTP status does not change a mutation's outcome |
| UseAuth.LoginFailureMessage | front-end/src/hooks/useAuth.ts:47-48 | an unsuccessful login fails with "Login failed" when the error is missing or empty, else with the error |
| UseAuth.SignIn | front-end/src/hooks/useAuth.ts:52-83 | on success only the user key is invalidated; on failure nothing is requested |
| UseAuth.LogOut | front-end/src/hooks/useAuth.ts:104-108 | on success the user is set to null, then every key under ["auth"] is removed |
| UseAuth.LogoutRemovesUser | front-end/src/hooks/useAuth.ts:106-107 | the removal covers the user key just nulled |
| QueryProvider.ShouldRetry | front-end/src/providers/QueryProvider.tsx:19-25 | never for 401 or 403; otherwise iff failureCount < 3, an error without status included |
| QueryProvider.RetryBound | front-end/src/providers/QueryProvider.tsx:19-25 | the number of retries from any count: 0 for 401/403, else 3 minus the failures so far |
| QueryProvider.RetriesFromFirstFailure | front-end/src/providers/QueryProvider.tsx:19-25 | at most three retries; three without a status; none for 401/403 |
| QueryProvider.Timings | front-end/src/providers/QueryProvider.tsx:17-18 | staleTime 300000 and gcTime 600000, stale before collected |
| AuthContext.Succeeded | front-end/src/contexts/AuthContext.tsx:35-53 | true iff the mutation resolves |
| AuthContext.LogoutOutcome | front-end/src/contexts/AuthContext.tsx:55-61 | logout always resolves |
| AuthContext.ExposedUser | front-end/src/contexts/AuthContext.tsx:64 | null while the data is undefined, else the fetched user or null |
| AuthContext.UseAuthGuard | front-end/src/contexts/AuthContext.tsx:17-23 | fails with "useAuth must be used within an AuthProvider" iff there is no provider |
| AuthContext.LoginTrueIffEnvelopeSuccess | front-end/src/contexts/AuthContext.tsx:35-53 | login and register give true iff the envelope reports success, whatever the status |
| AuthContext.ExposedUserFromQuery | front-end/src/contexts/AuthContext.tsx:64 | the exposed user is the one the user query read, none after a non-ok response |
| ApiClient.BaseUrl | front-end/src/lib/api.ts:1 | the configured URL when it is truthy, else "http://localhost:3001" |
| ApiClient.ComposeRules | front-end/src/lib/api.ts:79-89 | URL is base + endpoint; JSON content type unless overridden; caller headers kept; Bearer iff the token is truthy, replacing the caller's |
| ApiClient.Outcome | front-end/src/lib/api.ts:125-147 | resolves with the unchanged envelope iff ok and JSON; non-ok fails with data.error or "HTTP error! status: N" |
| ApiClient.ServerErrorMessage | front-end/src/lib/api.ts:131-141 | a 500 without an error text fails with "HTTP error! status: 500" |
| ApiClient.EndpointTable | front-end/src/lib/api.ts:162-220 | every method targets /api/v1/...; the writes are POST, the reads GET; only login, register and checkout send a body |
| ApiClient.DataOrEmpty | front-end/src/lib/api.ts:230-255 | the data of a successful envelope, else [] |
| ApiClient.DataOrNull | front-end/src/lib/api.ts:258-269 | the data of a successful envelope, and null for an unsuccessful one or any failure |
| ApiClient.HelpersNeverFail | front-end/src/lib/api.ts:230-269 | any failure of the request ends in [] or null |
| ApiClient.Client.constructor | front-end/src/lib/api.ts:66-69 | a client starts with its base URL and no token |
| ApiClient.Client.SetToken | front-end/src/lib/api.ts:71-73 | replaces the stored token and nothing else |
| ApiClient.Client.Request | front-end/src/lib/api.ts:75-159 | the request sent is the composed one, and the result is the outcome of the network's reply to it |
| ApiClient.Client.Invoke | front-end/src/lib/api.ts:162-220 | an endpoint method sends its own endpoint and options |
| ApiClient.Client.FetchProducts | front-end/src/lib/api.ts:230-241 | GET /api/v1/products, its data on success and [] otherwise |
| ApiClient.Client.FetchBlogPosts | front-end/src/lib/api.ts:244-255 | GET /api/v1/blog, its data on success and [] otherwise |
| ApiClient.Client.FetchBlogPost | front-end/src/lib/api.ts:258-269 | GET /api/v1/blog/slug, its data on success and null otherwise |
| Directus.DirectusUrl | api-gateway/src/config/directus.ts:41 | the configured server URL when it is truthy, else "http://localhost:8055" |
| Directus.ChooseMethod | api-gateway/src/config/directus.ts:53-65 | a truthy token wins; email and password only without one and only both set; otherwise nothing configured |
| Directus.AuthResult | api-gateway/src/config/directus.ts:47-70 | succeeds iff a method is configured and the SDK call succeeds; every failure says "Directus authentication failed" |
| Directus.FirstOrNull | api-gateway/src/config/directus.ts:151 | the first match, null iff there is none |
| Directus.DirectusService.constructor | api-gateway/src/config/directus.ts:36-45 | the service starts unauthenticated |
| Directus.DirectusService.Authenticate | api-gateway/src/config/directus.ts:47-70 | the flag is set on success and otherwise unchanged; one SDK call for the chosen method |
| Directus.DirectusService.EnsureAuthenticated | api-gateway/src/config/directus.ts:72-76 | authenticates only while the flag is false |
| Directus.DirectusService.GetProducts | api-gateway/src/config/directus.ts:117-133 | authenticates first and reads only when that succeeds; any failure gives "Failed to fetch products from Directus" |
| Directus.DirectusService.GetProductById | api-gateway/src/config/directus.ts:135-156 | the same, giving the first match or null; failure gives "Failed to fetch product from Directus" |
| Directus.UntilFirstSuccess | api-gateway/src/config/directus.ts:72-76 | the attempts up to the first success never exceed the attempts |
| Directus.AuthenticateOnce | api-gateway/src/config/directus.ts:72-76 | once authenticated no further SDK call and the flag stays; from unauthenticated one call per request up to the first success; the flag ends true iff some attempt succeeded |
| Directus.Renamed | api-gateway/src/config/directus.ts:78-178 | the user-facing calls `LoginUser`, `RegisterUser` and `GetUserInfo` succeed iff the SDK does and then return its response unchanged, otherwise fail with their fixed message |
| SessionCookies.Options | front-end/src/app/api/auth/login/route.ts:24-30 | httpOnly, sameSite "lax", path "/", the given maxAge, secure iff NODE_ENV is "production" |
| SessionCookies.ResponseCookies.Set | front-end/src/app/api/auth/login/route.ts:24 | appends exactly the cookie set |
| SignInRelay.Post | front-end/src/app/api/auth/login/route.ts:5-43 | the gateway call, the reply and the cookies the route writes |
| SignInRelay.CookieIffSuccess | front-end/src/app/api/auth/login/route.ts:19-32 | one auth-token cookie with the access token for 86400 s iff the envelope reports success with data, and the envelope is relayed |
| SignInRelay.FailureRelayed | front-end/src/app/api/auth/login/route.ts:35 | an unsuccessful envelope is relayed with the gateway's status and no cookie |
| SignInRelay.ThrownIsServerError | front-end/src/app/api/auth/login/route.ts:36-42 | anything thrown gives 500 with the fixed message and no cookie |
| LoginRoute.Post | front-end/src/app/api/auth/login/route.ts:5-43 | the relay to /api/v1/auth/login with "Login failed" |
| LoginRoute.ForwardsBody | front-end/src/app/api/auth/login/route.ts:7-15 | the body goes unchanged as a JSON POST to /api/v1/auth/login |
| RegisterRoute.Post | front-end/src/app/api/auth/register/route.ts:5-43 | the relay to /api/v1/auth/register with "Registration failed" |
| RegisterRoute.ForwardsBody | front-end/src/app/api/auth/register/route.ts:7-15 | the body goes unchanged as a JSON POST to /api/v1/auth/register |
| LogoutRoute.Post | front-end/src/app/api/auth/logout/route.ts:5-40 | the gateway call, the reply and the cookies the route writes |
| LogoutRoute.LogoutRules | front-end/src/app/api/auth/logout/route.ts:7-39 | the gateway is called iff a token is present, with it as bearer; unless the call fails the reply is success and the cookie is expired with an empty value; a failed call gives 500 and no cookie |
| MeRoute.Get | front-end/src/app/api/auth/me/route.ts:7-31 | 401 "No authentication token" without a token; the gateway's reply unchanged; 500 "Authentication check failed" when the call fails |
| MeRoute.CallRules | front-end/src/app/api/auth/me/route.ts:7-21 | the gateway is called iff there is a token, as GET /api/v1/auth/me with it as bearer |
| Session.LoginThenLogout | front-end/src/app/api/auth/login/route.ts:21-30 | after login the browser holds the token and /me sends it as bearer; after logout there is no token and /me answers 401 |
| Session.FailedLoginKeepsSession | front-end/src/app/api/auth/login/route.ts:35-42 | a login that issues no token leaves the browser's cookies as they were |
| SearchParams.FromToString | front-end/src/components/Pagination.tsx:23 | parsing a serialised parameter list gives it back |
| SearchParams.SetGet | front-end/src/components/Pagination.tsx:24 | after `set`, `get` finds the new value |
| SearchParams.SetKeepsOthers | front-end/src/components/Pagination.tsx:24 | `set` keeps every entry of another name, in order |
| SearchParams.AppendWhen | front-end/src/hooks/useProducts.ts:29 | a conditional `append` adds the pair exactly when its condition holds |
| SearchParams.SetWhen | front-end/src/components/ProductFilters.tsx:31-34 | a conditional `set` of a name not yet present appends the pair exactly when its condition holds |
| ProductFilters.FilterSteps | front-end/src/components/ProductFilters.tsx:31-34 | before each conditional `set` its name is not yet in the parameters, and the four steps give the written list |
| FormUrlEncoded.ParseSerialize | front-end/src/components/Pagination.tsx:23 | the form-urlencoded parser inverts the serialiser |
| FormUrlEncoded.DecodeEncodeComponent | front-end/src/components/Pagination.tsx:23 | percent-decoding inverts the encoding of every string |
| JsString.SplitJoin | front-end/src/components/BlogPostContent.tsx:11 | `split` loses nothing: joining the pieces gives the string back |
| JsString.SplitPiecesAvoidSep | front-end/src/components/BlogPostContent.tsx:11 | no piece of `split` contains the separator |
| JsString.SplitCharCount | front-end/src/components/BlogPostCard.tsx:18 | splitting on one character gives one piece more than its occurrences |
| JsString.IndexOf | front-end/src/components/BlogPostContent.tsx:17 | the first occurrence, or none when the pattern never occurs |
| JsString.ReplacePrefix | front-end/src/components/BlogPostContent.tsx:17 | replacing a leading pattern with "" removes exactly that prefix |
| JsString.TrimEmptyIffBlank | front-end/src/components/BlogPostContent.tsx:54 | `trim()` is empty iff the string is all white space |
| JsString.NatToStringInjective | front-end/src/components/Pagination.tsx:24 | different page numbers give different decimal strings |

## Left out

- Transport: `fetch`, JSON parsing and serialisation, `console` logging and the `enableLogging` switch are not modelled. A network reply is a parameter: rejected, or a status with a JSON body or none.
- The Directus SDK (`createDirectus`, `readItems`, `readMe`, `createItem`, `login`, `setToken`) is foreign code. Whether a call succeeds and what a read returns are parameters.
- TanStack Query's own behaviour: de-duplication, staleness timing, garbage collection, refetching and the prefix matching of `invalidateQueries`/`removeQueries`. The model records the operations requested. `QueryCache.Extends` states which keys a prefix covers.
- Retry counting: the library is taken to pass the number of failures so far, starting from 0.
- Date formatting with `toLocaleDateString` depends on locale and time zone, and the price display is floating point. Both are left out.
- Router navigation (`router.push`) and `window.scrollTo` are left out, as is React rendering beyond the texts and flags listed above. The model keeps the URL strings and the state changes.
- The product image: the card always renders the placeholder. No image rule is modelled.
- Next.js turns a repeated query parameter into an array. Only queries with one value per name are modelled.
- The login and register routes forward the parsed body. Re-serialising it with `JSON.stringify` is not modelled.
- RFC 6265 cookie storage is reduced to name, value and Max-Age (section 5.3 of RFC 6265, where a Max-Age of zero or less deletes the cookie). Domain, path matching and expiry by time are not modelled.
- The proxy route under `app/api/blog`, the layout-only components and the gateway's type declarations hold no rules of their own. Only their data types are used.
- BlogPostMeta.ReadTime: its own contract states only the one-minute floor. The exact formula is tied to the card's by `BlogPostMeta.SameAsCard`.
- BlogPostCard.Excerpt: lengths count Unicode code points, while `substring(0, 150)` counts UTF-16 code units. Text outside the Basic Multilingual Plane is therefore cut later than in the browser, and a surrogate pair is never split.
- BlogPostCard.ShortPostCard: "at most 150" counts code points for the same reason. A short post with characters outside the Basic Multilingual Plane can exceed 150 UTF-16 code units, and the browser then cuts it.
- Directus.DirectusService.EnsureAuthenticated: calls are modelled one after another, with no interleaving at `await`. Two overlapping requests can both see the flag unset and both log in.
- Directus.AuthenticateOnce: "no SDK call after the first success" holds for a run of calls that do not overlap, for the same reason.
- QueryProvider.ShouldRetry: takes the error's status as an argument. No query function of the application attaches one, so the caller always passes None.
