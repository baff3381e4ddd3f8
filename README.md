# Facette browse, search and stats — a Dafny model

This project models three pieces of logic from the HTTP layer of Facette's
monitoring front end (`pkg/server`), without the HTTP, template and logging
plumbing:

- **Browse routing and collection view** (`serveBrowse`, `serveBrowseCollection`).
  A request with a method other than GET or HEAD is refused with 405, and `/`
  is redirected to the browse path. Then, in order: the `collections/` prefix
  selects the collection view, the exact `search` path the search view, and
  the exact browse path the index view. Any other path is "not exist".
  A not-exist error becomes a 404 page and any other error a 500 page. The
  collection view trims the prefix to get the collection ID and looks it up
  in the library. A failed lookup propagates unchanged. It asks the library
  to filter the collection only when `q` is non-empty, and computes the
  parent marker: the parent's ID, or `"null"` for a root collection.
- **Token search** (`serveBrowseSearch`). The query is lower-cased, split at
  every single space, and each piece is trimmed of spaces and tabs; empty
  pieces are kept. Every source of every origin, and every library
  collection, is kept iff its lower-cased name contains every token. `Count`
  is the number of results of both kinds.
- **Cardinality stats** (`getStats`, `serveStats`). Distinct source keys
  and distinct metric keys are counted across all origins. The origin, graph,
  collection and group counts are plain container sizes. Only GET and HEAD
  compute the report.

Modules, one per concern:

- `go_strings.dfy`, module `GoStrings`: the subset of Go's `strings` package
  the handlers call. It covers ToLower (ASCII only), Index, HasPrefix,
  TrimPrefix, Split, Join and Trim, each specified by what it means.
- `entities.dfy`, module `Entities`: the catalog and the library as values
  (maps keyed like the Go maps), the error kinds, and the library's
  collection lookup.
- `browse.dfy`, module `Browse`: routing, error classification and the
  collection view, as functions (the source is if/else decisions).
- `search.dfy`, module `Search`: the tokenizer and the search as methods with
  loops. They are proved against the specification functions `Tokens`,
  `Matches`, `SourceHits` and `CollectionHits`.
- `stats.dfy`, module `Stats`: the stats walk as methods with loops. They are
  proved against the distinct-key sets `AllSourceKeys` and `AllMetricKeys`.

Go's map iteration order is unspecified. Every loop over a map therefore
picks its next key with `:|` from the keys not yet visited. Search results are
specified by membership, absence of repeats and size, not by order. The
nested loops of `serveBrowseSearch` and `getStats` are split into one method
per loop level (`SearchSources`/`MatchName`, `GetStats`/`WalkSources`/`AddEach`).
Each loop keeps its own invariant.

Three behaviours of the code are worth stating because a reader might expect
otherwise:

- The token list is never empty: splitting always gives at least one piece.
  A loop over zero tokens would keep every entity, and `Matches` does the
  same.
- The non-empty guard tests the raw `q`, not the trimmed query. So `q = " "`
  passes the guard and gives two empty tokens. An empty token occurs in every
  name, so such a query returns the whole of both corpora
  (`BlankQueryMatchesEverything`).
- Results come out in Go's map iteration order, which is unspecified, not in
  any stored order.

## Model

| member | source | states |
|---|---|---|
| `Browse.Route` | pkg/server/browse.go:18-47 | Non-GET/HEAD gives NotAllowed whatever the path. For GET/HEAD, `/` redirects. A path with the collections prefix goes to the collection view of exactly the ID after the prefix. The exact search path goes to search, the exact browse path to index, and everything else is not-exist. Each case is an if-and-only-if. |
| `Browse.FixedPathsOutsideCollections` | pkg/server/browse.go:39-47 | None of `/`, the search path and the index path starts with the collections prefix. The search and index paths differ from each other and from `/`. So the order of the tests does not change which view a path selects. |
| `Browse.RouteCollection` | pkg/server/browse.go:39-40 | Every collections-prefix path routes to the collection view of the ID that follows the prefix. |
| `Browse.ErrorStatus` | pkg/server/browse.go:49-54 | A not-exist error maps to 404 and any other error to 500 (both directions). |
| `Browse.Finish` | pkg/server/browse.go:49-54 | No error means the view is rendered, in both directions. An error gives an error page whose status is the error's classification. |
| `Browse.CollectionId` | pkg/server/browse.go:102 | For a path with the collections prefix, prefix + ID is the path. |
| `Browse.CollectionIdRoundTrip` | pkg/server/browse.go:102 | Trimming the prefix from prefix + id gives id back. |
| `Browse.ParentMarker` | pkg/server/browse.go:115-119 | The marker is the parent's ID when there is a parent, and `"null"` otherwise. |
| `Browse.ParentMarkerRoundTrip` | pkg/server/browse.go:115-119 | Reading the marker back gives the parent, unless the parent's ID is itself `"null"`. The marker is empty only when the parent's ID is empty. |
| `Browse.BrowseCollection` | pkg/server/browse.go:99-119 | It fails exactly when the trimmed ID is not in the library, and then with not-exist. Otherwise the shown collection is the stored one when `q` is empty and the library's filtering of it when `q` is not. The marker is that of the shown collection. |
| `Browse.ServeBrowse` | pkg/server/browse.go:15-55 | A wrong method gives 405 before anything else. `/` redirects to prefix + browse path. Unknown paths and failed collection lookups give 404, and so does a not-exist template error. Any other template error on a dispatched view gives 500. A rendered response renders the routed view, and only when no error occurred. Conversely, a dispatched view whose collection lookup (if any) succeeds and whose template work has no error is rendered. |
| `Browse.HandlerError` | pkg/server/browse.go:39-47 | The collection view fails with not-exist exactly when its ID is missing from the library, before any template work. Every other dispatched view, and a collection view whose ID is present, fails exactly as its template work does. |
| `Entities.GetCollection` | pkg/server/browse.go:104-107 | The lookup succeeds iff the ID is a key of the library's collections, and then gives the stored collection. Otherwise it fails with not-exist. |
| `GoStrings.Lower` | pkg/server/browse.go:157 | The result has the input's length. Each character is lower-cased on its own: ASCII upper-case letters become lower-case and every other character is kept. No upper-case ASCII letter remains. |
| `GoStrings.Split` | pkg/server/browse.go:157 | It gives one more piece than the string has separators, and no piece contains the separator. |
| `GoStrings.JoinSplit` | pkg/server/browse.go:157 | Joining the pieces with the separator gives the string back. |
| `GoStrings.SplitJoin` | pkg/server/browse.go:157 | Splitting separator-free pieces joined by the separator gives the pieces back. |
| `GoStrings.Trim` | pkg/server/browse.go:158 | The result neither starts nor ends with a cut character. |
| `GoStrings.TrimRemovesOnlyCut` | pkg/server/browse.go:158 | The result is a piece of the input, and everything removed before and after it is a cut character. |
| `GoStrings.Index` | pkg/server/browse.go:164 | It gives -1 iff the token occurs nowhere. Otherwise it gives a position where the token occurs, and no earlier position holds it. |
| `GoStrings.IndexOfEmpty` | pkg/server/browse.go:164 | The empty token is found at position 0 of every string. |
| `Search.Tokenize` | pkg/server/browse.go:155-159 | The loop builds exactly `Tokens(q)`: one trimmed piece of the lower-cased query per space-separated piece. |
| `Search.TokensShape` | pkg/server/browse.go:155-159 | There is one more token than `q` has spaces, so empty pieces are kept. Every token is lower-case, holds no space and has no space or tab at either end. |
| `Search.TokensIdempotent` | pkg/server/browse.go:155-159 | Tokenizing the tokens joined by single spaces gives the same tokens. |
| `Search.BlankQueryTokens` | pkg/server/browse.go:154-159 | The query `" "`, which passes the non-empty guard, gives two empty tokens. |
| `Search.MatchName` | pkg/server/browse.go:163-167 | The token loop with its early exit returns true iff the lower-cased name contains every token. |
| `Search.MatchesIgnoresCase` | pkg/server/browse.go:164 | Names that lower-case alike match the same tokens. |
| `Search.EmptyTokensMatchEverything` | pkg/server/browse.go:163-167 | Tokens that are all empty match every name. |
| `Search.BlankQueryMatchesEverything` | pkg/server/browse.go:154-167 | Every name matches the tokens of `" "`. |
| `Search.CpuLoadExample` | pkg/server/browse.go:155-167 | `"cpu load"` tokenizes to `["cpu", "load"]`. It matches `"CPU Load Avg"` and does not match `"Memory"`. |
| `Search.SearchSources` | pkg/server/browse.go:161-172 | The result holds a source slot (origin, key) iff that source's name matches. No slot appears twice. The size equals the number of matching slots. |
| `Search.SearchCollections` | pkg/server/browse.go:174-183 | The result holds a collection iff its name matches, none twice. The size equals the number of matching collections. |
| `Search.SearchAll` | pkg/server/browse.go:153-186 | An empty `q` gives no sources, no collections and count 0. Otherwise both lists are exactly the matches of `Tokens(q)`. The count is always the sum of the two lengths, which equals the number of matching slots plus matching collections. |
| `Search.SameKeyTwoOrigins` | pkg/server/browse.go:161-172 | A matching source key under two origins is two distinct results, so origins are not merged. |
| `Stats.AddEach` | pkg/server/handler.go:145-147 | Adding the keys one at a time gives the old set united with all keys. |
| `Stats.WalkSources` | pkg/server/handler.go:142-148 | One origin's walk adds exactly its source keys to the source set, and exactly its sources' metric keys to the metric set. |
| `Stats.GetStats` | pkg/server/handler.go:137-158 | Origins, graphs, collections and groups are the container sizes. Sources is the number of distinct source keys over all origins. Metrics is the number of distinct metric keys over all sources of all origins. |
| `Stats.ServeStats` | pkg/server/handler.go:99-106 | A non-GET/HEAD request gets 405 and no report, in both directions. A GET/HEAD request gets 200 and the report of `GetStats`. |
| `Stats.StatsBounds` | pkg/server/handler.go:138-154 | Distinct source keys are at most the source entries walked. Distinct metric keys are at most the metric entries walked. With no origins, both are 0. |
| `Stats.KnownSourcesAddNothing` | pkg/server/handler.go:141-143 | Adding an origin whose source keys are all known leaves the distinct source keys unchanged, so a key under several origins counts once. |
| `Stats.TwoOriginsExample` | pkg/server/handler.go:141-154 | Two origins each hold `sourceA`, with metrics {m1, m2} and {m2, m3}. That gives 1 distinct source and 3 distinct metrics. |

## Left out

- Template construction, parsing and execution, `setHTTPCacheHeaders`, and the mechanics of `http.Redirect`. The outcome of a view's template work is the `renderErr` parameter of `Browse.ServeBrowse`.
- `serveBrowseIndex`: everything it does is template work, so its only effect in the model is `renderErr`.
- `serveError`, `serveWait`, `serveStatic`, `serveReload` and the JSON marshalling of `serveResponse`. These are file serving, MIME lookup, an external reload and encoding. `logger.Log` is left out too.
- `urlBrowsePath` is defined in a file that is not part of this model. Its value `"/browse/"` comes from the documented request surface (`GET /browse/`, `/browse/collections/{id}`, `/browse/search`).
- `Stats.ServeStats`: the text of the 405 body (`mesgMethodNotAllowed`) is defined in a file that is not part of this model. Only the refusal and its status are modelled.
- The thread safety of the `fatih/set` sets and all concurrency. The sets are plain Dafny sets, and the catalog and library are immutable values during a call.
- Unicode case folding: `GoStrings.Lower` lower-cases ASCII letters only and keeps every other character.
- The internals of `Library.FilterCollection`, which belong to another package. It is the `filter` parameter of `Browse.BrowseCollection`. `Library.GetItem` is a map lookup that gives the collection or not-exist. Its other item kinds are not modelled.
- Pointer identity: a `*catalog.Source` in the search results is identified by its (origin, key) slot, and a `*library.Collection` by its library key. Distinct slots stand for distinct pointers.
- The order of search results, which follows Go's unspecified map order. `Search.SearchAll` states membership, absence of repeats and counts only.
- `Browse.ServeBrowse`: the `Error` kind `NotExist` stands for every error that `os.IsNotExist` recognises. That includes a missing template file, which therefore also gives 404.
