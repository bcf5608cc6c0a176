# Vuetalisk Nuxt data layer, modelled in Dafny

This project models the client-side data layer of the Vuetalisk Nuxt demo blog. It has two parts.

**The store** (`nuxt/store/vuetal.js`) is a keyed cache. It holds pages by url, data entries by url, page lists by name, list names by list url, and a `pageMap` from a page url to its list and index. It also keeps a current page and a current list. Its parts:

- getters: `page`, `data`, `current`, `currentList`, `next`, `previous`;
- mutations that add, overwrite and remove entries;
- `sortPages`, which orders the distinguished list `pages` by directory, then `order` (1000 when missing), then basename;
- actions that answer from the cache and fetch only on a miss.

**The API client** (`nuxt/api/vuetal.js`) assembles the base url from optional protocol, host and port. It rewrites a route path into an API request url: a page gets `/api/page` in front (the root page `/` is asked for as `/api/page/index`), data gets `/api`, any other type nothing; trailing slashes are stripped, the path is `encodeURI`d, runs of slashes are collapsed and `.json` is appended. It wraps the HTTP outcome in an envelope. `toHtml` renders page content, passing Markdown through a renderer.

Files:

- `outcomes.dfy`: `Option` and `Result`.
- `resources.dfy`: the cached entities (`Page`, `DataEntry`, `PageList`, `Loc`), the response body `Body` (one variant per resource `type`, plus any other object and `undefined`), the sentinel `EmptyItem`, and JavaScript truthiness of an optional string.
- `page_sort.dfy`: `sortPages`, its key and comparator, lexicographic string order, and the proofs that the sort is an ordered, stable permutation.
- `api_client.dfy`: base url, request url, `encodeURI`, the envelope, `toHtml`.
- `store.dfy`: the state snapshot `StoreState`, the getters as functions of it, the mutations as transitions of it, and the class `Store`. The class holds the state in map fields. Its methods are the mutations (`ADD_OR_UPDATE_LIST` keeps its loop over the list) and the actions.

How the outside world appears in the model:

- The HTTP call is a parameter `server: string -> HttpOutcome`. It maps the request url to a response or a rejection that may carry a status.
- The Markdown renderer is a parameter `marked`.
- The site configuration and the environment are parameters: the build and environment endpoints of `Resolve`, and the `apiBase` and `collections` of a `Store`.
- The ghost field `Store.requests` logs every url requested, so "no request on a hit" is a postcondition.
- A JavaScript exception is a `Failure`. This covers the `TypeError`s the code can raise and the rethrow of `ERROR`.

The model follows the code where it falls short of what a reader would expect of a cache like this:

- One might expect `currentPage`/`currentList` to always name a cached entry or be null. The code does not keep that:
  - `REMOVE_PAGE` and `REMOVE_LIST` do not clear the current page or list (`RemovePageLeavesCurrentDangling`, `RemoveListStrandsCurrentPage`).
  - `USE_COLLECTION_AS_CURRENT` of a collection with no cached list sets `currentList` to its name anyway (`UncachedCurrentListUndefined`).
  - `current` and `currentList` then read `undefined`, modelled as `None` and `ShownUndefined`. `next`/`previous` on a page whose list was removed throw.
- One might expect every list to be kept in sort order. The code sorts only the list named `pages` (`Prepared`, `FetchedPagesListSorted`).
- One might expect a page fetched once to be answered from the cache from then on. FETCH_API caches a page under the `url` the server puts in the page, while USE_PAGE looks up the url it was asked for. When the two differ, every USE_PAGE of that url requests it again (`FetchCachesServedUrl`, `Store.UsePage`).

## Model

| member | source | states |
|---|---|---|
| PageSort.SplitUrl | nuxt/store/vuetal.js:12-13 | the basename has no '/'; directory + "/" + basename rebuilds a url containing '/'; a url without '/' has directory "" and is its own basename |
| PageSort.StrLeRefl | nuxt/store/vuetal.js:16 | the string order used in place of `localeCompare` is reflexive |
| PageSort.StrLeTotal | nuxt/store/vuetal.js:16 | the string order is total |
| PageSort.StrLeAntisymmetric | nuxt/store/vuetal.js:16 | the string order is antisymmetric |
| PageSort.StrLeTransitive | nuxt/store/vuetal.js:16 | the string order is transitive |
| PageSort.KeyLeRefl | nuxt/store/vuetal.js:16 | the comparator (directory, then order, then basename) is reflexive |
| PageSort.KeyLeTotal | nuxt/store/vuetal.js:16 | the comparator is total |
| PageSort.KeyLeTransitive | nuxt/store/vuetal.js:16 | the comparator is transitive |
| PageSort.Insert | nuxt/store/vuetal.js:16 | inserting a page adds exactly that page to the multiset |
| PageSort.SortPages | nuxt/store/vuetal.js:10-18 | `sortPages` returns a permutation of its input: same length, same multiset of pages |
| PageSort.SortPagesOrdered | nuxt/store/vuetal.js:12-16 | the output is non-decreasing under the key; a missing `order` counts as 1000 |
| PageSort.SortPagesStable | nuxt/store/vuetal.js:16 | pages with equal keys keep their input order |
| PageSort.SortPagesOfOrdered | nuxt/store/vuetal.js:10-18 | a list already in key order is returned unchanged |
| PageSort.SortPagesIdempotent | nuxt/store/vuetal.js:10-18 | sorting twice equals sorting once |
| ApiClient.Resolve | nuxt/api/vuetal.js:5-8 | each build setting is taken when truthy, and the environment's value when it is not; a setting is truthy iff either source's is |
| ApiClient.BaseUrl | nuxt/api/vuetal.js:9-13 | `""` iff nothing is set; starts with `protocol:` when a protocol is set; `//host` follows right after it (or starts the url) when a host is set; ends with `:port` when a port is set, else with `//host`; its length is exactly that of the parts that are set |
| ApiClient.StripTrailingSlashes | nuxt/api/vuetal.js:40 | the result is a prefix of the input, does not end in '/', and only slashes were removed |
| ApiClient.CollapseSlashes | nuxt/api/vuetal.js:44 | collapsing keeps the first and last character |
| ApiClient.CollapseDoubleSlash | nuxt/api/vuetal.js:44 | a "//" anywhere collapses like a single '/', so with CollapseKeepsClean every run of slashes becomes exactly one |
| ApiClient.CollapseLeavesNoDoubleSlash | nuxt/api/vuetal.js:44 | after collapsing there is no "//" |
| ApiClient.CollapseAppend | nuxt/api/vuetal.js:44 | appending slash-free text such as ".json" commutes with collapsing |
| ApiClient.CollapseOnlyRemovesSlashes | nuxt/api/vuetal.js:44 | collapsing only removes slashes: the non-slash characters are unchanged |
| ApiClient.CollapseKeepsClean | nuxt/api/vuetal.js:44 | a string with no "//" is unchanged by collapsing |
| ApiClient.PercentEncode | nuxt/api/vuetal.js:41 | a code point becomes three characters per UTF-8 byte, starting with '%', none of them '/' |
| ApiClient.EncodeChar | nuxt/api/vuetal.js:41 | characters `encodeURI` leaves alone are kept as they are; all output is '%' or such a character; the output starts or ends with '/' iff the character is '/' |
| ApiClient.EncodeUri | nuxt/api/vuetal.js:41 | `encodeURI` output holds only '%' and characters `encodeURI` leaves alone, and is empty iff its input is |
| ApiClient.EncodeUriEnds | nuxt/api/vuetal.js:41 | encoding keeps a leading or trailing '/' and adds neither |
| ApiClient.EncodeUriKeepsUnescaped | nuxt/api/vuetal.js:41 | a string of characters `encodeURI` leaves alone is unchanged by encoding |
| ApiClient.RewriteShape | nuxt/api/vuetal.js:31-39 | a page path gets `/api/page` in front and data `/api`, any other type is left alone; the result is exactly the prefix followed by the route path (its length is the prefix's plus the path's), except that the root page becomes `/api/page/index` |
| ApiClient.ApiPath | nuxt/api/vuetal.js:30-44 | what is appended to the base starts with '/', ends with ".json" and contains no "//" |
| ApiClient.RequestUrlShape | nuxt/api/vuetal.js:43-44 | the request url is the base url followed by a path that starts with '/', ends with ".json" and has no "//" |
| ApiClient.PageRequest | nuxt/api/vuetal.js:32-35 | a clean path p requested as a page goes to base + "/api/page" + p + ".json" |
| ApiClient.RootPageRequest | nuxt/api/vuetal.js:33-34 | "/" requested as a page goes to base + "/api/page/index.json" |
| ApiClient.DataRequest | nuxt/api/vuetal.js:36-38 | a clean path p requested as data goes to base + "/api" + p + ".json" |
| ApiClient.OtherRequest | nuxt/api/vuetal.js:31-39 | with any other type, a clean path p goes to base + p + ".json" |
| ApiClient.TrailingSlashIgnored | nuxt/api/vuetal.js:40 | a trailing '/' on the route path does not change the request url |
| ApiClient.Envelope | nuxt/api/vuetal.js:48-55 | a rejection with a status gives `{res: undefined, data: {}, status, error}`; a success passes data and status through with `error` false; a rejection without a status throws, and only then |
| ApiClient.FetchApi | nuxt/api/vuetal.js:28-56 | the request goes to the rewritten url; the call throws iff it is rejected without a status; a rejection with a status gives `{}`, that status and the error; a success passes the served body and status through |
| ApiClient.IsMarkdownExt | nuxt/api/vuetal.js:79 | an extension is Markdown iff, in ASCII lower case, it is "md", "markdown", ".md" or ".markdown" |
| ApiClient.ToHtml | nuxt/api/vuetal.js:64-85 | `''` for a falsy argument or missing content; `marked(data)` under a Markdown extension; the content unchanged under any other or no extension |
| ApiClient.ExplicitExtWins | nuxt/api/vuetal.js:72 | a truthy `ext` argument decides the output whatever extension the page object carries |
| ApiClient.ToHtmlIdempotent | nuxt/api/vuetal.js:83-84 | under a non-Markdown extension, rendering the output again changes nothing |
| VuetalStore.PageOf | nuxt/store/vuetal.js:40 | `page(url)` is the cached page, or `emptyItem` when none is cached |
| VuetalStore.DataOf | nuxt/store/vuetal.js:38 | `data(url)` is the cached entry's payload, or `{}` when there is no entry or payload |
| VuetalStore.PageOfAddPage | nuxt/store/vuetal.js:61-63 | after ADD_OR_UPDATE_PAGE, `page(url)` is the new page at its url and unchanged at every other url |
| VuetalStore.PageOfDropPage | nuxt/store/vuetal.js:72-75 | after REMOVE_PAGE, `page(url)` is `emptyItem` at the removed url and unchanged elsewhere |
| VuetalStore.DataOfAddData | nuxt/store/vuetal.js:58-60 | after ADD_OR_UPDATE_DATA, `data(url)` is the new payload (or `{}` without one) at its url and unchanged elsewhere |
| VuetalStore.GettersIgnoreAddList | nuxt/store/vuetal.js:64-71 | adding a list changes neither `page(url)` nor `data(url)` |
| VuetalStore.Current | nuxt/store/vuetal.js:44 | `emptyItem` when no page is current; otherwise the cached page under the current url, which is undefined iff that page is not cached |
| VuetalStore.CurrentList | nuxt/store/vuetal.js:43 | `emptyItem` when no list is current; otherwise the cached list of that name, which is undefined iff it is not cached |
| VuetalStore.Next | nuxt/store/vuetal.js:45-49 | throws iff `pageMap` sends the current page to a list that is not cached; the page one place on when that index is in range; `emptyItem` otherwise, including when the current page has no `pageMap` entry |
| VuetalStore.Previous | nuxt/store/vuetal.js:50-54 | as `next`, one place back |
| VuetalStore.ListIndexKeys | nuxt/store/vuetal.js:67-70 | the loop writes a `pageMap` entry for exactly the urls of the list |
| VuetalStore.ListIndexLast | nuxt/store/vuetal.js:67-70 | each url's entry holds the last index at which the url occurs |
| VuetalStore.ListIndexNames | nuxt/store/vuetal.js:69 | each entry holds the list's name |
| VuetalStore.AddListIndexesPages | nuxt/store/vuetal.js:64-71 | `lists[name]` is the list and `listsByUrl[url]` its name; each url of the list maps to (name, last index of the url); other `pageMap` entries, the other maps and the current page and list are unchanged |
| VuetalStore.AddListIndexes | nuxt/store/vuetal.js:64-71 | after adding a list with distinct urls, `pageMap` sends its i-th page to (name, i) |
| VuetalStore.CommitKeepsIndexes | nuxt/store/vuetal.js:96-102 | caching a page or a data entry keeps every list indexed |
| VuetalStore.NeighboursInIndexedList | nuxt/store/vuetal.js:45-54 | in an indexed list, `next`/`previous` of its i-th page are items i+1 and i-1, or `emptyItem` past either end |
| VuetalStore.NeighboursAfterAddList | nuxt/store/vuetal.js:45-71 | after adding a list with distinct urls and making its i-th page current, `next`/`previous` are items i+1 and i-1 or `emptyItem` |
| VuetalStore.NextThenPrevious | nuxt/store/vuetal.js:45-54 | in an indexed list, moving to `next` and then taking `previous` gives back the starting page |
| VuetalStore.CommitKeepsKeyed | nuxt/store/vuetal.js:58-71 | adding a page, an entry or a list keeps pages and entries under their own url and lists under their own name |
| VuetalStore.RemoveKeepsKeyed | nuxt/store/vuetal.js:72-80 | removals keep that invariant |
| VuetalStore.Prepared | nuxt/store/vuetal.js:103-106 | a list named `pages` keeps its name, url and pages and is put in key order; every other body is committed as served |
| VuetalStore.CommitCaches | nuxt/store/vuetal.js:96-109 | a page body is cached under its own url, a data body under its url, a list under its name; nothing else gains an entry and every other entry of `pages`, `data`, `lists` and `listsByUrl` keeps its value, the maps a body does not address are unchanged, `listsByUrl` and `pageMap` change only for a list, the current page and list never change, and any other body changes nothing |
| VuetalStore.FetchCachesServedUrl | nuxt/store/vuetal.js:93-116 | FETCH_API throws, with the state unchanged, iff `fetchApi` threw or the body is undefined; an uncached url is cached afterwards iff the body is a page whose own `url` is that url |
| VuetalStore.HasContent | nuxt/store/vuetal.js:141 | a page, data entry or list always counts as content, `undefined` never, and any other object iff it has a key |
| VuetalStore.FetchedPagesListSorted | nuxt/store/vuetal.js:103-107 | a fetched list named `pages` is stored in key order and holds the pages it was served with |
| VuetalStore.RemovePageLeavesCurrentDangling | nuxt/store/vuetal.js:72-75 | removing the current page leaves `current` undefined, and `next`/`previous` give `emptyItem` |
| VuetalStore.UncachedCurrentListUndefined | nuxt/store/vuetal.js:43 | a current list name with no cached list reads as undefined |
| VuetalStore.RemoveListStrandsCurrentPage | nuxt/store/vuetal.js:76-80 | `REMOVE_LIST` keeps `pageMap`, so `next`/`previous` of a current page in the removed list throw |
| VuetalStore.Store.constructor | nuxt/store/vuetal.js:26-34 | the initial state: all maps empty, no current page or list, no requests yet |
| VuetalStore.Store.AddOrUpdateData | nuxt/store/vuetal.js:58-60 | `data[entry.url]` becomes the entry; nothing else changes |
| VuetalStore.Store.AddOrUpdatePage | nuxt/store/vuetal.js:61-63 | `pages[page.url]` becomes the page; nothing else changes |
| VuetalStore.Store.AddOrUpdateList | nuxt/store/vuetal.js:64-71 | the loop leaves the state `AddList` describes (see AddListIndexesPages); only `lists`, `listsByUrl` and `pageMap` change |
| VuetalStore.Store.RemovePage | nuxt/store/vuetal.js:72-75 | the url leaves `pages` and `pageMap`; nothing else changes |
| VuetalStore.Store.RemoveList | nuxt/store/vuetal.js:76-80 | throws with the state unchanged iff the name is not a cached list; otherwise the list and the `listsByUrl` entry of its url go, and `pageMap` is kept |
| VuetalStore.Store.SetCurrentPage | nuxt/store/vuetal.js:81-83 | only `currentPage` changes |
| VuetalStore.Store.SetCurrentList | nuxt/store/vuetal.js:84-86 | only `currentList` changes |
| VuetalStore.Store.FetchApi | nuxt/store/vuetal.js:93-111 | requests the rewritten url exactly once; throws, state unchanged, when `fetchApi` throws or the body is undefined; otherwise commits a page, a data entry or a (`pages`: sorted) list by the body's type, leaves the state for any other body, and returns the response |
| VuetalStore.Store.UsePage | nuxt/store/vuetal.js:113-116 | a cached page is returned with no request and no state change; otherwise exactly one request for the url as a page, with FETCH_API's outcome, after which the url is cached (so the next USE_PAGE makes no request) iff the reply is a page whose own `url` is that url |
| VuetalStore.Store.UseData | nuxt/store/vuetal.js:118-121 | a cached entry is returned with no request and no state change; otherwise exactly one request for the url as data |
| VuetalStore.Store.UseList | nuxt/store/vuetal.js:123-127 | when `listsByUrl` names a list: no request and that list, or undefined if it was removed; otherwise exactly one request with the given type |
| VuetalStore.Store.UseCollection | nuxt/store/vuetal.js:129-136 | a cached list of that name is returned, and an unconfigured collection or one without a list url gives `{}`, both with no request; otherwise one request for the collection's list url and type |
| VuetalStore.Store.UseCollectionAsCurrent | nuxt/store/vuetal.js:156-161 | as USE_COLLECTION, and after any success the name becomes the current list |
| VuetalStore.Store.UsePageAsCurrent | nuxt/store/vuetal.js:138-147 | the reply is USE_PAGE's; the url becomes the current page iff the reply holds a non-empty object, otherwise neither the current page nor the current list changes; a cached page whose collection is answered from the cache makes no request and sets `currentList` to that collection |
| VuetalStore.Store.UsePageListAsCurrent | nuxt/store/vuetal.js:149-154 | the reply is USE_LIST's as pages; unless it is undefined, `currentList` becomes its `name`, which is undefined for anything but a list; the new state in full for both the cached and the fetched case |

## Left out

- The HTTP call (`axios.get`) is the parameter `server`, and the Markdown renderer `marked` is the parameter `marked`. Neither is modelled further.
- `localeCompare` is replaced by lexicographic order on code points. Locale collation is not modelled.
- `encodeURI` is modelled on Unicode scalar values. Its `URIError` for lone surrogates cannot arise, since a Dafny `char` is never a surrogate.
- Asynchrony and interleaving of concurrent dispatches are not modelled. Actions run one at a time to completion.
- The USE_COLLECTION_AS_CURRENT that USE_PAGE_AS_CURRENT dispatches without awaiting is modelled as running right after it. Its failure is discarded, as an unawaited rejection does not reach the caller.
- `ERROR` and `console.error` are logging. Only the rethrow is kept.
- The `site` and `dataMeta` getters are plain lookups with no logic, and are not modelled.
- The `getter`/`getters` helpers of `nuxt/api/vuetal.js` are component-binding glue, and are not modelled.
- `siteinfo` and `process.env` are parameters. `nuxt.config.js` and `nuxt/middleware/page-list.js` are not part of this model.
- Vue reactivity is not modelled. `Vue.set` and `Vue.delete` are map update and removal.
- Object keys of the prototype chain are not modelled: a map lookup sees only own entries.
- The fields of page objects are the ones the code reads: `url`, `order`, `matter`, `data`, `ext`, `collection` and `empty`.
- `order` is an optional integer. A `null` or non-numeric `order` is not modelled.
- The `ext` and `data` values given to `toHtml` are strings.
- A body of any other type keeps only its key set, so its `name` or `collection` reads `undefined`.
- VuetalStore.Store.UsePageAsCurrent: does not state the whole new state when the page or its collection is fetched. The state after the chained USE_COLLECTION_AS_CURRENT is given by that method's own contract.
- VuetalStore.Store.UseCollection: the site configuration always has a `collections` map here. A site without one, where the lookup throws, is not modelled.
